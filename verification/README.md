# Game-stats web client: page logic in Dafny

This project models the decision logic of the browser client of a small
game-stats site: which API base URL it talks to, the user-listing page
(its pagination state machine, the query it sends, the table rows it
renders), the registration form (its pre-flight checks and how it reports
the server's answer), the login form (its answer handling and the session
it stores), and the dashboard (its session guard, profile card, handling of
an expired session, and logout).

Everything is pure: an HTTP exchange is a `Fetched` value (a `Response`
with status, status text and a body that either parsed to a `Json` value or
failed to parse with an error message, or a transport failure with its
message), the browser's `localStorage` is a `map<string, string>`, and what
a page shows is a `Feedback` (message text and colour) plus the page a
delayed navigation would lead to. JavaScript behaviour the pages depend on
is spelled out: truthiness for `a || b`, `String(v)` (including
`"undefined"` for a missing value stored with `setItem`), reading a property
of `null` throwing, the `\s` class and `trim`, UTF-16 `length`, and
`encodeURIComponent` (section 19.2.6.5 of ECMA-262, with UTF-8 as in
section 3 of RFC 3629).

Modules, one per file:

| file | module | models |
|---|---|---|
| basics.dfy | Basics | `Option` (with `None` as `undefined`) and `Result` |
| decimal.dfy | Decimal | printing integers, and the parser that undoes it |
| jstext.dfy | JsText | `\s`, `trim`, UTF-16 length, ASCII `toUpperCase`, `indexOf`, `includes` |
| json.dfy | Json | JSON values, property reads, truthiness, `String(v)` |
| uri.dfy | UriComponent | `encodeURIComponent` and percent-decoding |
| query.dfy | Query | joining and splitting `&`-separated `name=value` parameters |
| http.dfy | Http | responses, feedback, the status classification shared by the two forms |
| config.dfy | Config | `js/config.js` |
| listing.dfy | Listing | `js/users.js` |
| email.dfy, registration.dfy | EmailShape, Registration | `js/register.js` |
| session.dfy, login.dfy | Session, Login | `js/login.js` |
| dashboard.dfy | Dashboard | `js/dashboard.js` |
| lifecycle.dfy | SessionLifecycle | how the pages share the stored session |

Behaviour of the pages worth knowing:
- The local-host test is a substring test: a host name containing
  "127.0.0.1" or ".local" anywhere is local (`my.localdomain.com` is local).
- The login and registration pages read a successful response's body; a
  success whose body is not JSON reports a connection failure. On
  registration this happens even though the account was created.
- The dashboard and listing pages parse the body before they look at the
  status. So a 401 whose body is not JSON (or is JSON `null`) ends in the
  generic connection message and does not clear the session.
- The dashboard's 401 handling removes `userId` and `token` but keeps
  `username`.
- Listing: a failed load after Previous or Next leaves the page number
  already moved, while the total stays as it was. The buttons' `disabled`
  flags are set only by a listing, so they still describe the last listing:
  listed on page 1 of 3, a click on Next whose load fails leaves the page at 2
  with Previous still disabled.

## Model

| member | source | states |
|---|---|---|
| Config.GetApiUrl | js/config.js:7-20 | the result is one of the two fixed URLs, and it is the local one exactly when the host is `localhost` or contains `127.0.0.1` or `.local` at some position |
| Config.LocalMarkerInside | js/config.js:11 | any host with `.local` anywhere inside it, not only at its end, gets the local URL |
| Config.LoopbackInside | js/config.js:10 | any host with `127.0.0.1` anywhere inside it gets the local URL |
| Config.DotlessIsProduction | js/config.js:9-15 | a host name other than `localhost` with no dot gets the production URL |
| Config.EndpointsDistinct | js/config.js:15-18 | the two endpoints are different strings, so the classification shows in the result |
| JsText.Includes | js/config.js:10-11 | `includes` is true exactly when the pattern occurs at some index |
| JsText.Trim | js/users.js:42 | `trim` returns a contiguous slice with only white space cut off on either side and none left at its ends |
| JsText.TrimIdempotent | js/users.js:42 | trimming an already trimmed search text changes nothing |
| JsText.TrimOfSpace | js/users.js:42 | a search box holding only white space trims to the empty string |
| JsText.Utf16Units | js/register.js:33 | a character inside the Basic Multilingual Plane is one code unit, any other is a high surrogate followed by a low surrogate |
| JsText.Utf16UnitsDecode | js/register.js:33 | the code units decode back to the character they encode |
| JsText.Utf16Length | js/register.js:33 | the length the password check counts is the number of UTF-16 code units of the text, between the number of characters and twice that |
| JsText.Utf16LengthOfBmp | js/register.js:33 | for text inside the Basic Multilingual Plane that length is the character count |
| JsText.Utf16LengthOfAstral | js/register.js:33 | each character outside the Basic Multilingual Plane, such as an emoji, counts twice |
| Decimal.IntDecimalRoundTrip | js/users.js:63 | the page and limit numbers printed into the query read back as the same integers |
| Decimal.IntToDecimalInjective | js/register.js:93 | different status codes print differently |
| Json.Member | js/users.js:83 | a property read on a non-null value is defined exactly when it is an object having that key |
| Json.OrTextOfString | js/users.js:123 | `s || fallback` on an optional string falls back both when it is absent and when it is "" |
| Json.FalsyJson | js/users.js:123-126 | the falsy JSON values are exactly `null`, `false`, 0 and "" |
| UriComponent.EncodeUriComponent | js/users.js:67 | the encoded search text holds only unreserved characters and `%`, and text of unreserved characters is unchanged |
| UriComponent.DecodeEncode | js/users.js:67 | decoding the `%` escapes of the encoded text gives back exactly its UTF-8 bytes |
| Query.SplitJoin | js/users.js:63-68 | splitting a joined parameter list on `&` gives the parameters back when none contains `&` |
| Query.ParseBuild | js/users.js:63-68 | parsing a built query gives back its name/value pairs when they contain no `=` or `&` |
| Listing.Start | js/users.js:16-24 | on page load the state is page 1 of 1, limit 10, no search, and the first page is loaded with those |
| Listing.Prev | js/users.js:27-32 | Previous loads only when the page is above 1; it then lowers the page by exactly 1 and loads that page; otherwise the state is unchanged and nothing loads |
| Listing.Next | js/users.js:34-39 | Next loads only when the page is below the total; it then raises the page by exactly 1 and loads that page; otherwise nothing changes |
| Listing.Search | js/users.js:41-45 | Search stores the trimmed text, goes back to page 1, keeps total and limit, and always loads |
| Listing.PrevNextKeepBounds | js/users.js:27-39 | Previous and Next keep 1 ≤ page ≤ total when it held before |
| Listing.NextUndoesPrev | js/users.js:27-39 | Next after a Previous that moved restores the state |
| Listing.PrevUndoesNext | js/users.js:27-39 | Previous after a Next that moved restores the state |
| Listing.SearchKeepsBounds | js/users.js:41-45 | after a search the page is within bounds whenever there is a page |
| Listing.SearchIdempotent | js/users.js:41-45 | repeating a search changes nothing more, and a blank search clears the filter |
| Listing.UsersQueryIsBuilt | js/users.js:63-68 | the URL's query is the `&`-join of `page`, `limit` and, for a non-empty search, `username` |
| Listing.UsersQueryParses | js/users.js:63-68 | the query always reads back with `page` and `limit` carrying the request's numbers, and has a `username` parameter exactly when the search text is non-empty |
| Listing.UserRowOf | js/users.js:117-128 | a non-null user gives a user row whose username, email, highScore and gamesPlayed columns are each the field printed when truthy and `Anonymous`, `N/A`, 0 or 0 otherwise, and whose joined column carries `createdAt` exactly when that is truthy |
| Listing.RowsOf | js/users.js:116-131 | a user array renders one row per user in input order, and rendering throws exactly when a user is `null` |
| Listing.RenderUsers | js/users.js:101-132 | an empty user list renders exactly one placeholder row; a non-empty array renders one row per user in order; a missing list throws |
| Listing.UsersRenderNoPlaceholder | js/users.js:116-131 | a non-empty user array renders no placeholder row |
| Listing.RowFallbacks | js/users.js:120-126 | a falsy username, email, highScore, gamesPlayed or createdAt shows `Anonymous`, `N/A`, 0, 0 or `N/A`; a non-empty username or email shows itself, and a non-zero numeric score or game count shows its decimal digits |
| Listing.Receive | js/users.js:79-98 | only a successful listing changes the state, and then its rows are exactly what `renderUsers(data.users)` renders, page and total become the server's, the pagination line is built from them and the server's total, Previous is disabled exactly when page ≤ 1 and Next exactly when page ≥ total; a transport failure, an unparseable or `null` body, a user list `renderUsers` cannot render, or a missing or `null` pagination object all show the connection message with the state kept |
| Listing.PaginationInfoReadsBack | js/users.js:140 | the pagination line starts "Showing page ", the page number and page count parse back from their places in it, and the total appears as `String()` prints it before " total users)" |
| Listing.ErrorStatusKeepsState | js/users.js:91-94 | an error status keeps the state and shows the body's `error` or the fixed fallback |
| Listing.MalformedListingFails | js/users.js:83-97 | a user list holding `null`, a listing without pagination or with `null` pagination, and one without users each end in the connection message with the state kept |
| Listing.ListingAdoptsServerPagination | js/users.js:81-90 | a well-formed listing adopts the server's page and page count and shows each user's row in order (the placeholder alone for none) |
| Listing.ReceiveKeepsBounds | js/users.js:134-137 | after a listing whose own numbers satisfy 1 ≤ page ≤ pages the state is within bounds |
| Listing.ButtonExamples | js/users.js:143-144 | a listing of page 1 of 1 is shown with both controls disabled; one of page 2 of 5 with both enabled |
| Listing.ClickPrev | js/users.js:27-32 | a click on Previous loads exactly when the button is enabled and the page is above 1, lowering the page by 1; otherwise nothing changes |
| Listing.ClickNext | js/users.js:34-39 | a click on Next loads exactly when the button is enabled and the page is below the total, raising the page by 1; otherwise nothing changes |
| Listing.Finish | js/users.js:81-145 | a finished load updates the state as `Receive` does; a listing sets both flags in agreement with the new numbers; any other outcome leaves the flags as they were |
| Listing.ClicksFollowHandlers | js/users.js:27-39 | while the flags agree with the state, a click does exactly what its handler does |
| Listing.StaleControlsAfterFailedLoad | js/users.js:27-145 | listed on page 1 of 3, a Next whose load fails leaves page 2 with Previous disabled, so a click on it is dropped although the handler would load page 1 |
| EmailShape.EmailTestIsRegex | js/register.js:26-30 | an address matches `^[^\s@]+@[^\s@]+\.[^\s@]+$` exactly when it has one `@`, no white space, a non-empty part before the `@`, and a dot after it that is neither first nor last there |
| Registration.Validate | js/register.js:20-42 | the checks run in the order fields, email, length (below 6 fails), match; each message is reported exactly when its check is the first to fail; passing yields username, email and password |
| Registration.RegistrationBody | js/register.js:49-53 | the posted object has exactly the keys `username`, `email` and `password`, with the form's values; the confirmation is not sent |
| Registration.SubmitRegistration | js/register.js:20-106 | a request is sent exactly when validation passes; the form is disabled only then and re-enabled at the end; only an accepted response shows success and leads to `login.html`; every other sent outcome shows the failure's own text in the error colour |
| Registration.EmptyFieldWins | js/register.js:20-23 | with any field empty the result is "Please fill in all fields" and nothing is sent or disabled |
| Registration.EmailExamples | js/register.js:26-30 | "foo" fails the email check and "a@b.co" passes |
| Registration.ValidationExamples | js/register.js:32-36 | with a valid address, a 5-character password fails the length check and a 6-character one passes every check |
| Registration.MismatchAndAddressExamples | js/register.js:26-42 | a differing confirmation is reported once the length passes; "foo" is reported as an invalid address |
| Registration.AstralPasswordExamples | js/register.js:32-36 | three emoji (six code units) pass the length check and two (four code units) fail it |
| Registration.NotAllowedRegistration | js/register.js:71-75 | a 405 shows the fixed message whatever the body, does not navigate, and the form is re-enabled |
| Registration.ErrorStatusRegistration | js/register.js:89-93 | an error status with a JSON body shows `error`, else `message`, else "Registration failed (<status>)", does not navigate, and re-enables the form |
| Registration.UnusableErrorBodyRegistration | js/register.js:94-97 | an error response whose body is unparseable or `null` shows "Registration failed: Server returned " with the status and status text |
| Registration.UnreadableSuccessRegistration | js/register.js:78-102 | a success whose body does not parse shows the connection error quoting the parse error, and does not redirect |
| Registration.TransportFailureRegistration | js/register.js:100-106 | a transport failure shows "Could not connect to the server. Error: " with the error's message and re-enables the form |
| Http.ClassifyPost | js/register.js:71-99 | 405 is decided before any body is read; an ok status with a parsed body is accepted; every other status is refused, with the body's `error`/`message`/status-code text when it parsed to a non-null value and the status line otherwise; an ok body that fails to parse or a transport failure ends in the outer catch with that error |
| Http.ErrorBodyText | js/register.js:93 | the error message is the body's `error` if truthy, else its `message` if truthy, else "… failed (<status>)" |
| Http.FailureFeedback | js/login.js:47-83 | every failing outcome of a form is shown in the error colour: 405 shows the fixed not-allowed sentence, a refusal the server's or status-line message, a thrown error "Could not connect to the server. Error: " with its message |
| Http.NotAllowedIgnoresBody | js/login.js:47-51 | the 405 outcome is the same for every body, including one that would not parse |
| Http.UnusableErrorBody | js/login.js:75-79 | an error body that does not parse, or is `null`, reports "Server returned <status> <statusText>" |
| Login.LoginBody | js/login.js:28-31 | the posted object has exactly the keys `email` and `password` |
| Login.SaveSession | js/login.js:59-61 | a successful login sets `userId`, `token` and `username` to the body's values as strings and keeps every other key |
| Login.SubmitLogin | js/login.js:18-87 | an empty email or password sets the message and returns before anything is sent or disabled; otherwise the form is disabled and re-enabled; only a success writes the session and leads to `dashboard.html`; every other outcome leaves the store unchanged and shows the failure's own text, and a success with a `null` body reports reading `userId` of null |
| Login.LoginSuccessExample | js/login.js:54-69 | a 200 with `{userId:"u1", token:"t1", username:"alice"}` stores exactly those values, shows success and leads to the dashboard |
| Login.FailureKeepsStore | js/login.js:47-87 | no outcome other than success changes the store |
| Login.NotAllowedLogin | js/login.js:47-51 | a 405 shows the fixed message, writes nothing and re-enables the form |
| Login.UnusableErrorBodyLogin | js/login.js:75-79 | an error response whose body is unparseable or `null` shows "Login failed: Server returned " with the status and status text |
| Login.UnreadableSuccessLogin | js/login.js:54-83 | a success whose body does not parse shows the connection error quoting the parse error, writes nothing and does not redirect |
| Login.TransportFailureLogin | js/login.js:81-87 | a transport failure quotes the error, writes nothing and re-enables the form |
| Login.ErrorStatusLogin | js/login.js:70-80 | an error status with a JSON body shows `error`, else `message`, else "Login failed (<status>)" |
| Dashboard.CheckSession | js/dashboard.js:18-29 | the page goes on exactly when both `userId` and `token` are stored and non-empty, with those values |
| Dashboard.OpenDashboard | js/dashboard.js:18-32 | the profile is requested exactly when the guard passes, with the stored user id in the URL and the header `Bearer <token>`, and its outcome is exactly what `loadUserProfile` does with the response; otherwise the sign-in message is shown and the page heads for `login.html` |
| Dashboard.ProfileRequestFor | js/dashboard.js:47-53 | the request carries `"Bearer " + token` and the user id in the URL as it is |
| Dashboard.Avatar | js/dashboard.js:90-91 | the avatar is `U` when the username is absent or falsy, and the upper-cased first character of a non-empty string username |
| Dashboard.ProfileViewOf | js/dashboard.js:84-97 | the card shows username or `User`, email or "", highScore or 0, gamesPlayed or 0, and `#` followed by rank or 0 |
| Dashboard.ProfileFallbacks | js/dashboard.js:86-96 | on any profile that renders, a falsy username, email, highScore, gamesPlayed or rank shows `User` (and avatar `U`), "", 0, 0 or `#0`; a non-empty username shows itself |
| Dashboard.StringUsernameRenders | js/dashboard.js:86-91 | a profile whose username is falsy or a string always renders |
| Dashboard.EmptyProfileDefaults | js/dashboard.js:86-96 | an empty profile object shows `User`, "", `U`, 0, 0 and `#0` |
| Dashboard.EmptyProfileShown | js/dashboard.js:56-64 | a successful response with `{profile: {}}` shows the card with every default, no message, and the store untouched |
| Dashboard.ErrorStatusMessage | js/dashboard.js:65-67 | an error status shows "Failed to load profile data" when the body's `error` is falsy, and a non-empty string `error` as it is |
| Dashboard.ReceiveProfile | js/dashboard.js:54-81 | a 2xx response shows the card `updateUserProfile(data.profile)` fills, or the connection message when that throws; an error status shows `data.error` or "Failed to load profile data"; an unreadable or `null` body shows the connection message; the card is shown exactly when no message is; the page heads for login exactly on a 401 whose body parsed to a non-null value, removing `userId` and `token` only then; every other outcome leaves the store unchanged |
| Dashboard.UnauthorizedClearsCredentials | js/dashboard.js:65-76 | a 401 with a usable body removes `userId` and `token`, keeps `username` and every other key, and heads for login |
| Dashboard.UnreadableUnauthorizedKeepsSession | js/dashboard.js:54-81 | a 401 whose body does not parse, or is `null`, keeps the session and does not navigate |
| Dashboard.OtherErrorKeepsSession | js/dashboard.js:65-77 | any other error status keeps the store and does not navigate |
| Dashboard.Logout | js/dashboard.js:99-112 | logout removes exactly `userId`, `token` and `username`, keeps every other key and value, and heads for `index.html` |
| Dashboard.LogoutIdempotent | js/dashboard.js:103-105 | logging out twice leaves the same store as once |
| Dashboard.LogoutLocksDashboard | js/dashboard.js:103-105 | after logout the dashboard guard turns the visitor away |
| SessionLifecycle.LoginKeepsPaired | js/login.js:59-60 | every modelled login outcome leaves `userId` and `token` both stored or both absent if they were before |
| SessionLifecycle.ProfileKeepsPaired | js/dashboard.js:71-72 | whatever a profile load does, the credentials stay paired |
| SessionLifecycle.LogoutKeepsPaired | js/dashboard.js:103-104 | logout leaves the credentials paired |
| SessionLifecycle.LoginOpensDashboard | js/login.js:59-60 | after a successful login with a non-empty id and token, the dashboard guard passes with exactly those |
| SessionLifecycle.UnauthorizedLocksDashboard | js/dashboard.js:70-72 | after a 401 with a usable body the dashboard guard turns the visitor away |

## Left out

- DOM work: element lookup, `innerHTML`, loading indicators, display toggling and CSS colours. A page's output is kept as message text, an error/success colour, table rows and the two pagination `disabled` flags.
- HTML in rendered values: the listing writes user fields into `innerHTML` unescaped; the model keeps them as text.
- Timers and navigation: the delays before redirects are dropped; only the target page is recorded. The dashboard's "play game" button (a plain link to `game.html`) has no logic and is not modelled.
- `fetch` itself, request headers other than `Authorization`, and transport: a request is recorded by its body or URL, and the settled `fetch` is a parameter.
- Console logging, including the environment line at js/config.js:26.
- `toLocaleDateString` of the joined date depends on locale and clock; the row keeps the `createdAt` value it would format.
- Overlapping requests: the model handles one response at a time and has no ordering between in-flight loads.
- Persistence of `localStorage` across pages: it is an in-memory map passed between page models.
- Initial button flags: the `disabled` state of Previous and Next before the first listing comes from the page's HTML, which is not part of this model; a `Listing.ListingPage` takes them as given.
- JSON numbers are integers: fractional, huge or non-finite numbers and their printing are not modelled.
- Listing.Receive: when the pagination object's `page` or `pages` is not a number, the source stores that non-number as the current page or page count; the model reports `PaginationNotNumeric` with the rendered rows and keeps the previous numbers.
- Listing.Finish: in that non-numeric case the source also sets both `disabled` flags from comparisons with the non-number; the model leaves the flags as they were.
- Json.NullReadMessage: the TypeError text quoted by the login page's catch uses V8's wording; other engines word it differently.
- Dashboard.Avatar: upper-casing is limited to ASCII letters, and a username starting with a character outside the Basic Multilingual Plane keeps the whole character where JavaScript's `[0]` takes only its first UTF-16 code unit.
- JsText.AsciiUpper: `toUpperCase` beyond ASCII (including letters whose upper case is longer) is not modelled.
- Property reads only see own JSON keys: inherited properties such as `constructor` are not modelled. The pages read no such property directly, but `String()` conversions call `toString` (next line).
- Json.ToText: it never throws. In JavaScript, converting an object that has its own `toString` key to a string (template literals, `textContent`, `setItem`, `new Date`) throws a TypeError. So a user row whose field is such an object throws at js/users.js:123, and the listing then shows the connection message where `Listing.UserRowOf` renders the row. A login body whose `token` is such an object stores `userId`, then throws at js/login.js:60 with `token` unset, where `Login.SubmitLogin` stores all three keys and redirects. `SessionLifecycle.LoginKeepsPaired` therefore covers only the modelled outcomes.
- UriComponent.EncodeUriComponent: Dafny strings hold Unicode scalar values, so the lone surrogates that make `encodeURIComponent` throw a URIError at js/users.js:67 cannot occur in the model.
