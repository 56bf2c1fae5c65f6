/**
  The dashboard page: the session guard run on page load, the profile
  request and what its outcome does to the view and the store, the profile
  display with its defaults, and logout.
 */
module Dashboard {
  import opened Basics
  import opened Json
  import opened Http
  import opened JsText
  import opened Session

  const SignInText := "Please log in to view your dashboard"
  const ProfileFallbackText := "Failed to load profile data"
  const LoggedOutText := "You have been logged out successfully"

  /** Outcome of the guard: go on with these credentials, or send the visitor to the login page. */
  datatype Guard = Proceed(userId: string, token: string) | SignInRequired

  /** `if (!userId || !token)`: a missing key and an empty value both stop the page. */
  function CheckSession(store: Store): (g: Guard)
    ensures g.Proceed? <==> HasValue(store, UserIdKey) && HasValue(store, TokenKey)
    ensures g.Proceed? ==> g.userId == store[UserIdKey] && g.token == store[TokenKey]
  {
    if HasValue(store, UserIdKey) && HasValue(store, TokenKey) then Proceed(store[UserIdKey], store[TokenKey])
    else SignInRequired
  }

  /** The profile GET: its URL and its Authorization header value. */
  datatype ProfileRequest = ProfileRequest(url: string, authorization: string)

  /** The user id is pasted into the URL as it is, without encoding. */
  function ProfileRequestFor(apiUrl: string, userId: string, token: string): (req: ProfileRequest)
    ensures req.authorization == "Bearer " + token
    ensures req.url == apiUrl + "/user-profile?userId=" + userId
  {
    ProfileRequest(apiUrl + "/user-profile?userId=" + userId, "Bearer " + token)
  }

  /** The profile card as `updateUserProfile` fills it. */
  datatype ProfileView = ProfileView(username: string, email: string, avatar: string, highScore: string, gamesPlayed: string, rank: string)

  /**
    `(profile.username || 'U')[0].toUpperCase()`; `None` when it throws. A
    string gives its first character; an array or object gives its element
    `0`, whole, when that is a string; anything else has no `toUpperCase`.
   */
  function Avatar(username: Option<Json>): (a: Option<string>)
    ensures !Truthy(username) ==> a == Some("U")
    ensures username.Some? && username.value.JStr? && username.value.s != "" ==>
              a == Some([AsciiUpperChar(username.value.s[0])])
  {
    if !Truthy(username) then Some("U")
    else
      match username.value
      case JStr(s) =>
        assert AsciiUpper(s[..1]) == [AsciiUpperChar(s[0])];
        Some(AsciiUpper(s[..1]))
      case JArr(items) => if |items| > 0 && items[0].JStr? then Some(AsciiUpper(items[0].s)) else None
      case JObj(m) => if "0" in m && m["0"].JStr? then Some(AsciiUpper(m["0"].s)) else None
      case _ => None
  }

  /** `updateUserProfile(profile)`; `None` when it throws. */
  function ProfileViewOf(profile: Option<Json>): (v: Option<ProfileView>)
    ensures profile.None? || profile == Some(JNull) ==> v.None?
    ensures v.Some? ==>
              && var p := profile.value;
              && v.value.username == OrText(Member(p, "username"), "User")
              && v.value.email == OrText(Member(p, "email"), "")
              && Some(v.value.avatar) == Avatar(Member(p, "username"))
              && v.value.highScore == OrText(Member(p, "highScore"), "0")
              && v.value.gamesPlayed == OrText(Member(p, "gamesPlayed"), "0")
              && v.value.rank == "#" + OrText(Member(p, "rank"), "0")
    ensures profile.Some? && !profile.value.JNull? ==>
              (v.Some? <==> Avatar(Member(profile.value, "username")).Some?)
  {
    match profile
    case None => None
    case Some(p) =>
      if p.JNull? then None
      else
        var username := Member(p, "username");
        match Avatar(username)
        case None => None
        case Some(avatar) =>
          Some(ProfileView(
            OrText(username, "User"),
            OrText(Member(p, "email"), ""),
            avatar,
            OrText(Member(p, "highScore"), "0"),
            OrText(Member(p, "gamesPlayed"), "0"),
            "#" + OrText(Member(p, "rank"), "0")))
  }

  /** An empty profile object shows every default. */
  lemma EmptyProfileDefaults()
    ensures ProfileViewOf(Some(JObj(map[]))) == Some(ProfileView("User", "", "U", "0", "0", "#0"))
  {
    var p := JObj(map[]);
    assert Member(p, "username").None? && Member(p, "rank").None?;
    assert "#" + "0" == "#0";
  }

  /**
    The card's fallbacks on any readable profile: each falsy field shows its
    default, and a non-empty string shows itself.
   */
  lemma ProfileFallbacks(p: Json)
    requires !p.JNull? && ProfileViewOf(Some(p)).Some?
    ensures var v := ProfileViewOf(Some(p)).value;
            && (!Truthy(Member(p, "username")) ==> v.username == "User" && v.avatar == "U")
            && (!Truthy(Member(p, "email")) ==> v.email == "")
            && (!Truthy(Member(p, "highScore")) ==> v.highScore == "0")
            && (!Truthy(Member(p, "gamesPlayed")) ==> v.gamesPlayed == "0")
            && (!Truthy(Member(p, "rank")) ==> v.rank == "#0")
            && (forall name :: Member(p, "username") == Some(JStr(name)) && name != "" ==> v.username == name)
  {
  }

  /** A profile whose username is falsy or a string always renders: only other username values can make it throw. */
  lemma StringUsernameRenders(p: Json)
    requires !p.JNull?
    requires var u := Member(p, "username"); !Truthy(u) || u.value.JStr?
    ensures ProfileViewOf(Some(p)).Some?
  {
  }

  /** What `loadUserProfile` leaves behind. */
  datatype ProfileRun = ProfileRun(view: Option<ProfileView>, feedback: Option<Feedback>, store: Store, redirect: Option<Page>)

  /**
    `loadUserProfile` once `fetch` has settled. The body is parsed before
    the status is looked at, so any failure to read it, on any status, ends
    in the catch with the store untouched; only a 401 whose body is a JSON
    value other than `null` clears the credentials.
   */
  function ReceiveProfile(store: Store, f: Fetched): (run: ProfileRun)
    ensures run.view.Some? <==> run.feedback.None?
    ensures run.feedback.Some? ==> run.feedback.value.tone == ErrorTone
    ensures run.redirect.Some? <==>
              && f.Received? && f.response.status == 401
              && f.response.body.Parsed? && !f.response.body.value.JNull?
    ensures run.redirect.Some? ==> run.store == store - {UserIdKey, TokenKey} && run.redirect.value == "login.html"
    ensures run.redirect.None? ==> run.store == store
    ensures f.NetworkFailure? || f.response.body.Unparseable? || f.response.body.value.JNull? ==>
              run == ProfileRun(None, Some(Feedback(ConnectFailureText, ErrorTone)), store, None)
    ensures f.Received? && IsOk(f.response) && f.response.body.Parsed? && !f.response.body.value.JNull? ==>
              && run.view == ProfileViewOf(Member(f.response.body.value, "profile"))
              && (run.view.None? ==> run.feedback == Some(Feedback(ConnectFailureText, ErrorTone)))
    ensures f.Received? && !IsOk(f.response) && f.response.body.Parsed? && !f.response.body.value.JNull? ==>
              run.feedback == Some(Feedback(OrText(Member(f.response.body.value, "error"), ProfileFallbackText), ErrorTone))
  {
    var failed := ProfileRun(None, Some(Feedback(ConnectFailureText, ErrorTone)), store, None);
    match f
    case NetworkFailure(_) => failed
    case Received(resp) =>
      match resp.body
      case Unparseable(_) => failed
      case Parsed(data) =>
        if data.JNull? then failed
        else if IsOk(resp) then
          match ProfileViewOf(Member(data, "profile"))
          case None => failed
          case Some(view) => ProfileRun(Some(view), None, store, None)
        else
          var shown := Feedback(OrText(Member(data, "error"), ProfileFallbackText), ErrorTone);
          if resp.status == 401 then ProfileRun(None, Some(shown), store - {UserIdKey, TokenKey}, Some("login.html"))
          else ProfileRun(None, Some(shown), store, None)
  }

  /** A successful response whose profile is an empty object shows the card with every default. */
  lemma EmptyProfileShown(store: Store, status: int)
    requires 200 <= status <= 299
    ensures var run := ReceiveProfile(store, Received(Response(status, "OK", Parsed(JObj(map["profile" := JObj(map[])])))));
            && run.view == Some(ProfileView("User", "", "U", "0", "0", "#0"))
            && run.feedback.None? && run.store == store && run.redirect.None?
  {
    EmptyProfileDefaults();
  }

  /** An error status shows the body's `error`, or the fixed fallback when it is falsy. */
  lemma ErrorStatusMessage(store: Store, r: Response)
    requires !IsOk(r) && r.body.Parsed? && !r.body.value.JNull?
    ensures var shown := ReceiveProfile(store, Received(r)).feedback;
            && (!Truthy(Member(r.body.value, "error")) ==> shown == Some(Feedback(ProfileFallbackText, ErrorTone)))
            && (forall e :: Member(r.body.value, "error") == Some(JStr(e)) && e != "" ==> shown == Some(Feedback(e, ErrorTone)))
  {
  }

  /** A 401 with a usable body removes the credentials, keeps the user name, and heads for the login page. */
  lemma UnauthorizedClearsCredentials(store: Store, r: Response)
    requires r.status == 401 && r.body.Parsed? && !r.body.value.JNull?
    ensures var run := ReceiveProfile(store, Received(r));
            && UserIdKey !in run.store && TokenKey !in run.store
            && (UsernameKey in store ==> UsernameKey in run.store && run.store[UsernameKey] == store[UsernameKey])
            && (forall k :: k in store && k != UserIdKey && k != TokenKey ==> k in run.store && run.store[k] == store[k])
            && run.redirect == Some("login.html")
  {
  }

  /** A 401 whose body cannot be read falls into the catch: the session stays. */
  lemma UnreadableUnauthorizedKeepsSession(store: Store, r: Response)
    requires r.status == 401 && (r.body.Unparseable? || r.body.value == JNull)
    ensures ReceiveProfile(store, Received(r)).store == store
    ensures ReceiveProfile(store, Received(r)).redirect.None?
  {
  }

  /** Any other error status only shows a message. */
  lemma OtherErrorKeepsSession(store: Store, r: Response)
    requires !IsOk(r) && r.status != 401
    ensures ReceiveProfile(store, Received(r)).store == store
    ensures ReceiveProfile(store, Received(r)).redirect.None?
  {
  }

  /** Everything that happens on page load. */
  datatype DashboardRun = DashboardRun(request: Option<ProfileRequest>, outcome: ProfileRun)

  /** Page load: the guard, then (only if it passes) the profile request and its outcome. */
  function OpenDashboard(apiUrl: string, store: Store, f: Fetched): (run: DashboardRun)
    ensures run.request.Some? <==> CheckSession(store).Proceed?
    ensures run.request.Some? ==> run.request.value.authorization == "Bearer " + store[TokenKey]
    ensures run.request.Some? ==>
              && run.request.value == ProfileRequestFor(apiUrl, store[UserIdKey], store[TokenKey])
              && run.outcome == ReceiveProfile(store, f)
    ensures run.request.None? ==>
              run.outcome == ProfileRun(None, Some(Feedback(SignInText, ErrorTone)), store, Some("login.html"))
  {
    match CheckSession(store)
    case SignInRequired =>
      DashboardRun(None, ProfileRun(None, Some(Feedback(SignInText, ErrorTone)), store, Some("login.html")))
    case Proceed(userId, token) =>
      DashboardRun(Some(ProfileRequestFor(apiUrl, userId, token)), ReceiveProfile(store, f))
  }

  /** What logging out leaves behind. */
  datatype LogoutRun = LogoutRun(store: Store, feedback: Feedback, redirect: Page)

  /** `handleLogout`: removes the three session keys and nothing else, then heads for the home page. */
  function Logout(store: Store): (run: LogoutRun)
    ensures run.store.Keys == store.Keys - SessionKeys
    ensures forall k :: k in run.store ==> run.store[k] == store[k]
    ensures run.feedback == Feedback(LoggedOutText, SuccessTone) && run.redirect == "index.html"
  {
    LogoutRun(store - SessionKeys, Feedback(LoggedOutText, SuccessTone), "index.html")
  }

  /** Logging out twice leaves the same store as logging out once. */
  lemma LogoutIdempotent(store: Store)
    ensures Logout(Logout(store).store).store == Logout(store).store
  {
  }

  /** After logout the guard turns the visitor away. */
  lemma LogoutLocksDashboard(store: Store)
    ensures CheckSession(Logout(store).store) == SignInRequired
  {
  }
}
