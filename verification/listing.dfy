/**
  The paginated user listing page: its state, the Previous / Next / Search
  handlers, the query `loadUsers` sends, how a response is turned into table
  rows and pagination controls, and what happens to the state on failure.
 */
module Listing {
  import opened Basics
  import opened Json
  import opened Http
  import opened JsText
  import opened Decimal
  import opened UriComponent
  import Query

  /** The page's module-level variables. */
  datatype ListingState = ListingState(currentPage: int, totalPages: int, pageLimit: int, currentSearch: string)

  const Initial := ListingState(1, 1, 10, "")

  /** Arguments of one `loadUsers(page, limit, username)` call. */
  datatype LoadRequest = LoadRequest(page: int, limit: int, username: string)

  /** What a handler leaves behind: the new state and the load it starts, if any. */
  datatype Step = Step(state: ListingState, load: Option<LoadRequest>)

  function CurrentLoad(s: ListingState): LoadRequest {
    LoadRequest(s.currentPage, s.pageLimit, s.currentSearch)
  }

  /** On page load: the initial state and a load of its first page. */
  function Start(): (st: Step)
    ensures InBounds(st.state) && st.state.currentSearch == ""
    ensures st.load == Some(LoadRequest(1, 10, "")) && st.load == Some(CurrentLoad(st.state))
  {
    Step(Initial, Some(CurrentLoad(Initial)))
  }

  /** The Previous button's click handler. */
  function Prev(s: ListingState): (st: Step)
    ensures st.load.Some? <==> s.currentPage > 1
    ensures st.load.Some? ==> st.state == s.(currentPage := s.currentPage - 1)
    ensures st.load.Some? ==> st.load.value == CurrentLoad(st.state)
    ensures st.load.None? ==> st.state == s
  {
    if s.currentPage > 1 then
      var s' := s.(currentPage := s.currentPage - 1);
      Step(s', Some(CurrentLoad(s')))
    else Step(s, None)
  }

  /** The Next button's click handler. */
  function Next(s: ListingState): (st: Step)
    ensures st.load.Some? <==> s.currentPage < s.totalPages
    ensures st.load.Some? ==> st.state == s.(currentPage := s.currentPage + 1)
    ensures st.load.Some? ==> st.load.value == CurrentLoad(st.state)
    ensures st.load.None? ==> st.state == s
  {
    if s.currentPage < s.totalPages then
      var s' := s.(currentPage := s.currentPage + 1);
      Step(s', Some(CurrentLoad(s')))
    else Step(s, None)
  }

  /** The Search button's click handler (Enter in the search box clicks it too). */
  function Search(s: ListingState, input: string): (st: Step)
    ensures st.state.currentSearch == Trim(input)
    ensures st.state.currentPage == 1
    ensures st.state.totalPages == s.totalPages && st.state.pageLimit == s.pageLimit
    ensures st.load == Some(CurrentLoad(st.state))
  {
    var s' := s.(currentSearch := Trim(input), currentPage := 1);
    Step(s', Some(CurrentLoad(s')))
  }

  predicate InBounds(s: ListingState) {
    1 <= s.currentPage <= s.totalPages
  }

  /** Previous and Next keep the current page within 1..totalPages. */
  lemma PrevNextKeepBounds(s: ListingState)
    requires InBounds(s)
    ensures InBounds(Prev(s).state) && InBounds(Next(s).state)
  {
  }

  /** Next undoes a Previous that moved. */
  lemma NextUndoesPrev(s: ListingState)
    requires s.currentPage > 1 && s.currentPage <= s.totalPages
    ensures Next(Prev(s).state).state == s
  {
  }

  /** Previous undoes a Next that moved. */
  lemma PrevUndoesNext(s: ListingState)
    requires 1 <= s.currentPage < s.totalPages
    ensures Prev(Next(s).state).state == s
  {
  }

  /** A search keeps the page within bounds whenever there is at least one page. */
  lemma SearchKeepsBounds(s: ListingState, input: string)
    requires s.totalPages >= 1
    ensures InBounds(Search(s, input).state)
  {
  }

  /** Searching again for the same text changes nothing further; blank input clears the filter. */
  lemma SearchIdempotent(s: ListingState, input: string)
    ensures Search(Search(s, input).state, input) == Search(s, input)
    ensures AllSpace(input) ==> Search(s, input).state.currentSearch == ""
  {
    if AllSpace(input) {
      TrimOfSpace(input);
    }
  }

  // ---------------------------------------------------------------------
  // The request URL

  /** The query string `loadUsers` appends to `/users?`. */
  function UsersQuery(req: LoadRequest): string {
    "page=" + IntToDecimal(req.page) + "&limit=" + IntToDecimal(req.limit)
      + (if req.username != "" then "&username=" + EncodeUriComponent(req.username) else "")
  }

  /** The parameters a request should carry, in order. */
  function ExpectedParams(req: LoadRequest): seq<(string, string)> {
    [("page", IntToDecimal(req.page)), ("limit", IntToDecimal(req.limit))]
      + (if req.username != "" then [("username", EncodeUriComponent(req.username))] else [])
  }

  lemma DecimalIsPlain(i: int)
    ensures Query.PlainName(IntToDecimal(i))
  {
    var d := IntToDecimal(i);
    if i < 0 {
      assert forall k :: 1 <= k < |d| ==> d[k] == NatToDecimal(-i)[k - 1];
    }
  }

  lemma EncodedIsPlain(s: string)
    ensures Query.PlainName(EncodeUriComponent(s))
  {
    var t := EncodeUriComponent(s);
    assert forall k :: 0 <= k < |t| ==> EncodedChar(t[k]);
  }

  /** `Join` of two parts and of three parts, spelled out. */
  lemma JoinSmall(a: string, b: string, c: string)
    ensures Query.Join([a, b], '&') == a + "&" + b
    ensures Query.Join([a, b, c], '&') == a + "&" + (b + "&" + c)
  {
    assert [a, b][1..] == [b];
    assert [a, b, c][1..] == [b, c];
    assert [b, c][1..] == [c];
    assert Query.Join([b, c], '&') == b + "&" + c;
  }

  /** The query `loadUsers` writes is the `&`-join of the expected parameters. */
  lemma UsersQueryIsBuilt(req: LoadRequest)
    ensures Query.Build(ExpectedParams(req)) == UsersQuery(req)
  {
    if req.username == "" {
      UnfilteredQueryIsBuilt(req);
    } else {
      FilteredQueryIsBuilt(req);
    }
  }

  lemma UnfilteredQueryIsBuilt(req: LoadRequest)
    requires req.username == ""
    ensures Query.Build(ExpectedParams(req)) == UsersQuery(req)
  {
    var page := ("page", IntToDecimal(req.page));
    var limit := ("limit", IntToDecimal(req.limit));
    var pageText := "page=" + IntToDecimal(req.page);
    var limitText := "limit=" + IntToDecimal(req.limit);
    JoinSmall(pageText, limitText, "");
    assert ExpectedParams(req) == [page, limit];
    var parts := Query.Pieces([page, limit]);
    assert parts == [pageText, limitText] by {
      assert |parts| == 2 && parts[0] == pageText && parts[1] == limitText;
    }
    assert "&limit=" == "&" + "limit=";
  }

  lemma FilteredQueryIsBuilt(req: LoadRequest)
    requires req.username != ""
    ensures Query.Build(ExpectedParams(req)) == UsersQuery(req)
  {
    var d := IntToDecimal(req.page);
    var l := IntToDecimal(req.limit);
    var e := EncodeUriComponent(req.username);
    var page := ("page", d);
    var limit := ("limit", l);
    var user := ("username", e);
    var pageText := "page=" + d;
    var limitText := "limit=" + l;
    var userText := "username=" + e;
    JoinSmall(pageText, limitText, userText);
    assert ExpectedParams(req) == [page, limit, user];
    var parts := Query.Pieces([page, limit, user]);
    assert parts == [pageText, limitText, userText] by {
      assert |parts| == 3 && parts[0] == pageText && parts[1] == limitText && parts[2] == userText;
    }
    assert "&limit=" == "&" + "limit=" && "&username=" == "&" + "username=";
    Assoc("&", "limit=", l);
    Assoc("&", "username=", e);
    var amp := "&";
    calc {
      UsersQuery(req);
      pageText + "&limit=" + l + ("&username=" + e);
      { Assoc(pageText, "&limit=", l); }
      pageText + (amp + limitText) + (amp + userText);
      { Assoc(pageText, amp + limitText, amp + userText); }
      pageText + (amp + limitText + (amp + userText));
      { Assoc(amp, limitText, amp + userText); }
      pageText + (amp + (limitText + (amp + userText)));
      { Assoc(pageText, amp, limitText + (amp + userText)); Assoc(limitText, amp, userText); }
      pageText + amp + (limitText + amp + userText);
    }
  }

  lemma Assoc(x: string, y: string, z: string)
    ensures x + (y + z) == x + y + z
  {
  }

  /**
    The query reads back as `page` and `limit` with their values, followed by
    `username` with the encoded search text exactly when that text is non-empty.
   */
  lemma UsersQueryParses(req: LoadRequest)
    ensures Query.Parse(UsersQuery(req)) == ExpectedParams(req)
    ensures var ps := Query.Parse(UsersQuery(req));
            && ps[0].0 == "page" && ParseInt(ps[0].1) == Some(req.page)
            && ps[1].0 == "limit" && ParseInt(ps[1].1) == Some(req.limit)
            && ((exists k :: 0 <= k < |ps| && ps[k].0 == "username") <==> req.username != "")
  {
    var ps := ExpectedParams(req);
    DecimalIsPlain(req.page);
    DecimalIsPlain(req.limit);
    EncodedIsPlain(req.username);
    UsersQueryIsBuilt(req);
    Query.ParseBuild(ps);
    IntDecimalRoundTrip(req.page);
    IntDecimalRoundTrip(req.limit);
    if req.username != "" {
      assert ps[2].0 == "username";
    } else {
      assert |ps| == 2;
      assert ps[0].0 != "username" && ps[1].0 != "username";
    }
  }

  // ---------------------------------------------------------------------
  // Rendering

  /** The joined column: `toLocaleDateString()` of `createdAt`, or "N/A" when it is falsy. */
  datatype JoinedDate = JoinedUnknown | JoinedOn(createdAt: Json)

  datatype Row =
    | NoUsersRow
    | UserRow(username: string, email: string, highScore: string, gamesPlayed: string, joined: JoinedDate)

  /** One table row, with the page's fallbacks for falsy fields. */
  function UserRowOf(user: Json): (row: Row)
    requires !user.JNull?
    ensures row.UserRow?
    ensures row.username == OrText(Member(user, "username"), "Anonymous")
    ensures row.email == OrText(Member(user, "email"), "N/A")
    ensures row.highScore == OrText(Member(user, "highScore"), "0")
    ensures row.gamesPlayed == OrText(Member(user, "gamesPlayed"), "0")
    ensures row.joined.JoinedOn? <==> Truthy(Member(user, "createdAt"))
    ensures row.joined.JoinedOn? ==> row.joined.createdAt == Member(user, "createdAt").value
  {
    var createdAt := Member(user, "createdAt");
    UserRow(
      OrText(Member(user, "username"), "Anonymous"),
      OrText(Member(user, "email"), "N/A"),
      OrText(Member(user, "highScore"), "0"),
      OrText(Member(user, "gamesPlayed"), "0"),
      if Truthy(createdAt) then JoinedOn(createdAt.value) else JoinedUnknown)
  }

  predicate NoNulls(items: seq<Json>) {
    forall k :: 0 <= k < |items| ==> !items[k].JNull?
  }

  /** `users.forEach(...)`: one row per user in order; a `null` user makes it throw. */
  function RowsOf(items: seq<Json>): (rows: Option<seq<Row>>)
    ensures rows.Some? <==> NoNulls(items)
    ensures rows.Some? ==> |rows.value| == |items|
    ensures rows.Some? ==> forall k :: 0 <= k < |items| ==> rows.value[k] == UserRowOf(items[k])
  {
    if items == [] then Some([])
    else if items[0].JNull? then None
    else
      match RowsOf(items[1..])
      case None => None
      case Some(rest) => Some([UserRowOf(items[0])] + rest)
  }

  /**
    `renderUsers(data.users)`; `None` when it throws. A zero `length` (an
    empty array, the empty string, or an object whose `length` is 0) gives
    the single placeholder row; otherwise only an array has `forEach`.
   */
  function RenderUsers(users: Option<Json>): (rows: Option<seq<Row>>)
    ensures rows.Some? ==> |rows.value| >= 1
    ensures users == Some(JArr([])) ==> rows == Some([NoUsersRow])
    ensures users.Some? && users.value.JArr? && |users.value.items| > 0 ==>
              && (rows.Some? <==> NoNulls(users.value.items))
              && (rows.Some? ==> |rows.value| == |users.value.items|)
              && (rows.Some? ==> forall k :: 0 <= k < |rows.value| ==>
                                   rows.value[k] == UserRowOf(users.value.items[k]))
    ensures users.None? || users == Some(JNull) ==> rows.None?
  {
    match users
    case None => None
    case Some(JArr(items)) => if |items| == 0 then Some([NoUsersRow]) else RowsOf(items)
    case Some(JStr(s)) => if s == "" then Some([NoUsersRow]) else None
    case Some(JObj(m)) => if "length" in m && m["length"] == JNum(0) then Some([NoUsersRow]) else None
    case Some(_) => None
  }

  /** A non-empty user array renders no placeholder. */
  lemma UsersRenderNoPlaceholder(items: seq<Json>)
    requires |items| > 0 && NoNulls(items)
    ensures var rows := RenderUsers(Some(JArr(items)));
            rows.Some? && forall k :: 0 <= k < |rows.value| ==> rows.value[k].UserRow?
  {
  }

  /** The fallbacks of one row: each falsy field shows its default, a non-empty string shows itself. */
  lemma RowFallbacks(user: Json)
    requires !user.JNull?
    ensures !Truthy(Member(user, "username")) ==> UserRowOf(user).username == "Anonymous"
    ensures !Truthy(Member(user, "email")) ==> UserRowOf(user).email == "N/A"
    ensures !Truthy(Member(user, "highScore")) ==> UserRowOf(user).highScore == "0"
    ensures !Truthy(Member(user, "gamesPlayed")) ==> UserRowOf(user).gamesPlayed == "0"
    ensures !Truthy(Member(user, "createdAt")) ==> UserRowOf(user).joined == JoinedUnknown
    ensures Member(user, "username") == Some(JStr("")) ==> UserRowOf(user).username == "Anonymous"
    ensures forall name :: Member(user, "username") == Some(JStr(name)) && name != "" ==>
              UserRowOf(user).username == name
    ensures forall e :: Member(user, "email") == Some(JStr(e)) && e != "" ==> UserRowOf(user).email == e
    ensures forall n :: Member(user, "highScore") == Some(JNum(n)) && n != 0 ==>
              UserRowOf(user).highScore == IntToDecimal(n)
    ensures forall n :: Member(user, "gamesPlayed") == Some(JNum(n)) && n != 0 ==>
              UserRowOf(user).gamesPlayed == IntToDecimal(n)
  {
  }

  // ---------------------------------------------------------------------
  // Receiving the response

  /** What the page shows once a load has finished. */
  datatype ListingView =
    | Listed(rows: seq<Row>, info: string, prevDisabled: bool, nextDisabled: bool)
    | LoadFailed(message: string)
    | PaginationNotNumeric(rows: seq<Row>)

  /** The text of the pagination line: "Showing page <page> of <pages> (<total> total users)". */
  function PaginationInfo(page: int, pages: int, total: Option<Json>): string {
    "Showing page " + IntToDecimal(page) + " of " + IntToDecimal(pages) + " (" + StringOf(total) + " total users)"
  }

  /**
    The pagination line reads back: the page number and the page count
    parse back from their places in the text, and the total is shown as
    `String()` prints it.
   */
  lemma PaginationInfoReadsBack(page: int, pages: int, total: Option<Json>)
    ensures var info := PaginationInfo(page, pages, total);
            var d := |IntToDecimal(page)|;
            var e := |IntToDecimal(pages)|;
            && 19 + d + e + 13 <= |info|
            && info[..13] == "Showing page "
            && ParseInt(info[13..13 + d]) == Some(page)
            && info[13 + d..17 + d] == " of "
            && ParseInt(info[17 + d..17 + d + e]) == Some(pages)
            && info[17 + d + e..19 + d + e] == " ("
            && info[19 + d + e..|info| - 13] == StringOf(total)
            && info[|info| - 13..] == " total users)"
  {
    InfoLayout(IntToDecimal(page), IntToDecimal(pages), StringOf(total));
    IntDecimalRoundTrip(page);
    IntDecimalRoundTrip(pages);
  }

  /** Where the three values sit in the pagination line, whatever their text. */
  lemma InfoLayout(a: string, b: string, t: string)
    ensures var info := "Showing page " + a + " of " + b + " (" + t + " total users)";
            var d := |a|;
            var e := |b|;
            && 19 + d + e + 13 <= |info|
            && info[..13] == "Showing page " && info[13..13 + d] == a
            && info[13 + d..17 + d] == " of " && info[17 + d..17 + d + e] == b
            && info[17 + d + e..19 + d + e] == " (" && info[19 + d + e..|info| - 13] == t
            && info[|info| - 13..] == " total users)"
  {
    Layout("Showing page ", a, " of ", b, " (", t, " total users)");
    assert |"Showing page "| == 13 && |" of "| == 4 && |" ("| == 2 && |" total users)"| == 13;
  }

  /** A concatenation splits back into its two parts. */
  lemma Halves(u: string, v: string)
    ensures (u + v)[..|u|] == u && (u + v)[|u|..] == v
  {
  }

  /** Inside a known prefix, slices of the whole are slices of the prefix. */
  lemma InsidePrefix(s: string, u: string, i: nat)
    requires |u| <= |s| && s[..|u|] == u && i <= |u|
    ensures s[..i] == u[..i] && s[i..|u|] == u[i..]
  {
  }

  /** Where each part of a seven-part concatenation sits. */
  lemma Layout(p: string, a: string, q: string, b: string, r: string, t: string, w: string)
    ensures var s := p + a + q + b + r + t + w;
            var i := |p| + |a|;
            var j := i + |q| + |b|;
            var k := j + |r|;
            && k + |t| + |w| == |s|
            && s[..|p|] == p && s[|p|..i] == a && s[i..i + |q|] == q && s[i + |q|..j] == b
            && s[j..k] == r && s[k..k + |t|] == t && s[k + |t|..] == w
  {
    var s1 := p + a;
    var s2 := s1 + q;
    var s3 := s2 + b;
    var s4 := s3 + r;
    var s5 := s4 + t;
    var s := s5 + w;
    Halves(s5, w);
    Halves(s4, t);
    InsidePrefix(s, s5, |s4|);
    Halves(s3, r);
    InsidePrefix(s, s4, |s3|);
    Halves(s2, b);
    InsidePrefix(s, s3, |s2|);
    Halves(s1, q);
    InsidePrefix(s, s2, |s1|);
    Halves(p, a);
    InsidePrefix(s, s1, |p|);
  }

  /** The server's pagination numbers, when the body carries them. */
  predicate HasNumericPagination(data: Json) {
    && !data.JNull?
    && var p := Member(data, "pagination");
    && p.Some? && !p.value.JNull?
    && var page := Member(p.value, "page");
    && var pages := Member(p.value, "pages");
    && page.Some? && page.value.JNum? && pages.Some? && pages.value.JNum?
  }

  function ServerPage(data: Json): int
    requires HasNumericPagination(data)
  {
    Member(Member(data, "pagination").value, "page").value.n
  }

  function ServerPages(data: Json): int
    requires HasNumericPagination(data)
  {
    Member(Member(data, "pagination").value, "pages").value.n
  }

  /**
    The rest of `loadUsers` once `fetch` has settled. The body is parsed
    before `response.ok` is looked at, so an unparseable body is a
    connection failure whatever the status.
   */
  function Receive(s: ListingState, f: Fetched): (r: (ListingState, ListingView))
    ensures r.0.pageLimit == s.pageLimit && r.0.currentSearch == s.currentSearch
    ensures r.0 != s ==> r.1.Listed?
    ensures r.1.Listed? ==>
              && f.Received? && IsOk(f.response) && f.response.body.Parsed?
              && HasNumericPagination(f.response.body.value)
              && r.0.currentPage == ServerPage(f.response.body.value)
              && r.0.totalPages == ServerPages(f.response.body.value)
              && (r.1.prevDisabled <==> r.0.currentPage <= 1)
              && (r.1.nextDisabled <==> r.0.currentPage >= r.0.totalPages)
              && r.1.info == PaginationInfo(r.0.currentPage, r.0.totalPages,
                                            Member(Member(f.response.body.value, "pagination").value, "total"))
    ensures r.1.Listed? ==> RenderUsers(Member(f.response.body.value, "users")) == Some(r.1.rows)
    ensures r.1.PaginationNotNumeric? ==>
              && f.Received? && IsOk(f.response) && f.response.body.Parsed? && !f.response.body.value.JNull?
              && RenderUsers(Member(f.response.body.value, "users")) == Some(r.1.rows)
    ensures f.NetworkFailure? || f.response.body.Unparseable? || f.response.body.value.JNull? ==>
              r == (s, LoadFailed(ConnectFailureText))
    ensures f.Received? && IsOk(f.response) && f.response.body.Parsed? && !f.response.body.value.JNull? ==>
              var data := f.response.body.value;
              var p := Member(data, "pagination");
              RenderUsers(Member(data, "users")).None? || p.None? || p.value.JNull? ==>
                r == (s, LoadFailed(ConnectFailureText))
  {
    match f
    case NetworkFailure(_) => (s, LoadFailed(ConnectFailureText))
    case Received(resp) =>
      match resp.body
      case Unparseable(_) => (s, LoadFailed(ConnectFailureText))
      case Parsed(data) =>
        if data.JNull? then (s, LoadFailed(ConnectFailureText))
        else if !IsOk(resp) then (s, LoadFailed(OrText(Member(data, "error"), "Failed to load users data")))
        else
          match RenderUsers(Member(data, "users"))
          case None => (s, LoadFailed(ConnectFailureText))
          case Some(rows) =>
            var p := Member(data, "pagination");
            if p.None? || p.value.JNull? then (s, LoadFailed(ConnectFailureText))
            else if HasNumericPagination(data) then
              var page := ServerPage(data);
              var pages := ServerPages(data);
              var s' := s.(currentPage := page, totalPages := pages);
              (s', Listed(rows, PaginationInfo(page, pages, Member(p.value, "total")), page <= 1, page >= pages))
            else (s, PaginationNotNumeric(rows))
  }

  /**
    A listing that `renderUsers` or `updatePagination` cannot handle throws
    into the catch: a null user, a missing user list, or a missing or
    `null` pagination object all show the connection message.
   */
  lemma MalformedListingFails(s: ListingState, users: seq<Json>, pagination: Json)
    requires exists k :: 0 <= k < |users| && users[k].JNull?
    ensures var body := JObj(map["users" := JArr(users), "pagination" := pagination]);
            Receive(s, Received(Response(200, "OK", Parsed(body)))) == (s, LoadFailed(ConnectFailureText))
    ensures var body := JObj(map["users" := JArr([])]);
            Receive(s, Received(Response(200, "OK", Parsed(body)))) == (s, LoadFailed(ConnectFailureText))
    ensures var body := JObj(map["users" := JArr([]), "pagination" := JNull]);
            Receive(s, Received(Response(200, "OK", Parsed(body)))) == (s, LoadFailed(ConnectFailureText))
    ensures var body := JObj(map["pagination" := JObj(map["page" := JNum(1), "pages" := JNum(1)])]);
            Receive(s, Received(Response(200, "OK", Parsed(body)))) == (s, LoadFailed(ConnectFailureText))
  {
  }

  /** An error status leaves the state alone and shows the body's `error`, or the fixed fallback. */
  lemma ErrorStatusKeepsState(s: ListingState, resp: Response)
    requires !IsOk(resp) && resp.body.Parsed? && !resp.body.value.JNull?
    ensures Receive(s, Received(resp)).0 == s
    ensures Receive(s, Received(resp)).1
         == LoadFailed(OrText(Member(resp.body.value, "error"), "Failed to load users data"))
  {
  }

  /** A well-formed listing adopts the server's page numbers and shows one row per user. */
  lemma ListingAdoptsServerPagination(s: ListingState, resp: Response, items: seq<Json>)
    requires IsOk(resp) && resp.body.Parsed? && HasNumericPagination(resp.body.value)
    requires Member(resp.body.value, "users") == Some(JArr(items)) && NoNulls(items)
    ensures var (s', view) := Receive(s, Received(resp));
            && s' == s.(currentPage := ServerPage(resp.body.value), totalPages := ServerPages(resp.body.value))
            && view.Listed?
            && |view.rows| == (if |items| == 0 then 1 else |items|)
            && (|items| == 0 ==> view.rows == [NoUsersRow])
            && (forall k :: 0 < |items| && 0 <= k < |items| ==> view.rows[k] == UserRowOf(items[k]))
  {
  }

  /** The state stays within bounds after a listing whose own page numbers are within bounds. */
  lemma ReceiveKeepsBounds(s: ListingState, f: Fetched)
    requires InBounds(s)
    requires f.Received? && f.response.body.Parsed? && HasNumericPagination(f.response.body.value)
    requires 1 <= ServerPage(f.response.body.value) <= ServerPages(f.response.body.value)
    ensures InBounds(Receive(s, f).0)
  {
  }

  /** The controls on the first of one page are both disabled; on page 2 of 5 both are enabled. */
  lemma ButtonExamples(s: ListingState, users: Json, total: Json)
    requires users.JArr? && NoNulls(users.items)
    ensures var one := JObj(map["users" := users, "pagination" := JObj(map["page" := JNum(1), "pages" := JNum(1), "total" := total])]);
            var v := Receive(s, Received(Response(200, "OK", Parsed(one)))).1;
            v.Listed? && v.prevDisabled && v.nextDisabled
    ensures var two := JObj(map["users" := users, "pagination" := JObj(map["page" := JNum(2), "pages" := JNum(5), "total" := total])]);
            var v := Receive(s, Received(Response(200, "OK", Parsed(two)))).1;
            v.Listed? && !v.prevDisabled && !v.nextDisabled
  {
  }

  // ---------------------------------------------------------------------
  // The buttons

  /**
    The page as a visitor uses it: the handlers' state together with the
    two buttons' `disabled` flags. Only a listing sets the flags, so after
    a failed load they describe the last listing, not the current page.
   */
  datatype ListingPage = ListingPage(state: ListingState, prevDisabled: bool, nextDisabled: bool)

  /** The flags agree with the state, as a listing leaves them. */
  predicate ControlsInSync(p: ListingPage) {
    && (p.prevDisabled <==> p.state.currentPage <= 1)
    && (p.nextDisabled <==> p.state.currentPage >= p.state.totalPages)
  }

  /** A click on Previous: the browser drops it while the button is disabled; otherwise the handler runs. */
  function ClickPrev(p: ListingPage): (r: (ListingPage, Option<LoadRequest>))
    ensures r.1.Some? <==> !p.prevDisabled && p.state.currentPage > 1
    ensures r.1.None? ==> r.0 == p
    ensures r.1.Some? ==> && r.0 == p.(state := p.state.(currentPage := p.state.currentPage - 1))
                          && r.1.value == CurrentLoad(r.0.state)
  {
    if p.prevDisabled then (p, None)
    else
      var step := Prev(p.state);
      (p.(state := step.state), step.load)
  }

  /** A click on Next: the browser drops it while the button is disabled; otherwise the handler runs. */
  function ClickNext(p: ListingPage): (r: (ListingPage, Option<LoadRequest>))
    ensures r.1.Some? <==> !p.nextDisabled && p.state.currentPage < p.state.totalPages
    ensures r.1.None? ==> r.0 == p
    ensures r.1.Some? ==> && r.0 == p.(state := p.state.(currentPage := p.state.currentPage + 1))
                          && r.1.value == CurrentLoad(r.0.state)
  {
    if p.nextDisabled then (p, None)
    else
      var step := Next(p.state);
      (p.(state := step.state), step.load)
  }

  /** A load finishing on the page: a listing resets both flags from the new numbers; anything else leaves them. */
  function Finish(p: ListingPage, f: Fetched): (r: (ListingPage, ListingView))
    ensures (r.0.state, r.1) == Receive(p.state, f)
    ensures r.1.Listed? ==> ControlsInSync(r.0)
    ensures !r.1.Listed? ==> r.0.prevDisabled == p.prevDisabled && r.0.nextDisabled == p.nextDisabled
  {
    var (s', view) := Receive(p.state, f);
    if view.Listed? then (ListingPage(s', view.prevDisabled, view.nextDisabled), view)
    else (p.(state := s'), view)
  }

  /** While the flags agree with the state, a click does exactly what its handler does. */
  lemma ClicksFollowHandlers(p: ListingPage)
    requires ControlsInSync(p)
    ensures ClickPrev(p).0.state == Prev(p.state).state && ClickPrev(p).1 == Prev(p.state).load
    ensures ClickNext(p).0.state == Next(p.state).state && ClickNext(p).1 == Next(p.state).load
  {
  }

  /**
    After a failed load the flags can lag behind the page: listed on page 1
    of 3, a click on Next moves to page 2 and its load fails; Previous stays
    disabled, so a click on it is dropped although the handler would load page 1.
   */
  lemma StaleControlsAfterFailedLoad(reason: string)
    ensures var listed := ListingPage(ListingState(1, 3, 10, ""), true, false);
            var moved := ClickNext(listed).0;
            var failed := Finish(moved, NetworkFailure(reason)).0;
            && ControlsInSync(listed)
            && failed.state.currentPage == 2
            && failed.prevDisabled
            && ClickPrev(failed).1.None?
            && Prev(failed.state).load == Some(LoadRequest(1, 10, ""))
  {
  }
}
