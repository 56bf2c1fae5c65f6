/**
  The login form's submit handler: a non-empty check, the shared status
  classification, and the session written only when login succeeds.
 */
module Login {
  import opened Basics
  import opened Json
  import opened Http
  import opened Session
  import Decimal

  const MissingFieldsText := "Please enter both email and password"
  const LoggedInText := "Login successful! Redirecting..."

  /** `JSON.stringify(loginData)`, as the object it denotes. */
  function LoginBody(email: string, password: string): (body: Json)
    ensures body.JObj? && body.fields.Keys == {"email", "password"}
    ensures body.fields["email"] == JStr(email) && body.fields["password"] == JStr(password)
  {
    JObj(map["email" := JStr(email), "password" := JStr(password)])
  }

  /** The three `localStorage.setItem` calls of a successful login. */
  function SaveSession(store: Store, data: Json): (s: Store)
    requires !data.JNull?
    ensures s.Keys == store.Keys + SessionKeys
    ensures s[UserIdKey] == StringOf(Member(data, "userId"))
    ensures s[TokenKey] == StringOf(Member(data, "token"))
    ensures s[UsernameKey] == StringOf(Member(data, "username"))
    ensures forall k :: k in store && k !in SessionKeys ==> s[k] == store[k]
  {
    store[UserIdKey := StringOf(Member(data, "userId"))]
         [TokenKey := StringOf(Member(data, "token"))]
         [UsernameKey := StringOf(Member(data, "username"))]
  }

  /** One submission; `formDisabled` lists the successive `disabled` settings of the form. */
  datatype LoginRun = LoginRun(feedback: Feedback, sent: Option<Json>, store: Store, formDisabled: seq<bool>, redirect: Option<Page>)

  /** The submit handler, with the settled `fetch` passed in; it is consulted only if a request is sent. */
  function SubmitLogin(email: string, password: string, store: Store, f: Fetched): (run: LoginRun)
    ensures run.sent.Some? <==> email != "" && password != ""
    ensures run.sent.None? ==> run == LoginRun(Feedback(MissingFieldsText, Unstyled), None, store, [], None)
    ensures run.sent.Some? ==> run.sent.value == LoginBody(email, password) && run.formDisabled == [true, false]
    ensures run.redirect.Some? <==>
              && run.sent.Some?
              && var o := ClassifyPost("Login", f);
              && o.Accepted? && !o.data.JNull?
    ensures run.redirect.Some? ==>
              && run.redirect.value == "dashboard.html"
              && run.feedback == Feedback(LoggedInText, SuccessTone)
              && run.store == SaveSession(store, ClassifyPost("Login", f).data)
    ensures run.redirect.None? ==> run.store == store
    ensures run.sent.Some? && run.redirect.None? ==> run.feedback.tone == ErrorTone
    ensures run.sent.Some? && !ClassifyPost("Login", f).Accepted? ==>
              run.feedback == FailureFeedback("Login", ClassifyPost("Login", f))
    ensures run.sent.Some? && ClassifyPost("Login", f).Accepted? && ClassifyPost("Login", f).data.JNull? ==>
              run.feedback == Feedback(ConnectErrorText(NullReadMessage("userId")), ErrorTone)
  {
    if email == "" || password == "" then
      LoginRun(Feedback(MissingFieldsText, Unstyled), None, store, [], None)
    else
      var body := LoginBody(email, password);
      var outcome := ClassifyPost("Login", f);
      match outcome
      case Accepted(data) =>
        if data.JNull? then
          // data.userId on null throws; the outer catch reports it.
          LoginRun(Feedback(ConnectErrorText(NullReadMessage("userId")), ErrorTone), Some(body), store, [true, false], None)
        else
          LoginRun(Feedback(LoggedInText, SuccessTone), Some(body), SaveSession(store, data), [true, false], Some("dashboard.html"))
      case _ =>
        LoginRun(FailureFeedback("Login", outcome), Some(body), store, [true, false], None)
  }

  /** An error body that does not parse, or is `null`, shows the status line. */
  lemma UnusableErrorBodyLogin(email: string, password: string, store: Store, r: Response)
    requires email != "" && password != "" && !IsOk(r) && r.status != 405
    requires r.body.Unparseable? || r.body.value.JNull?
    ensures SubmitLogin(email, password, store, Received(r)).feedback
         == Feedback("Login failed: Server returned " + Decimal.IntToDecimal(r.status) + " " + r.statusText, ErrorTone)
  {
  }

  /** A success whose body does not parse ends in the outer catch, which quotes the parse error. */
  lemma UnreadableSuccessLogin(email: string, password: string, store: Store, r: Response)
    requires email != "" && password != "" && IsOk(r) && r.body.Unparseable?
    ensures var run := SubmitLogin(email, password, store, Received(r));
            && run.feedback == Feedback("Could not connect to the server. Error: " + r.body.reason, ErrorTone)
            && run.store == store && run.redirect.None?
  {
  }

  /** The login success example: the store then holds exactly the body's three values. */
  lemma LoginSuccessExample(store: Store)
    ensures var data := JObj(map["userId" := JStr("u1"), "token" := JStr("t1"), "username" := JStr("alice")]);
            var run := SubmitLogin("a@b.co", "secret", store, Received(Response(200, "OK", Parsed(data))));
            && run.store[UserIdKey] == "u1" && run.store[TokenKey] == "t1" && run.store[UsernameKey] == "alice"
            && run.feedback.tone == SuccessTone && run.redirect == Some("dashboard.html")
  {
  }

  /** No failure path (405, error status, unreadable body, transport failure) touches the store. */
  lemma FailureKeepsStore(email: string, password: string, store: Store, f: Fetched)
    requires SubmitLogin(email, password, store, f).feedback.tone != SuccessTone
    ensures SubmitLogin(email, password, store, f).store == store
  {
  }

  /** A 405 shows the fixed message whatever the body, writes nothing, and re-enables the form. */
  lemma NotAllowedLogin(email: string, password: string, store: Store, r: Response)
    requires email != "" && password != "" && r.status == 405
    ensures var run := SubmitLogin(email, password, store, Received(r));
            && run.feedback == Feedback(NotAllowedText("Login"), ErrorTone)
            && run.store == store && run.redirect.None? && run.formDisabled == [true, false]
  {
  }

  /** A transport failure quotes the error, writes nothing, and re-enables the form. */
  lemma TransportFailureLogin(email: string, password: string, store: Store, reason: string)
    requires email != "" && password != ""
    ensures var run := SubmitLogin(email, password, store, NetworkFailure(reason));
            && run.feedback == Feedback(ConnectErrorText(reason), ErrorTone)
            && run.store == store && run.formDisabled == [true, false]
  {
  }

  /** An error status shows `error`, else `message`, else "Login failed (<status>)". */
  lemma ErrorStatusLogin(email: string, password: string, store: Store, r: Response)
    requires email != "" && password != "" && !IsOk(r) && r.status != 405
    requires r.body.Parsed? && !r.body.value.JNull?
    ensures SubmitLogin(email, password, store, Received(r)).feedback
         == Feedback(ErrorBodyText("Login", r.status, r.body.value), ErrorTone)
  {
  }
}
