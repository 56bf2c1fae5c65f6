/**
  The registration form's submit handler: four checks in a fixed order,
  the first failure reported and nothing sent; otherwise the form is
  disabled, the account is posted, and the outcome is shown.
 */
module Registration {
  import opened Basics
  import opened Json
  import opened Http
  import opened JsText
  import opened EmailShape
  import Decimal

  datatype RegistrationForm = RegistrationForm(username: string, email: string, password: string, confirmPassword: string)

  /** What is posted: the confirmation field is not part of it. */
  datatype RegistrationData = RegistrationData(username: string, email: string, password: string)

  const FillAllFieldsText := "Please fill in all fields"
  const InvalidEmailText := "Please enter a valid email address"
  const ShortPasswordText := "Password must be at least 6 characters long"
  const MismatchText := "Passwords do not match"
  const RegisteredText := "Registration successful! Redirecting to login..."
  const MinPasswordLength := 6

  predicate AnyEmpty(f: RegistrationForm) {
    f.username == "" || f.email == "" || f.password == "" || f.confirmPassword == ""
  }

  /** The four checks; `Err` carries the message of the first that fails. */
  function Validate(f: RegistrationForm): (r: Result<RegistrationData, string>)
    ensures r == Err(FillAllFieldsText) <==> AnyEmpty(f)
    ensures r == Err(InvalidEmailText) <==> !AnyEmpty(f) && !IsValidEmail(f.email)
    ensures r == Err(ShortPasswordText) <==>
              !AnyEmpty(f) && IsValidEmail(f.email) && Utf16Length(f.password) < MinPasswordLength
    ensures r == Err(MismatchText) <==>
              && !AnyEmpty(f) && IsValidEmail(f.email) && Utf16Length(f.password) >= MinPasswordLength
              && f.password != f.confirmPassword
    ensures r.Ok? <==>
              && !AnyEmpty(f) && IsValidEmail(f.email) && Utf16Length(f.password) >= MinPasswordLength
              && f.password == f.confirmPassword
    ensures r.Ok? ==> r.value == RegistrationData(f.username, f.email, f.password)
  {
    if AnyEmpty(f) then Err(FillAllFieldsText)
    else if !IsValidEmail(f.email) then Err(InvalidEmailText)
    else if Utf16Length(f.password) < MinPasswordLength then Err(ShortPasswordText)
    else if f.password != f.confirmPassword then Err(MismatchText)
    else Ok(RegistrationData(f.username, f.email, f.password))
  }

  /** `JSON.stringify(registrationData)`, as the object it denotes. */
  function RegistrationBody(d: RegistrationData): (body: Json)
    ensures body.JObj? && body.fields.Keys == {"username", "email", "password"}
    ensures "confirmPassword" !in body.fields
    ensures body.fields["username"] == JStr(d.username)
    ensures body.fields["email"] == JStr(d.email)
    ensures body.fields["password"] == JStr(d.password)
  {
    JObj(map["username" := JStr(d.username), "email" := JStr(d.email), "password" := JStr(d.password)])
  }

  /**
    One submission: the message shown, the body posted (if any), the
    successive `disabled` settings of the form, and the page the handler
    navigates to (if any).
   */
  datatype RegisterRun = RegisterRun(feedback: Feedback, sent: Option<Json>, formDisabled: seq<bool>, redirect: Option<Page>)

  /** The submit handler, with the settled `fetch` passed in; it is consulted only if a request is sent. */
  function SubmitRegistration(form: RegistrationForm, f: Fetched): (run: RegisterRun)
    ensures run.sent.Some? <==> Validate(form).Ok?
    ensures run.sent.None? ==> run.feedback == Feedback(Validate(form).error, ErrorTone)
    ensures run.sent.Some? ==> run.sent.value == RegistrationBody(Validate(form).value)
    ensures run.formDisabled == [] <==> run.sent.None?
    ensures run.formDisabled != [] ==> run.formDisabled[0] && !run.formDisabled[|run.formDisabled| - 1]
    ensures run.redirect.Some? <==> run.sent.Some? && ClassifyPost("Registration", f).Accepted?
    ensures run.redirect.Some? ==> run.redirect.value == "login.html" && run.feedback == Feedback(RegisteredText, SuccessTone)
    ensures run.redirect.None? ==> run.feedback.tone == ErrorTone
    ensures run.sent.Some? && run.redirect.None? ==>
              run.feedback == FailureFeedback("Registration", ClassifyPost("Registration", f))
  {
    var checked := Validate(form);
    if checked.Err? then RegisterRun(Feedback(checked.error, ErrorTone), None, [], None)
    else
      var body := RegistrationBody(checked.value);
      var outcome := ClassifyPost("Registration", f);
      if outcome.Accepted? then RegisterRun(Feedback(RegisteredText, SuccessTone), Some(body), [true, false], Some("login.html"))
      else RegisterRun(FailureFeedback("Registration", outcome), Some(body), [true, false], None)
  }

  /** A later check is reached only when all earlier ones pass: an empty field hides every other problem. */
  lemma EmptyFieldWins(f: RegistrationForm, fetched: Fetched)
    requires AnyEmpty(f)
    ensures SubmitRegistration(f, fetched) == RegisterRun(Feedback(FillAllFieldsText, ErrorTone), None, [], None)
  {
  }

  /** The email check's examples: "foo" is no address, "a@b.co" is. */
  lemma EmailExamples()
    ensures !IsValidEmail("foo")
    ensures IsValidEmail("a@b.co")
  {
    assert IndexOf("a@b.co", '@') == 1;
    assert "a@b.co"[2..] == "b.co";
    assert "b.co"[1] == '.';
  }

  /** The examples of the password length check: five characters are too few, six are enough. */
  lemma ValidationExamples()
    ensures Validate(RegistrationForm("u", "a@b.co", "12345", "12345")) == Err(ShortPasswordText)
    ensures Validate(RegistrationForm("u", "a@b.co", "123456", "123456")).Ok?
  {
    EmailExamples();
    DigitPasswordLengths();
  }

  /** A differing confirmation is reported once the length passes; a bad address is reported before either. */
  lemma MismatchAndAddressExamples()
    ensures Validate(RegistrationForm("u", "a@b.co", "123456", "123457")) == Err(MismatchText)
    ensures Validate(RegistrationForm("u", "foo", "123456", "123456")) == Err(InvalidEmailText)
  {
    EmailExamples();
    DigitPasswordLengths();
  }

  lemma DigitPasswordLengths()
    ensures Utf16Length("12345") == 5 && Utf16Length("123456") == 6
  {
    Utf16LengthOfBmp("12345");
    Utf16LengthOfBmp("123456");
  }

  /** The length check counts UTF-16 code units: three emoji are six units and pass, two are four and fail. */
  lemma AstralPasswordExamples(username: string, email: string)
    requires username != "" && IsValidEmail(email)
    ensures var three := "\U{1F600}\U{1F600}\U{1F600}";
            Validate(RegistrationForm(username, email, three, three)).Ok?
    ensures var two := "\U{1F600}\U{1F600}";
            Validate(RegistrationForm(username, email, two, two)) == Err(ShortPasswordText)
  {
    Utf16LengthOfAstral("\U{1F600}\U{1F600}\U{1F600}");
    Utf16LengthOfAstral("\U{1F600}\U{1F600}");
  }

  /** A 405 reports the fixed message, does not navigate, and re-enables the form, whatever the body. */
  lemma NotAllowedRegistration(form: RegistrationForm, r: Response)
    requires Validate(form).Ok? && r.status == 405
    ensures var run := SubmitRegistration(form, Received(r));
            && run.feedback == Feedback(NotAllowedText("Registration"), ErrorTone)
            && run.redirect.None?
            && run.formDisabled == [true, false]
  {
  }

  /** An error body that does not parse, or is `null`, shows the status line. */
  lemma UnusableErrorBodyRegistration(form: RegistrationForm, r: Response)
    requires Validate(form).Ok? && !IsOk(r) && r.status != 405
    requires r.body.Unparseable? || r.body.value.JNull?
    ensures SubmitRegistration(form, Received(r)).feedback
         == Feedback("Registration failed: Server returned " + Decimal.IntToDecimal(r.status) + " " + r.statusText, ErrorTone)
  {
    var o := ClassifyPost("Registration", Received(r));
    assert o == Refused(StatusLineText("Registration", r));
    var run := SubmitRegistration(form, Received(r));
    assert run.feedback == FailureFeedback("Registration", o);
    StatusLinePrefix();
  }

  /** The status line's action and its verb join into one literal. */
  lemma StatusLinePrefix()
    ensures "Registration" + " failed: Server returned " == "Registration failed: Server returned "
  {
  }

  /** A success whose body does not parse ends in the outer catch: the account exists, yet the page reports a connection error. */
  lemma UnreadableSuccessRegistration(form: RegistrationForm, r: Response)
    requires Validate(form).Ok? && IsOk(r) && r.body.Unparseable?
    ensures var run := SubmitRegistration(form, Received(r));
            && run.feedback == Feedback("Could not connect to the server. Error: " + r.body.reason, ErrorTone)
            && run.redirect.None?
  {
  }

  /** A network failure quotes the error and re-enables the form. */
  lemma TransportFailureRegistration(form: RegistrationForm, reason: string)
    requires Validate(form).Ok?
    ensures var run := SubmitRegistration(form, NetworkFailure(reason));
            && run.feedback == Feedback(ConnectErrorText(reason), ErrorTone)
            && run.redirect.None?
            && run.formDisabled == [true, false]
  {
  }

  /** A JSON error body shows its `error`, else its `message`, else "Registration failed (<status>)"; the form is re-enabled. */
  lemma ErrorStatusRegistration(form: RegistrationForm, r: Response)
    requires Validate(form).Ok? && !IsOk(r) && r.status != 405
    requires r.body.Parsed? && !r.body.value.JNull?
    ensures var run := SubmitRegistration(form, Received(r));
            && run.feedback == Feedback(ErrorBodyText("Registration", r.status, r.body.value), ErrorTone)
            && run.redirect.None?
            && run.formDisabled == [true, false]
  {
  }
}
