/**
  The abstract HTTP exchange every page goes through, the feedback line a
  page shows, and the outcome classification shared by the login and
  registration forms.
 */
module Http {
  import opened Basics
  import opened Json
  import Decimal

  /** What `response.json()` produces: a value, or the message of the error it rejects with. */
  datatype Body = Parsed(value: Json) | Unparseable(reason: string)

  datatype Response = Response(status: int, statusText: string, body: Body)

  /** What `await fetch(...)` produces: a response, or the message of the error it rejects with. */
  datatype Fetched = Received(response: Response) | NetworkFailure(reason: string)

  /** `response.ok`: a status in the range 200 to 299. */
  predicate IsOk(r: Response) {
    200 <= r.status <= 299
  }

  /** Colour of the message line: `showMessage` sets one; writing `textContent` directly sets none. */
  datatype Tone = ErrorTone | SuccessTone | Unstyled

  /** The text and colour of a page's message element. */
  datatype Feedback = Feedback(text: string, tone: Tone)

  /** Relative page a delayed `window.location.href` assignment leads to. */
  type Page = string

  /** Shown by the listing and dashboard pages whenever their request throws. */
  const ConnectFailureText := "Could not connect to the server. Please try again later."

  /** The message of a form page's outer catch, which quotes the error it caught. */
  function ConnectErrorText(error: string): string {
    "Could not connect to the server. Error: " + error
  }

  /**
    How a form submission (login or registration) ended, before the page
    acts on a successful body:
    - `NotAllowed`: status 405, decided before any body is read;
    - `Accepted`: an ok status whose body parsed;
    - `Refused`: any other status, with the message to show;
    - `Thrown`: the outer catch ran, with the caught error's message.
   */
  datatype PostOutcome =
    | NotAllowed
    | Accepted(data: Json)
    | Refused(message: string)
    | Thrown(error: string)

  /** "<Action> failed: Method not allowed (405). ..." */
  function NotAllowedText(action: string): string {
    action + " failed: Method not allowed (405). The server does not accept POST requests on this endpoint."
  }

  /** Used when an error body is not usable JSON: the status line. */
  function StatusLineText(action: string, r: Response): string {
    action + " failed: Server returned " + Decimal.IntToDecimal(r.status) + " " + r.statusText
  }

  /** Used when a JSON error body has neither a truthy `error` nor a truthy `message`. */
  function StatusCodeText(action: string, status: int): string {
    action + " failed (" + Decimal.IntToDecimal(status) + ")"
  }

  /** `errorData.error || errorData.message || "<Action> failed (<status>)"`. */
  function ErrorBodyText(action: string, status: int, data: Json): (text: string)
    requires !data.JNull?
    ensures Truthy(Member(data, "error")) ==> text == ToText(Member(data, "error").value)
    ensures !Truthy(Member(data, "error")) && Truthy(Member(data, "message")) ==>
              text == ToText(Member(data, "message").value)
    ensures !Truthy(Member(data, "error")) && !Truthy(Member(data, "message")) ==>
              text == StatusCodeText(action, status)
  {
    OrText(Member(data, "error"), OrText(Member(data, "message"), StatusCodeText(action, status)))
  }

  /**
    The status branches of the form submit handlers. The body is read only
    after the 405 test; an error body that does not parse, or parses to
    `null` (whose fields cannot be read), falls back to the status line.
   */
  function ClassifyPost(action: string, f: Fetched): (o: PostOutcome)
    ensures f.NetworkFailure? ==> o == Thrown(f.reason)
    ensures f.Received? && f.response.status == 405 ==> o == NotAllowed
    ensures o.NotAllowed? ==> f.Received? && f.response.status == 405
    ensures o.Accepted? <==> f.Received? && IsOk(f.response) && f.response.body.Parsed?
    ensures o.Accepted? ==> o.data == f.response.body.value
    ensures o.Refused? <==> f.Received? && !IsOk(f.response) && f.response.status != 405
    ensures o.Thrown? && f.Received? ==> IsOk(f.response) && o.error == f.response.body.reason
    ensures o.Refused? && f.response.body.Parsed? && !f.response.body.value.JNull? ==>
              o.message == ErrorBodyText(action, f.response.status, f.response.body.value)
    ensures o.Refused? && (f.response.body.Unparseable? || f.response.body.value.JNull?) ==>
              o.message == StatusLineText(action, f.response)
  {
    match f
    case NetworkFailure(reason) => Thrown(reason)
    case Received(r) =>
      if r.status == 405 then NotAllowed
      else if IsOk(r) then
        match r.body
        case Parsed(data) => Accepted(data)
        case Unparseable(reason) => Thrown(reason)
      else
        match r.body
        case Parsed(data) =>
          if data.JNull? then Refused(StatusLineText(action, r))
          else Refused(ErrorBodyText(action, r.status, data))
        case Unparseable(_) => Refused(StatusLineText(action, r))
  }

  /** The message a form page shows for an outcome other than `Accepted`. */
  function FailureFeedback(action: string, o: PostOutcome): (fb: Feedback)
    requires !o.Accepted?
    ensures fb.tone == ErrorTone
    ensures o.NotAllowed? ==> fb.text == NotAllowedText(action)
    ensures o.Refused? ==> fb.text == o.message
    ensures o.Thrown? ==> fb.text == ConnectErrorText(o.error)
  {
    match o
    case NotAllowed => Feedback(NotAllowedText(action), ErrorTone)
    case Refused(message) => Feedback(message, ErrorTone)
    case Thrown(error) => Feedback(ConnectErrorText(error), ErrorTone)
  }

  /** A 405 yields the fixed message whatever the body is, even one that would not parse. */
  lemma NotAllowedIgnoresBody(action: string, status: int, statusText: string, b1: Body, b2: Body)
    requires status == 405
    ensures ClassifyPost(action, Received(Response(status, statusText, b1)))
         == ClassifyPost(action, Received(Response(status, statusText, b2)))
         == NotAllowed
  {
  }

  /** An error body that cannot be used reports the status code and status text. */
  lemma UnusableErrorBody(action: string, r: Response)
    requires !IsOk(r) && r.status != 405
    requires r.body.Unparseable? || r.body.value == JNull
    ensures ClassifyPost(action, Received(r)) == Refused(StatusLineText(action, r))
  {
  }
}
