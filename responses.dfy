/** What a handler answers, and the JSON envelope the service sends for it.
    A handler either succeeds with an endpoint-specific payload (sent with
    `"success": true` and status 200) or aborts with an HTTP status code, which
    the registered error handlers turn into
    `{"success": false, "error": code, "message": ...}`. */
module Responses {
  import opened Records

  /** The endpoint-specific fields of a successful answer. */
  datatype Payload =
    | CategoryListing(categories: map<int, string>, totalCategories: nat)
    | QuestionListing(questions: seq<Question>, totalQuestions: nat,
                      categories: map<int, string>, currentCategory: Option<int>)
    | Deletion(deleted: int, questions: seq<Question>, totalQuestions: nat)
    | Creation(created: int, questions: seq<Question>, totalQuestions: nat)
    | QuestionMatches(questions: seq<Question>, totalQuestions: nat)
    | QuizTurn(question: Option<Question>)

  /** A handler's outcome: a payload, or `abort(code)` (an exception that
      escapes a handler is Flask's 500). */
  datatype Response = Ok(payload: Payload) | Abort(code: int)

  /** The failure envelope. */
  datatype ErrorBody = ErrorBody(success: bool, error: int, message: string)

  /** The body of a reply. */
  datatype Body = SuccessBody(payload: Payload) | FailureBody(envelope: ErrorBody) | FrameworkPage

  /** What goes on the wire: a status line and a body. */
  datatype Reply = Reply(status: int, body: Body)

  /** The status codes that have a registered error handler. */
  predicate HasErrorHandler(code: int)
  {
    code == 400 || code == 404 || code == 405 || code == 422 || code == 500
  }

  /** The five error handlers: each maps its status code to a failure
      envelope that echoes the code; any other code has no handler. */
  function ErrorHandler(code: int): (e: Option<ErrorBody>)
    ensures e.Some? <==> HasErrorHandler(code)
    ensures e.Some? ==> !e.value.success && e.value.error == code && e.value.message != ""
  {
    if code == 400 then Some(ErrorBody(false, 400, "Bad request"))
    else if code == 404 then Some(ErrorBody(false, 404, "Resource not found"))
    else if code == 405 then Some(ErrorBody(false, 405, "Method not allowed"))
    else if code == 422 then Some(ErrorBody(false, 422, "Not able to be processed"))
    else if code == 500 then Some(ErrorBody(false, 500, "Server error"))
    else None
  }

  /** Distinct handled codes carry distinct messages, so a client can tell
      the failures apart by message as well as by code. */
  lemma MessagesDistinguishCodes(c1: int, c2: int)
    requires HasErrorHandler(c1) && HasErrorHandler(c2) && c1 != c2
    ensures ErrorHandler(c1).value.message != ErrorHandler(c2).value.message
  {
  }

  /** How a handler's outcome is sent. */
  function Render(r: Response): (rep: Reply)
    ensures r.Ok? ==> rep == Reply(200, SuccessBody(r.payload))
    ensures r.Abort? ==> rep.status == r.code
    ensures r.Abort? && HasErrorHandler(r.code) ==>
      rep.body.FailureBody? && !rep.body.envelope.success && rep.body.envelope.error == r.code
    ensures rep.body.FrameworkPage? <==> r.Abort? && !HasErrorHandler(r.code)
  {
    match r
    case Ok(p) => Reply(200, SuccessBody(p))
    case Abort(code) =>
      match ErrorHandler(code)
      case Some(e) => Reply(code, FailureBody(e))
      case None => Reply(code, FrameworkPage)
  }

  /** The codes the seven handlers abort with. */
  predicate HandlerAbortCode(code: int)
  {
    code == 400 || code == 404 || code == 422 || code == 500
  }

  /** Every failure a handler produces is sent as a JSON failure envelope,
      never as the framework's own error page. */
  lemma HandlerFailuresAreEnveloped(r: Response)
    requires r.Abort? && HandlerAbortCode(r.code)
    ensures Render(r).body.FailureBody?
    ensures Render(r).body.envelope == ErrorBody(false, r.code, ErrorHandler(r.code).value.message)
  {
  }
}
