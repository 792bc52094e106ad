/** The error-response helper of the server (`errorHandler(err, res)`):
    it defaults a missing status and a missing message and always reports
    failure. */
module ErrorHandling {
  import opened Values

  const FallbackStatus := 500
  const FallbackMessage := "Internal server error"

  /** The two properties of a thrown error that the handler reads; an
      absent property is `None`. */
  datatype ErrorInfo = ErrorInfo(status: Option<int>, message: Option<string>)

  /** What the handler sends: the HTTP status, then the JSON body
      `{ success, status, message }`. */
  datatype ErrorReply = ErrorReply(httpStatus: int, success: bool, status: int, message: string)

  /** `err.status || 500` */
  function StatusOf(err: ErrorInfo): int
  {
    if err.status.Some? && err.status.value != 0 then err.status.value else FallbackStatus
  }

  /** `err.message || 'Internal server error'` */
  function MessageOf(err: ErrorInfo): string
  {
    if Given(err.message) then err.message.value else FallbackMessage
  }

  /** Node's `writeHead` accepts only three-digit status codes. */
  predicate SendableStatus(status: int)
  {
    100 <= status <= 999
  }

  /** The handler either sends its reply, or the send throws because the
      status it chose is not a three-digit code. */
  datatype Outcome = Sent(reply: ErrorReply) | SendThrows(status: int)

  function ErrorHandler(err: ErrorInfo): (r: Outcome)
    ensures r.SendThrows? <==> !SendableStatus(StatusOf(err))
    ensures r.SendThrows? ==> r.status == StatusOf(err) && r.status != 500
    ensures r.Sent? ==> !r.reply.success && r.reply.status == r.reply.httpStatus
    ensures r.Sent? ==> 100 <= r.reply.httpStatus <= 999 && r.reply.message != ""
    ensures r.Sent? && err.status.Some? && err.status.value != 0 ==> r.reply.httpStatus == err.status.value
    ensures err.status.None? || err.status == Some(0) ==> r.Sent? && r.reply.httpStatus == FallbackStatus
    ensures r.Sent? && Given(err.message) ==> r.reply.message == err.message.value
    ensures r.Sent? && !Given(err.message) ==> r.reply.message == FallbackMessage
  {
    var statusCode := StatusOf(err);
    if SendableStatus(statusCode) then Sent(ErrorReply(statusCode, false, statusCode, MessageOf(err)))
    else SendThrows(statusCode)
  }

  /** Defaulting is idempotent: an error carrying the status and message
      of a sent reply is answered with that same reply. */
  lemma ErrorHandlerIdempotent(err: ErrorInfo)
    ensures var r := ErrorHandler(err);
            r.Sent? ==> ErrorHandler(ErrorInfo(Some(r.reply.status), Some(r.reply.message))) == r
  {
  }
}
