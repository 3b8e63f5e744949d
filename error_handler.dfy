/** The Express error handler (server/src/middleware/errorHandler.js): any thrown value
    becomes an `ApiError`, is logged, and is rendered as a problem envelope. */
module ErrorHandler {
  import opened Wrappers
  import opened Errors
  import Response

  /** The structured log line written for every failed request. */
  datatype LogRecord = LogRecord(requestId: Option<string>, path: string, httpMethod: string, status: int, message: string)

  const UnexpectedDetail := "Unexpected server error."

  /** The `ApiError` that is rendered: the thrown one, or a fixed 500 for anything else. */
  function AsApiError(err: Thrown): (e: ApiError)
    ensures err.Api? ==> e == err.error
    ensures err.Foreign? ==> e == Raise(500, "Internal Server Error", UnexpectedDetail, "internal_error")
  {
    match err
    case Api(e) => e
    case Foreign(_) => Raise(500, "Internal Server Error", UnexpectedDetail, "internal_error")
  }

  function MessageOf(err: Thrown): string
  {
    match err
    case Api(e) => e.message
    case Foreign(m) => m
  }

  /** `errorHandler(err, req, res)`: the log record and the envelope sent. */
  function HandleError(err: Thrown, locals: Option<string>, path: string, httpMethod: string): (r: (LogRecord, Response.Envelope))
    ensures !r.1.success && r.1.error.Some?
    ensures r.0.status == AsApiError(err).status
    ensures r.0.message == MessageOf(err)
    ensures r.1 == Response.Problem(FieldsOf(AsApiError(err)), locals)
  {
    var apiErr := AsApiError(err);
    (LogRecord(locals, path, httpMethod, apiErr.status, MessageOf(err)), Response.Problem(FieldsOf(apiErr), locals))
  }

  /** A non-`ApiError` is always a 500 `internal_error` with the fixed detail, whatever its
      own message says; the message only reaches the log. */
  lemma ForeignErrorsAreOpaque(m1: string, m2: string, locals: Option<string>, path: string, httpMethod: string)
    ensures var r := HandleError(Foreign(m1), locals, path, httpMethod);
      r.1 == HandleError(Foreign(m2), locals, path, httpMethod).1
      && r.1.httpStatus == 500 && r.1.error.value.code == "internal_error"
      && r.1.error.value.detail == UnexpectedDetail
  {
  }

  /** An `ApiError` is rendered with its own status, code and detail (when they are set). */
  lemma ApiErrorsKeepTheirIdentity(e: ApiError, locals: Option<string>, path: string, httpMethod: string)
    requires e.status != 0 && e.title != "" && e.detail != "" && e.code != ""
    ensures var r := HandleError(Api(e), locals, path, httpMethod).1;
      r.httpStatus == e.status && r.error.value.status == e.status
      && r.error.value.code == e.code && r.error.value.detail == e.detail
  {
    Response.ProblemKeepsApiError(e, locals);
  }

  /** The logged status is the response status exactly when the error's status is not 0
      (`problem` turns a 0 into 500; no service raises status 0). */
  lemma LoggedStatusMatchesResponse(err: Thrown, locals: Option<string>, path: string, httpMethod: string)
    ensures var r := HandleError(err, locals, path, httpMethod);
      (r.0.status == r.1.httpStatus) <==> AsApiError(err).status != 0
  {
  }
}
