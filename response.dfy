/** The response envelope builders of server/src/lib/response.js. The envelope is
    `{ success, data, error, meta, requestId }` sent with an HTTP status; the
    `res.status().json()` sink itself is not modelled. */
module Response {
  import opened Wrappers
  import opened Errors
  import Json
  import Text

  datatype ProblemDetail = ProblemDetail(
    typeUri: string,
    title: string,
    status: int,
    detail: string,
    code: string,
    fieldErrors: seq<FieldError>)

  datatype Envelope = Envelope(
    httpStatus: int,
    success: bool,
    data: Json.Value,
    error: Option<ProblemDetail>,
    meta: Json.Value,
    requestId: Option<string>)

  const StatusUriPrefix := "https://httpstatuses.com/"

  /** `res.locals.requestId || null`: an absent or empty id becomes null. */
  function RequestIdOf(locals: Option<string>): (r: Option<string>)
    ensures r.Some? <==> locals.Some? && locals.value != ""
    ensures r.Some? ==> r == locals
  {
    if locals.Some? && locals.value != "" then locals else None
  }

  /** `success(res, data, { status, meta })`. */
  function Success(data: Json.Value, status: Option<int>, meta: Json.Value, locals: Option<string>): (r: Envelope)
    ensures r.success && r.error.None? && r.data == data
    ensures r.httpStatus == (if status.Some? then status.value else 200)
    ensures !Json.Truthy(meta) ==> r.meta == Json.Null
    ensures Json.Truthy(meta) ==> r.meta == meta
    ensures r.requestId == RequestIdOf(locals)
  {
    Envelope(status.GetOr(200), true, data, None, Json.Or(meta, Json.Null), RequestIdOf(locals))
  }

  /** `https://httpstatuses.com/${status}`. */
  function StatusUri(status: int): (r: string)
    ensures |r| > |StatusUriPrefix| && r[..|StatusUriPrefix|] == StatusUriPrefix
    ensures r[|StatusUriPrefix|..] == Text.IntToString(status)
  {
    assert |Text.IntToString(status)| > 0 by { Text.SignMark(status); }
    StatusUriPrefix + Text.IntToString(status)
  }

  /** Distinct statuses get distinct type URIs. */
  lemma StatusUriInjective(a: int, b: int)
    requires StatusUri(a) == StatusUri(b)
    ensures a == b
  {
    Text.IntToStringInjective(a, b);
  }

  /** `err.status || 500`: a missing or zero status is 500. */
  function ProblemStatus(err: ErrorFields): (s: int)
    ensures s != 0
    ensures err.status.Some? && err.status.value != 0 ==> s == err.status.value
  {
    if err.status.Some? && err.status.value != 0 then err.status.value else 500
  }

  /** `x || fallback` on an optional string. */
  function OrString(x: Option<string>, fallback: string): (r: string)
    ensures r == (if x.Some? && x.value != "" then x.value else fallback)
  {
    if x.Some? && x.value != "" then x.value else fallback
  }

  /** `problem(res, err)`: a failure envelope whose error object repeats the HTTP status,
      with each missing or empty field of `err` replaced by its default. */
  function Problem(err: ErrorFields, locals: Option<string>): (r: Envelope)
    ensures !r.success && r.data == Json.Null && r.meta == Json.Null
    ensures r.error.Some? && r.error.value.status == r.httpStatus == ProblemStatus(err)
    ensures r.error.value.typeUri == StatusUri(r.httpStatus)
    ensures r.error.value.title == OrString(err.title, DefaultTitle)
    ensures r.error.value.detail == OrString(err.detail, DefaultDetail)
    ensures r.error.value.code == OrString(err.code, DefaultCode)
    ensures r.error.value.fieldErrors == err.fieldErrors.GetOr([])
    ensures r.requestId == RequestIdOf(locals)
  {
    var status := ProblemStatus(err);
    Envelope(status, false, Json.Null,
             Some(ProblemDetail(StatusUri(status), OrString(err.title, DefaultTitle), status,
                                OrString(err.detail, DefaultDetail), OrString(err.code, DefaultCode),
                                err.fieldErrors.GetOr([]))),
             Json.Null, RequestIdOf(locals))
  }

  /** Rendering an `ApiError` with a nonzero status and non-empty texts keeps all of them. */
  lemma ProblemKeepsApiError(e: ApiError, locals: Option<string>)
    requires e.status != 0 && e.title != "" && e.detail != "" && e.code != ""
    ensures var r := Problem(FieldsOf(e), locals);
      r.httpStatus == e.status && r.error.value.title == e.title && r.error.value.detail == e.detail
      && r.error.value.code == e.code && r.error.value.fieldErrors == e.fieldErrors
  {
  }
}
