/** `ApiError` (server/src/lib/errors.js): a typed error carrying its HTTP status.
    Every constructor argument has a default that applies when it is not supplied. */
module Errors {
  import opened Wrappers

  datatype FieldError = FieldError(path: string, message: string)

  /** The options object passed to the constructor; `None` is a property left out. */
  datatype ErrorFields = ErrorFields(
    status: Option<int>,
    title: Option<string>,
    detail: Option<string>,
    code: Option<string>,
    fieldErrors: Option<seq<FieldError>>)

  const NoFields := ErrorFields(None, None, None, None, None)

  const DefaultStatus := 500
  const DefaultTitle := "Internal Server Error"
  const DefaultDetail := "Unexpected error."
  const DefaultCode := "internal_error"

  /** A constructed error; `message` is what `super(detail)` gives `Error`. */
  datatype ApiError = ApiError(
    status: int,
    title: string,
    detail: string,
    code: string,
    fieldErrors: seq<FieldError>,
    message: string)

  /** `new ApiError(fields)`: each supplied field is kept, each missing one defaulted,
      and the message is the detail. */
  function NewApiError(f: ErrorFields): (e: ApiError)
    ensures e.message == e.detail
    ensures f.status.None? ==> e.status == DefaultStatus
    ensures f.title.None? ==> e.title == DefaultTitle
    ensures f.detail.None? ==> e.detail == DefaultDetail
    ensures f.code.None? ==> e.code == DefaultCode
    ensures f.fieldErrors.None? ==> e.fieldErrors == []
  {
    var detail := f.detail.GetOr(DefaultDetail);
    ApiError(f.status.GetOr(DefaultStatus), f.title.GetOr(DefaultTitle), detail,
             f.code.GetOr(DefaultCode), f.fieldErrors.GetOr([]), detail)
  }

  /** The fields of an error, all supplied. */
  function FieldsOf(e: ApiError): ErrorFields
  {
    ErrorFields(Some(e.status), Some(e.title), Some(e.detail), Some(e.code), Some(e.fieldErrors))
  }

  /** `new ApiError()` with nothing supplied is the generic internal error. */
  lemma DefaultError()
    ensures NewApiError(NoFields) == ApiError(500, "Internal Server Error", "Unexpected error.",
                                              "internal_error", [], "Unexpected error.")
  {
  }

  /** Supplied fields are stored unchanged: rebuilding an error from its own fields gives it back. */
  lemma SuppliedFieldsKept(e: ApiError)
    requires e.message == e.detail
    ensures NewApiError(FieldsOf(e)) == e
  {
  }

  /** The form every service uses: status, title, detail and code given, no field errors. */
  function Raise(status: int, title: string, detail: string, code: string): (e: ApiError)
    ensures e.status == status && e.title == title && e.detail == detail && e.code == code
    ensures e.fieldErrors == [] && e.message == detail
  {
    NewApiError(ErrorFields(Some(status), Some(title), Some(detail), Some(code), None))
  }

  /** What a service can throw: an `ApiError`, or any other error (a persistence
      validation failure, for instance) that carries only a message. */
  datatype Thrown = Api(error: ApiError) | Foreign(message: string)
}
