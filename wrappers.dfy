/** Option and Result, the two failure-carrying shapes the rest of the model uses.
    `None` stands for a JavaScript property that is absent (`undefined`/`null`). */
module Wrappers {

  datatype Option<+T> = None | Some(value: T) {
    function GetOr(default: T): T {
      match this
      case Some(v) => v
      case None => default
    }
  }

  datatype Result<+T, +E> = Success(value: T) | Failure(error: E)
}
