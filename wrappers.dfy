/** Optional values and results with a typed error, used by every module. */
module Wrappers {

  /** A value that may be absent: a JavaScript `undefined` or `null` field. */
  datatype Option<+T> = None | Some(value: T) {
    function GetOr(default: T): T {
      match this
      case Some(v) => v
      case None => default
    }
  }

  /** The outcome of a request handler: a payload, or the error the handler answers with. */
  datatype Result<+T, +E> = Success(value: T) | Failure(error: E)

  /**
   * A request-body field as a handler that tests `!== undefined` sees it:
   * left out of the body, sent as `null`, or sent with a value.
   */
  datatype Field<+T> = Absent | Null | Given(value: T)
}
