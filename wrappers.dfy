/** Optional values and error-carrying results, used wherever the system
    returns null/None or raises an HTTP error. */
module Wrappers {

  /** A value that may be absent (Python `None`, JavaScript `null`/`undefined`). */
  datatype Option<+T> = None | Some(value: T) {

    /** The value, or `default` when absent. */
    function GetOr(default: T): T {
      match this
      case Some(v) => v
      case None => default
    }
  }

  /** The outcome of an operation that either succeeds with a value or fails
      with an error (an `HTTPException` in the backend). */
  datatype Result<+T, +E> = Ok(value: T) | Err(error: E)
}
