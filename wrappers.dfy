/** Optional values and results shared by every module of the model. */
module Wrappers {
  /** A JavaScript value that may be `null`/`undefined`. */
  datatype Option<T> = None | Some(value: T) {
    function GetOr(default: T): T {
      match this
      case None => default
      case Some(v) => v
    }
  }

  /** A computation that succeeds with a value or fails with an error message. */
  datatype Result<T, E> = Success(value: T) | Failure(error: E)
}
