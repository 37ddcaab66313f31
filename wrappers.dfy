/** Optional values and results with an error, shared by the door and hub models. */
module Wrappers {

  /** A value that may be absent (Python's None, JavaScript's undefined). */
  datatype Option<+T> = None | Some(value: T) {
    function GetOr(default: T): T {
      match this
      case Some(v) => v
      case None => default
    }
  }

  /** The outcome of an operation that may raise. */
  datatype Result<+R, +E> = Success(value: R) | Failure(error: E)
}
