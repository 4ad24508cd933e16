/** Optional values and success/failure results shared by every module. */
module Wrappers {
  datatype Option<+T> = None | Some(value: T) {
    function GetOr(default: T): T {
      match this
      case Some(v) => v
      case None => default
    }
  }

  /** An operation that either produces a value or fails with a message
      (the source's thrown `Error` or an HTTP error reply). */
  datatype Result<+T> = Success(value: T) | Failure(message: string)
}
