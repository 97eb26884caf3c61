/** Optional values and results with an error, the shapes every operation of the model returns. */
module Wrappers {

  /** A value that may be missing (JavaScript's `null` / `undefined`). */
  datatype Option<+T> = None | Some(value: T) {
    /** The value, or `default` when there is none. */
    function GetOr(default: T): T {
      match this
      case Some(v) => v
      case None => default
    }
  }

  /** The outcome of an operation: a value, or the error it was thrown with. */
  datatype Result<+T, +E> = Success(value: T) | Failure(error: E)
}
