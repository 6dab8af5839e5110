/** Optional values and results with an error message, as used throughout the model. */
module Wrappers {

  /** A value that may be absent: a storage slot that was never written, a `null` session. */
  datatype Option<+T> = None | Some(value: T) {

    /** The value, or `default` when absent (the `|| '[]'` fallback of a storage read). */
    function GetOr(default: T): T {
      match this
      case Some(v) => v
      case None => default
    }
  }

  /** The outcome of a service call that may throw an `Error` with a message. */
  datatype Result<+R> = Success(value: R) | Failure(error: string)
}
