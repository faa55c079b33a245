/** Optional values and results, standing in for Kotlin's nullable types and thrown exceptions. */
module Wrappers {

  /** A Kotlin `T?`: either absent (null) or present. */
  datatype Option<+T> = None | Some(value: T)

  /** The value of a computation, or the exception it would have thrown. */
  datatype Result<+R, +E> = Success(value: R) | Failure(error: E)
}
