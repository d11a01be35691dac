/** Optional values and results with an error, as the handlers use them. */
module Wrappers {

  /** A value that may be absent (`undefined` or `null` in the handlers' inputs). */
  datatype Option<+T> = None | Some(value: T)

  /** The outcome of an operation that either yields a value or fails with an error. */
  datatype Result<+T, +E> = Success(value: T) | Failure(error: E)
}
