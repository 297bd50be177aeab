/** Optional values and success/error outcomes. */
module Wrappers {

  /** An optional value: an HTML attribute that may be absent. */
  datatype Option<+T> = None | Some(value: T)

  /** The outcome of an operation that may fail with an error of type `E`. */
  datatype Result<+T, +E> = Success(value: T) | Failure(error: E)
}
