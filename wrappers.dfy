/** Optional values and results with an error, used for configuration fields and
    for the outcome of the startup check. */
module Wrappers {

  /** A value that may be absent (Python's `None`). */
  datatype Option<T> = None | Some(value: T)

  /** Either a value or an error message. */
  datatype Result<T, E> = Success(value: T) | Failure(error: E)
}
