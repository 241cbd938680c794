/** Optional values and results that carry an error instead of raising. */
module Wrappers {

  /** A value that Python would represent as `None` or as an object. */
  datatype Option<+T> = None | Some(value: T)

  /** The outcome of an operation that returns a value or raises an exception. */
  datatype Result<+T, +E> = Ok(value: T) | Err(error: E)
}
