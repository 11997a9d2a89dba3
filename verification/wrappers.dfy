/** Optional values and fallible results used throughout the model. */
module Wrappers {

  /** A value that may be absent (the source's `null`). */
  datatype Option<T> = None | Some(value: T)

  /** The outcome of an operation that either succeeds or raises an error. */
  datatype Result<T, E> = Ok(value: T) | Err(error: E)
}
