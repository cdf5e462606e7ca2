/** Optional values and results, for Go's nil pointers and (value, error) returns. */
module Wrappers {

  /** A value that may be absent (a Go nil pointer, slice, map or error). */
  datatype Option<+T> = None | Some(value: T)

  /** The outcome of an operation that either yields a value or fails with an error. */
  datatype Result<+T, +E> = Ok(value: T) | Err(error: E)
}
