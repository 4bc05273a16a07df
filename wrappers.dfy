/** Optional values and fallible results, standing in for Go's nil pointers and (value, error) pairs. */
module Wrappers {

  /** A value that may be absent (a nil pointer or nil slice in the source). */
  datatype Option<+T> = None | Some(value: T)

  /** The outcome of a call that returns either a value or an error. */
  datatype Result<+T, +E> = Success(value: T) | Failure(error: E)
}
