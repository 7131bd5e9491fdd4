/** Optional values and results with an error, shared by every module. */
module Wrappers {

  /** A value that may be absent: a Go nil pointer or a Python None. */
  datatype Option<+T> = None | Some(value: T)

  /** A call that either returns a value or fails with an error. */
  datatype Result<+T, +E> = Ok(value: T) | Err(error: E)
}
