/** Failure-compatible wrappers shared by the other modules. */
module Wrappers {

  /** A value that may be missing: Go's nil pointer or absent map entry. */
  datatype Option<+T> = None | Some(value: T)

  /** The result of an operation that may fail, in place of Go's `(value, error)` pairs. */
  datatype Result<+T, +E> = Ok(value: T) | Err(error: E)
}
