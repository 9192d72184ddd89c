/** Failure-carrying results: Go's `(value, error)` pairs and nil-able slots. */
module Wrappers {

  /** A slot that may be nil. */
  datatype Option<+T> = None | Some(value: T)

  /** A value or the error that replaced it. */
  datatype Result<+T, +E> = Ok(value: T) | Err(error: E)
}
