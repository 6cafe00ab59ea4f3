/** Failure-compatible wrappers shared by the plate modules. */
module Wrappers {

  /** An optional value: Python's `None` or a value. */
  datatype Option<+T> = None | Some(value: T)

  /** A value or an error: a Python function that may raise. */
  datatype Result<+T, +E> = Ok(value: T) | Err(error: E)
}
