/** Failure-compatible wrappers used for the source's `None` results and raised exceptions. */
module Wrappers {

  /** A value that may be missing: Python's `Optional[T]`. */
  datatype Option<+T> = None | Some(value: T)

  /** The outcome of an operation that either returns a value or raises an error. */
  datatype Result<+T, +E> = Ok(value: T) | Err(error: E)
}
