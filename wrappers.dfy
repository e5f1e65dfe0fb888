/** Failure-carrying results shared by the rest of the model. */
module Wrappers {

  /** Python's `Optional[T]`: a value or `None`. */
  datatype Option<+T> = None | Some(value: T)

  /** A value, or the exception that the Python code raises instead. */
  datatype Result<+T, +E> = Ok(value: T) | Err(error: E)
}
