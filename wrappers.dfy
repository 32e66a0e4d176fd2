/** Failure-carrying and optional values shared by the modules of the model. */
module Wrappers {

  /** Either a value or the error the Python code would raise. */
  datatype Result<+T, +E> = Success(value: T) | Failure(error: E)

  /** A value that may be absent (Python's `None`). */
  datatype Option<+T> = None | Some(value: T)
}
