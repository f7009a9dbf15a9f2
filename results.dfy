/** Failure-carrying wrappers used throughout the model in place of Python exceptions. */
module Results {

  datatype Option<+T> = None | Some(value: T)

  /** A value, or the exception that the Python code raises instead of returning one. */
  datatype Result<+T, +E> = Success(value: T) | Failure(error: E)

  /** A procedure that returns nothing on success, or the exception it raises. */
  datatype Outcome<+E> = Pass | Fail(error: E)
}
