/** Failure-carrying values shared by the todo-list model. */
module Results {

  /** A value that may be absent; Ruby's `nil` result. */
  datatype Option<+T> = None | Some(value: T)

  /** Either a value or the exception an operation raises. */
  datatype Result<+T, +E> = Ok(value: T) | Err(error: E)
}
