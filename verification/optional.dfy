/** Python's `Optional[...]` and raised exceptions, as values. */
module Optional {

  /** An absent (`None`) or present value. */
  datatype Option<+T> = None | Some(value: T)

  /** The outcome of an operation that may raise. */
  datatype Result<+T, +E> = Ok(value: T) | Err(error: E)
}
