/** Failure-carrying values shared by the configuration accessors. */
module Results {

  /** Python's `None` or a present value. */
  datatype Option<+T> = None | Some(value: T)

  /** A value, or the error a Python accessor would raise instead. */
  datatype Result<+T, +E> = Ok(value: T) | Err(error: E)
}
