/** Outcome types standing for the program's return values and exceptions.
    Every exception the core raises is a `ValueError` with a message. */
module Results {

  datatype Option<T> = None | Some(value: T)

  datatype Error = ValueError(message: string)

  datatype Result<T> = Ok(value: T) | Err(error: Error)

  /** The outcome of an operation that returns nothing or raises. */
  datatype Outcome = Pass | Fail(error: Error)
}
