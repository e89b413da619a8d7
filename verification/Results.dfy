/** The outcome of an operation that may raise an exception. */
module Results {

  /** `Ok` carries the value computed, `Err` the message of the exception. */
  datatype Result<T> = Ok(value: T) | Err(message: string)
}
