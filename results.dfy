/** Shapes of the Go stores' return values. */
module Results {

  /** A Go `(T, error)` pair: either a value with a nil error, or an error. */
  datatype Result<+T, +E> = Ok(value: T) | Err(error: E)

  /** A bare Go `error`: nil (`Pass`) or one error value. */
  datatype Outcome<+E> = Pass | Fail(error: E)
}
