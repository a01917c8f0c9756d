/** Failure-carrying values used across the model: Go's nil-able values and
    its (value, error) pairs. */
module Results {

  /** A value that may be absent (a nil pointer, a nil map, a nil error). */
  datatype Option<+T> = None | Some(value: T)

  /** A value or the error that took its place. */
  datatype Result<+T, +E> = Ok(value: T) | Err(error: E)
}
