/** Success or an error, for Go's (value, error) returns. */
module Results {
  datatype Result<+T, +E> = Ok(value: T) | Err(error: E)
}
