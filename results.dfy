/** Option and Result values, used for Go's (value, error) pairs and nil-able results. */
module Results {

  datatype Option<+T> = None | Some(value: T)

  datatype Result<+T, +E> = Ok(value: T) | Err(error: E)
}
