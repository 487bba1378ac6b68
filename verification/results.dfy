/** The outcome of an operation that may fail, used where the script would raise. */
module Results {

  datatype Result<+T, +E> = Ok(value: T) | Err(error: E)

}
