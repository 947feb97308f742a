/** The outcome of a public entry point that may raise: either a value or the
    error it raised instead. */
module Results {

  datatype Result<+T, +E> = Ok(value: T) | Err(error: E)
}
