/** Failure-carrying return values: Go's `(value, error)` pairs and bare
    `error` returns. */
module Results {

  datatype Option<+T> = None | Some(value: T)

  datatype Result<+T, +E> = Ok(value: T) | Err(error: E)

  /** An `error` return with no value beside it. */
  datatype Outcome<+E> = Pass | Fail(error: E)
}
