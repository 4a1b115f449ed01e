/** Failure-carrying values for the collaborators the blog pipeline calls:
    Go's `(value, error)` pairs and bare `error` returns. */
module Results {

  /** A value, or the message of the error that replaced it. */
  datatype Result<+T> = Ok(value: T) | Err(msg: string)

  /** The outcome of a step that yields nothing but may fail (a lone Go `error`). */
  datatype Check = Pass | Fail(msg: string)
}
