/** Failure-compatible result types shared by the evaluator modules. */
module Results {

  /** A value that may be absent, like a JavaScript lookup that yields `undefined`. */
  datatype Option<+T> = None | Some(value: T)

  /** The outcome of an operation that either returns a value or throws. */
  datatype Result<+T, +E> = Ok(value: T) | Err(error: E)
}
