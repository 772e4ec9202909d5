/** Failure-compatible wrappers shared by every module of the model. */
module Results {

  /** A value that may be missing: JavaScript's `undefined` in the source. */
  datatype Option<+T> = None | Some(value: T)

  /** The outcome of an operation that may throw in the source. */
  datatype Result<+T, +E> = Ok(value: T) | Err(error: E)
}
