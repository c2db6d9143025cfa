/** Failure-carrying wrappers shared by every handler of the model. */
module Results {

  /** An optional value: JavaScript's `undefined` / `null` / `NaN` become `None`. */
  datatype Option<+T> = None | Some(value: T)

  /** The outcome of a handler that either produces a value or reports an error. */
  datatype Result<+T, +E> = Success(value: T) | Failure(error: E)
}
