/** Optional values and results with an error message, as used across the model. */
module Wrappers {

  /** A value that may be absent: JavaScript's `undefined` / `null`. */
  datatype Option<+T> = None | Some(value: T)

  /** The outcome of a call that may throw; the failure carries the thrown error's message. */
  datatype Result<+T, +E> = Success(value: T) | Failure(error: E)
}
