/** Optional values and results with an error, shared by the other modules. */
module Wrappers {

  /** A value that may be absent: JavaScript's `undefined`/`null` where the model needs one. */
  datatype Option<+T> = None | Some(value: T)

  /** The outcome of a call that may fail, as a resolved or rejected promise. */
  datatype Result<+T, +E> = Success(value: T) | Failure(error: E)
}
