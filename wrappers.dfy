/** Option and Result, the two failure-carrying datatypes the model uses. */
module Wrappers {

  /** A JavaScript value that may be `undefined`/`null` (None) or present (Some). */
  datatype Option<+T> = None | Some(value: T)

  /** The outcome of a call that can fail, such as a backend query. */
  datatype Result<+R, +E> = Success(value: R) | Failure(error: E)
}
