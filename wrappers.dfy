/** Option and Result values shared by the whole model. */
module Wrappers {

  /** Swift's `Optional`: `nil` is `None`. */
  datatype Option<+T> = None | Some(value: T)

  /** The outcome of a call that may throw. */
  datatype Result<+R, +E> = Success(value: R) | Failure(error: E)
}
