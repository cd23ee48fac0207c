/** Failure-carrying results shared by the component models. */
module Wrappers {

  datatype Option<+T> = None | Some(value: T)

  /** A Python or TypeScript call that either returns a value or raises. */
  datatype Result<+T, +E> = Success(value: T) | Failure(error: E)

  /** A check that either returns normally or raises. */
  datatype Outcome<+E> = Pass | Fail(error: E)
}
