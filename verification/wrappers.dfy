/** Failure-carrying result types shared by the whole model, and the Python
    exception classes the modelled code raises. */
module Wrappers {

  datatype Option<+T> = None | Some(value: T)

  datatype Result<+T, +E> = Success(value: T) | Failure(error: E)

  /** The outcome of a call that returns nothing but may raise. */
  datatype Outcome<+E> = Pass | Fail(error: E)

  /** The built-in exceptions the modelled code can raise. */
  datatype PyError = ValueError | IndexError | RuntimeError
}
