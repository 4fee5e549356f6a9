/** Small failure-compatible wrappers shared by every component model. */
module Wrappers {

  /** A value that may be absent: JavaScript's `null`/`undefined` alternatives. */
  datatype Option<+T> = None | Some(value: T)

  /** The outcome of a handler that can refuse: `Failure` stands for the
      early `return` after an error toast. */
  datatype Result<+T, +E> = Success(value: T) | Failure(error: E)
}
