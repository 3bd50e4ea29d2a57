/** Failure-compatible wrappers: `Option` stands for a .NET reference that may be
    null, `Result` for a call that either returns a value or throws. */
module Wrappers {

  /** A possibly-null reference: `None` is C#'s `null`. */
  datatype Option<+T> = None | Some(value: T)

  /** The outcome of a call that returns a value or throws `error`. */
  datatype Result<+T, +E> = Success(value: T) | Failure(error: E)
}
