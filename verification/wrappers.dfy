/** Option and Result, used for Java's nullable references and for thrown exceptions. */
module Wrappers {

  /** A value that may be absent; `None` stands for Java's `null`. */
  datatype Option<+T> = None | Some(value: T)

  /** The outcome of a call that may throw: its value, or the exception it threw. */
  datatype Result<+T, +E> = Success(value: T) | Failure(error: E)
}
