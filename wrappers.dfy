/** Option and Result, standing for Java's nullable references and thrown exceptions. */
module Wrappers {

  /** `None` plays the part of Java's `null`. */
  datatype Option<+T> = None | Some(value: T)

  /** `Failure` plays the part of an exception that reaches the caller. */
  datatype Result<+T, +E> = Success(value: T) | Failure(error: E)
}
