/** Failure-compatible wrappers: a nullable value, a value-or-error, and a pass-or-error. */
module Wrappers {

  /** A value that may be absent; stands for a Java reference that may be null. */
  datatype Option<+T> = None | Some(value: T)

  /** The outcome of an operation that either yields a value or throws. */
  datatype Result<+R, +E> = Success(value: R) | Failure(error: E)

  /** The outcome of an operation that yields nothing but may throw. */
  datatype Outcome<+E> = Pass | Fail(error: E)
}
