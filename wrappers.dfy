/** Failure-carrying values used wherever the Java code returns null or throws. */
module Wrappers {

  /** A value that may be absent (Java's null). */
  datatype Option<+T> = None | Some(value: T)

  /** A computed value, or the exception that ended the computation. */
  datatype Result<+R, +E> = Success(value: R) | Failure(error: E)

  /** A check that either passes or fails with an error (a void method that may throw). */
  datatype Outcome<+E> = Pass | Fail(error: E)
}
