/** Failure-carrying datatypes used across the model in place of Java's null and exceptions. */
module Wrappers {

  /** A value that may be absent; stands for a Java reference that may be null. */
  datatype Option<+T> = None | Some(value: T)

  /** The outcome of a Java call that returns a value or throws. */
  datatype Result<+T, +E> = Success(value: T) | Failure(error: E)

  /** The outcome of a Java `void` call that returns normally or throws. */
  datatype Outcome<+E> = Pass | Fail(error: E)
}
