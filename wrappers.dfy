/** Option and result datatypes for Java nulls and exceptions. */
module Wrappers {

  /** A value that may be absent; `None` stands for a Java `null` reference. */
  datatype Option<+T> = None | Some(value: T)

  /** The result of a step that may throw: `Failure` carries the exception's class and message. */
  datatype Result<+R, +E> = Success(value: R) | Failure(error: E)

  /** The outcome of a `void` step that may throw. */
  datatype Outcome<+E> = Pass | Fail(error: E)
}
