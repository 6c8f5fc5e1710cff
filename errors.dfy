/** Failure-carrying values that stand for Java's null and its exceptions. */
module Errors {

  /** A reference that may be null (a missing name, a missing product). */
  datatype Option<+T> = None | Some(value: T)

  /** The two exception classes the core throws. */
  datatype Failure =
    | IllegalArgument(message: string)
    | NullPointer

  /** A call that either returns a value or throws. */
  datatype Result<+T> = Ok(value: T) | Err(error: Failure)

  /** A call of a void method: it returns normally or throws. */
  datatype Outcome = Pass | Fail(error: Failure)
}
