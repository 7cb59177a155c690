/** Failure-carrying datatypes shared by every module of the model. */
module Wrappers {

  /** An optional value: the model's rendering of a null pointer or a null `AnyPoly`. */
  datatype Option<+T> = None | Some(value: T)

  /** A value, or the `what()` text of the C++ exception that replaced it. */
  datatype Result<+T> = Ok(value: T) | Err(message: string)

  /** A check that either passes or fails with a message (a `void` function that may throw). */
  datatype Outcome = Pass | Fail(message: string)
}
