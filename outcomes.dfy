/** Failure-carrying wrappers used in place of Python exceptions. */
module Outcomes {

  datatype Option<+T> = None | Some(value: T)

  /** A computation that either produced a value or raised an error. */
  datatype Result<+T, +E> = Ok(value: T) | Err(error: E)

  /** A computation run for its effect that either completed or raised an error. */
  datatype Outcome<+E> = Pass | Fail(error: E)
}
