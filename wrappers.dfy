/** Failure-compatible result types used where the Python code catches an exception or looks up an optional value. */
module Wrappers {

  datatype Option<+T> = None | Some(value: T)

  /** The outcome of a call into a collaborator: its value, or the text of the exception it raised (`str(e)`). */
  datatype Result<+T, +E> = Success(value: T) | Failure(error: E)
}
