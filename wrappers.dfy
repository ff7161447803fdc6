/** Option and Result, the two shapes a JavaScript value takes in this model:
    a value that may be `undefined`/`null`, and a promise that resolves or rejects. */
module Wrappers {

  datatype Option<+T> = None | Some(value: T)

  /** Success is a resolved promise; Failure a rejected one carrying the error's message. */
  datatype Result<+R, +E> = Success(value: R) | Failure(error: E)
}
