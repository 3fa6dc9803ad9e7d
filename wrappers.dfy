/** Option, Result and Outcome: the error paths of the model (an absent request
    field, a failed database statement) as values instead of exceptions. */
module Wrappers {

  datatype Option<+T> = None | Some(value: T)

  datatype Result<+R, +E> = Ok(value: R) | Err(error: E)

  /** The outcome of a statement that returns nothing on success. */
  datatype Outcome<+E> = Pass | Fail(error: E)
}
