/** Failure-compatible wrappers used by the validators and the server actions. */
module Wrappers {

  datatype Option<+T> = None | Some(value: T)

  /** The outcome of an action that either returns a value or throws an error. */
  datatype Result<+R, +E> = Ok(value: R) | Err(error: E)
}
