/** Failure-compatible wrappers used for the script's thrown errors and for
    calls into the chain that may fail. */
module Wrappers {
  datatype Option<+T> = None | Some(value: T)

  datatype Result<+R, +E> = Ok(value: R) | Err(error: E)
}
