/** Option and Result: a regex group that may not participate, and an
    exception that aborts a computation. */
module Wrappers {

  datatype Option<+T> = None | Some(value: T)

  datatype Result<+R, +E> = Ok(value: R) | Err(error: E)
}
