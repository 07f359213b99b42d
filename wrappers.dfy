/** Option and Result, the two failure-carrying shapes the model uses for
    values that may be absent and for operations that may fail. */
module Wrappers {

  datatype Option<+T> = None | Some(value: T)

  datatype Result<+T, +E> = Ok(value: T) | Err(error: E)
}
