/** Option and Result, the two failure-carrying shapes the model needs. */
module Wrappers {

  /** A value that may be absent; `None` stands for Go's nil. */
  datatype Option<+T> = None | Some(value: T)

  /** The outcome of the user operation: a value, or the error it returned. */
  datatype Result<+T, +E> = Ok(value: T) | Err(error: E)
}
