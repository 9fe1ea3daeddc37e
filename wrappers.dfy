/** Option and Result, used for values that may be absent and for operations that can throw. */
module Wrappers {

  datatype Option<+T> = None | Some(value: T)

  /** `Err` stands for an exception thrown by the modelled JavaScript code. */
  datatype Result<+T, +E> = Ok(value: T) | Err(error: E)
}
