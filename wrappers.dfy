/** Option and Result values shared by the other modules. */
module Wrappers {

  datatype Option<+T> = None | Some(value: T)

  /** The outcome of an operation that raises an exception in the modelled program. */
  datatype Result<+T, +E> = Ok(value: T) | Err(error: E)
}
