/** Option and Result values shared by the modules of this model. */
module Wrappers {

  /** A value that may be absent: the model of a nullable pointer to a value. */
  datatype Option<+T> = None | Some(value: T)

  /** The outcome of an operation that can fail. */
  datatype Result<+T, +E> = Ok(value: T) | Err(error: E)
}
