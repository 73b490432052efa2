/** Option and Result values shared by the modules of this model. */
module Wrappers {

  /** The `Option<T>` of the source: a value or nothing. */
  datatype Option<+T> = None | Some(value: T)

  /** The `Result<T, E>` of the source: a value or an error. */
  datatype Result<+T, +E> = Ok(value: T) | Err(error: E)
}
