/** Option and Result values used for the source's absent values and thrown errors. */
module Wrappers {

  datatype Option<+T> = None | Some(value: T)

  /** `Err` stands for an exception thrown out of an operation. */
  datatype Result<+T, +E> = Ok(value: T) | Err(error: E)
}
