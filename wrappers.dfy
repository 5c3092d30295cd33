/** Option and Result, used for missing values and for the error paths of the pipeline. */
module Wrappers {

  /** A value that may be absent, such as an empty CustomerID cell. */
  datatype Option<+T> = None | Some(value: T)

  /** The outcome of a stage that can fail. */
  datatype Result<+T, +E> = Ok(value: T) | Err(error: E)
}
