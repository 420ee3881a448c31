/** Small failure-carrying datatypes shared by the modules of this project. */
module Wrappers {

  /** A value that may be absent (Python's `None`). */
  datatype Option<+T> = None | Some(value: T)

  /** Either a computed value or the error that stopped the computation. */
  datatype Result<+R, +E> = Ok(value: R) | Err(error: E)

  /** Success or the error that stopped a state-changing step. */
  datatype Outcome<+E> = Pass | Fail(error: E)
}
