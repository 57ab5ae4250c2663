/** Failure-compatible result types shared by the whole model. */
module Wrappers {

  datatype Option<+T> = None | Some(value: T)

  /** The outcome of an instruction: `Ok` with its value, or `Err` with the reason it aborted. */
  datatype Result<+T, +E> = Ok(value: T) | Err(error: E)
}
