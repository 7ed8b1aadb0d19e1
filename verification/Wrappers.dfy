/** Failure-compatible result types shared by every module of the model. */
module Wrappers {

  datatype Option<+T> = None | Some(value: T)

  datatype Result<+T, +E> = Ok(value: T) | Err(error: E)

  /** The largest machine word. */
  const USIZE_MAX: nat := 0xFFFF_FFFF_FFFF_FFFF
}
