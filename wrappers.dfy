/** Option and Result, as used throughout the model for nullable inputs and rejected requests. */
module Wrappers {

  /** `None` stands for a missing value; for a parsed number it stands for NaN. */
  datatype Option<+T> = None | Some(value: T)

  /** The outcome of a request that may be refused before anything is written. */
  datatype Result<+R, +E> = Success(value: R) | Failure(error: E)
}
