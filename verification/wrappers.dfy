/** Optional values (pandas' missing value) and results (Python exceptions). */
module Wrappers {

  /** A cell that may be missing: None stands for pandas' NaN. */
  datatype Option<+T> = None | Some(value: T)

  /** The outcome of an operation that may raise. */
  datatype Result<+T, +E> = Ok(value: T) | Err(error: E)
}
