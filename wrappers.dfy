/** Optional values and results shared by the parser and the tree builder. */
module Wrappers {

  /** A value that may be absent: Python's `x | None`. */
  datatype Option<+T> = None | Some(value: T)

  /** Either a result or the `ValueError` the tree builder raises instead. */
  datatype Result<+T, +E> = Ok(value: T) | Err(error: E)
}
