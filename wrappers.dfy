/** Optional and failure-carrying values used by the list's operations. */
module Wrappers {

  /** "No result": a search that matched nothing, distinct from an error. */
  datatype Option<+T> = None | Some(value: T)

  /** The outcome of an operation that can fail with an error of type E. */
  datatype Result<+T, +E> = Ok(value: T) | Err(error: E)
}
