/** Optional values and results with an error, as the Swift code uses `T?` and `throws`. */
module Wrappers {

  datatype Option<T> = None | Some(value: T)

  datatype Result<T, E> = Ok(value: T) | Err(error: E)
}
