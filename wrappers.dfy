/** Optional values and results with an error payload, used wherever the
 *  repository returns std::optional or throws. */
module Wrappers {
  datatype Option<T> = None | Some(value: T)

  datatype Result<T, E> = Ok(value: T) | Err(error: E)
}
