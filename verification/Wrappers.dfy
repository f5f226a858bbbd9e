/** Optional values and service outcomes shared by every component. */
module Wrappers {

  datatype Option<+T> = None | Some(value: T)

  /** A service either answers or refuses; a refused service changes nothing. */
  datatype Result<+T, +E> = Success(value: T) | Failure(error: E)
}
