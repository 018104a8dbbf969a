/** Optional values and outcomes that may fail. */
module Wrappers {
  datatype Option<+T> = None | Some(value: T)

  datatype Result<+T, +E> = Ok(value: T) | Err(error: E)

  function Map<A, B, E>(r: Result<A, E>, f: A -> B): Result<B, E> {
    match r
    case Err(e) => Err(e)
    case Ok(a) => Ok(f(a))
  }
}
