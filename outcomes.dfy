/** Optional values and results, standing in for Python's `None` defaults
    and raised exceptions. */
module Outcomes {

  datatype Option<T> = None | Some(value: T) {
    function GetOr(default: T): T
    {
      match this
      case Some(v) => v
      case None => default
    }
  }

  datatype Result<T, E> = Success(value: T) | Failure(error: E)
}
