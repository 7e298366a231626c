/** Optional values and success-or-failure results, used by every other module. */
module Wrappers {
  datatype Option<T> = None | Some(value: T)
  {
    function UnwrapOr(default: T): T
    {
      match this
      case Some(v) => v
      case None => default
    }
  }

  datatype Result<T, E> = Success(value: T) | Failure(error: E)
  {
    predicate IsFailure() { Failure? }
  }

  /** The outcome of an operation that either completes or throws. */
  datatype Outcome<E> = Pass | Fail(error: E)
}
