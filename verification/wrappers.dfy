/**
 * Optional values (Python's `None` and the "not found" results of the
 * services) and call results that may end in an escaping exception.
 */
module Wrappers {
  datatype Option<T> = None | Some(value: T)
  {
    predicate IsSome() { this.Some? }

    function GetOr(default: T): (r: T)
      ensures this.Some? ==> r == value
      ensures this.None? ==> r == default
    {
      match this
      case Some(v) => v
      case None => default
    }
  }

  /** A call that returned a value, or one from which an exception escaped. */
  datatype Result<T> = Success(value: T) | Failure
}
