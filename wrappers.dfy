/** Optional values and fallible results shared by every module of the model. */
module Wrappers {
  /** A value that may be absent (a JavaScript `undefined` or a Python `None`). */
  datatype Option<T> = None | Some(value: T)
  {
    predicate IsSome() { this.Some? }

    function GetOr(default: T): (r: T)
      ensures this.Some? ==> r == this.value
      ensures this.None? ==> r == default
    {
      match this
      case Some(v) => v
      case None => default
    }
  }

  /** The outcome of an operation that may throw: a value, or the error message it throws. */
  datatype Result<T> = Ok(value: T) | Err(error: string)
  {
    predicate IsFailure() { this.Err? }
  }
}
