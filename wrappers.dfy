/** Optional values, used wherever the source returns `Option` or panics on a missing value. */
module Wrappers {
  datatype Option<+T> = None | Some(value: T)
  {
    predicate IsSome() { Some? }

    function UnwrapOr(default: T): T
    {
      match this
      case Some(v) => v
      case None => default
    }
  }
}
