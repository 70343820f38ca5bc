/** Optional values: the model's stand-in for Go's nil pointers and nil slices. */
module Wrappers {

  datatype Option<+T> = None | Some(value: T)
  {
    /** The value, or `fallback` when there is none. */
    function GetOr(fallback: T): T {
      match this
      case Some(v) => v
      case None => fallback
    }
  }
}
