/** Optional values: the model's stand-in for Kotlin's nullable types and
    JavaScript's missing properties. */
module Wrappers {

  datatype Option<+T> = None | Some(value: T) {

    /** Kotlin's `x ?: default`. */
    function GetOr(default: T): T {
      match this
      case Some(v) => v
      case None => default
    }
  }
}
