/** Optional values: PHP `null` and JavaScript `null`/`undefined`. */
module Wrappers {

  datatype Option<T> = None | Some(value: T) {

    /** The value, or `default` when absent (PHP `??`, JavaScript `??`). */
    function GetOr(default: T): T {
      match this
      case Some(v) => v
      case None => default
    }
  }
}
