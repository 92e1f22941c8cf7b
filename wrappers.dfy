/** Option, the model's stand-in for a JavaScript value that may be
    `null`/`undefined` (a missing JSON key, a missing query parameter). */
module Wrappers {

  datatype Option<+T> = None | Some(value: T) {

    /** The value, or `default` when absent (JavaScript's `??`). */
    function GetOr(default: T): T {
      match this
      case Some(v) => v
      case None => default
    }
  }
}
