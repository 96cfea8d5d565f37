/** Optional values: `None` stands for JavaScript's NaN, null or undefined where the
    source tests a value before using it. */
module Wrappers {

  datatype Option<+T> = None | Some(value: T) {

    /** The value, or `default` when there is none (JavaScript's `x || default` for a
        value that is never a falsy number). */
    function GetOr(default: T): T {
      match this
      case Some(v) => v
      case None => default
    }
  }
}
