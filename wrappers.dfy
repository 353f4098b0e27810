/** The Option type used wherever the source has a value that may be `undefined` or `null`. */
module Wrappers {
  datatype Option<T> = None | Some(value: T) {
    /** The value, or `default` when absent (the source's `x ?? default`). */
    function GetOr(default: T): T {
      if Some? then value else default
    }
  }
}
