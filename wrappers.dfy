/** The optional value used wherever the loader returns `None`. */
module Wrappers {
  datatype Option<T> = None | Some(value: T) {
    /** Python's `x or default` on an optional value. */
    function GetOr(default: T): T {
      if Some? then value else default
    }
  }
}
