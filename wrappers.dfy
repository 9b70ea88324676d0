/** The optional value used throughout the model: Python's `None` and
    JavaScript's `undefined` for a value that may be missing. */
module Wrappers {

  datatype Option<+T> = None | Some(value: T) {

    /** The value, or `default` when there is none (Python's `x or default`
        for values that are never falsy themselves). */
    function GetOr(default: T): T {
      match this
      case Some(v) => v
      case None => default
    }
  }
}
