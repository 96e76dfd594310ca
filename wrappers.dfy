/** The Option type used throughout the model: `None` stands for JavaScript's
    `undefined` (a missing property or a missing request field). */
module Wrappers {

  datatype Option<+T> = None | Some(value: T) {

    /** `x ?? default`: the value if present, else the default. */
    function GetOr(default: T): T {
      match this
      case Some(v) => v
      case None => default
    }
  }
}
