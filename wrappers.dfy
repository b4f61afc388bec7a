/** The optional-value datatype shared by the two components. */
module Wrappers {

  /** A value that may be absent: a missing argument, a nil pointer, an undefined prop. */
  datatype Option<+T> = None | Some(value: T) {

    /** The value, or `default` when it is absent. */
    function GetOr(default: T): T {
      match this
      case Some(v) => v
      case None => default
    }
  }
}
