/** The optional value the C code expresses with NULL pointers. */
module Wrappers {

  /** A present value or nothing, in place of a possibly-NULL pointer. */
  datatype Option<+T> = None | Some(value: T) {

    /** The value if present, otherwise the given default. */
    function GetOr(default: T): T {
      match this
      case Some(v) => v
      case None => default
    }
  }
}
