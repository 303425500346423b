/** Small helper datatypes shared by the other modules. */
module Wrappers {

  /** A value that may be missing (JavaScript's `null`/`undefined`). */
  datatype Option<+T> = None | Some(value: T) {
    function GetOr(default: T): T {
      match this
      case Some(v) => v
      case None => default
    }
  }
}
