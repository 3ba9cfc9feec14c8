/** Optional values: Python's `Optional[T]`, where `None` means "not given". */
module Wrappers {

  datatype Option<+T> = None | Some(value: T) {

    /** The value if one was given, else the default (`x if x is not None else d`). */
    function GetOr(default: T): T {
      match this
      case Some(v) => v
      case None => default
    }
  }
}
