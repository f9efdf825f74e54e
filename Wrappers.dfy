/** The Option datatype used for PHP values that may be unset (`isset()` false). */
module Wrappers {

  datatype Option<+T> = None | Some(value: T) {

    /** The value, or `default` when unset; PHP's `isset($x) ? $x : $default`. */
    function GetOr(default: T): T {
      match this
      case Some(v) => v
      case None => default
    }
  }
}
