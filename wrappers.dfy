/** Option, used where the JavaScript has `undefined`, `null` or `NaN`
    instead of a value. */
module Wrappers {

  datatype Option<+T> = None | Some(value: T) {
    function GetOr(default: T): T {
      match this
      case Some(v) => v
      case None => default
    }
  }
}
