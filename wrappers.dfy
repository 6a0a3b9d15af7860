/** The optional value used wherever the JavaScript source uses `null`,
    `undefined` or `NaN` for "no value". */
module Wrappers {
  datatype Option<+T> = None | Some(value: T) {
    function GetOr(default: T): T {
      match this
      case Some(v) => v
      case None => default
    }
  }
}
