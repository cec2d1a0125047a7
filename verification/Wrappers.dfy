/** A value that may be absent. */
module Wrappers {
  datatype Option<+T> = None | Some(value: T) {
    function GetOr(default: T): (r: T)
      ensures this == Some(r) || (this.None? && r == default)
    {
      match this
      case Some(v) => v
      case None => default
    }
  }
}
