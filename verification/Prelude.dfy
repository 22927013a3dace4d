/** Shared value types. */
module Prelude {

  datatype Option<+T> = None | Some(value: T) {
    function GetOr(default: T): T {
      match this
      case Some(v) => v
      case None => default
    }

    /** The first present value, as the source's `a or b` on optionals. */
    function Or(other: Option<T>): Option<T> {
      if Some? then this else other
    }
  }

  function Max(a: real, b: real): real {
    if a < b then b else a
  }

  function MaxNat(a: nat, b: nat): nat {
    if a < b then b else a
  }
}
