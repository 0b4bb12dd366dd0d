/** A JavaScript value that may be `null` or `undefined`.
    Every use the calculator makes of such a value (`== null`, `=== "0"`, `||`, `parseFloat`,
    the `switch` on the operation, or a method call on it) treats `null` and `undefined`
    alike, so both are `None`. */
module Optional {

  datatype Option<+T> = None | Some(value: T) {

    /** `x || default` for a string `x` that is either absent or present. */
    function GetOr(default: T): T {
      match this
      case Some(v) => v
      case None => default
    }
  }
}
