/** An optional value: JavaScript's `undefined`/`null` on one side, a present value on the other. */
module Options {
  datatype Option<+T> = None | Some(value: T) {
    /** The value if present, `default` otherwise (the `x || default` fallback of the source). */
    function GetOr(default: T): T {
      match this
      case Some(v) => v
      case None => default
    }
  }
}
