/** An optional value, used wherever the program has `null`, `undefined`
    or an early `return` with no result. */
module Wrappers {

  /** `None` stands for an absent value; `Some(v)` for a present one. */
  datatype Option<+T> = None | Some(value: T) {

    /** The wrapped value, or `default` when absent, as a JavaScript default
        parameter value replaces an `undefined` argument. */
    function GetOr(default: T): T {
      match this
      case Some(v) => v
      case None => default
    }
  }
}
