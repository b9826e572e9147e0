/** The optional-value datatype used for nullable columns and absent fields. */
module Wrappers {

  /** `None` stands for a JavaScript `null`/`undefined`, `Some(v)` for a present value. */
  datatype Option<+T> = None | Some(value: T) {

    /** The wrapped value, or `default` when there is none. */
    function GetOr(default: T): T {
      match this
      case Some(v) => v
      case None => default
    }
  }
}
