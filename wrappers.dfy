/** An optional value: Python's `None` or a present value. */
module Wrappers {

  datatype Option<T> = None | Some(value: T) {

    /** The present value, or `default` when there is none. */
    function GetOr(default: T): T {
      match this
      case Some(v) => v
      case None => default
    }
  }
}
