/** Small failure-carrying datatype shared by every module of the model. */
module Wrappers {

  /** `None` stands for Python's `None` (or an absent value); `Some(v)` for a present one. */
  datatype Option<+T> = None | Some(value: T) {

    /** The value, or `default` when absent (Python's `d.get(k, default)` on one key). */
    function GetOr(default: T): T
    {
      match this
      case Some(v) => v
      case None => default
    }
  }
}
