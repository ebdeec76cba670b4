/** The optional value used for SQL NULLs, absent query rows and absent arguments. */
module Wrappers {
  datatype Option<T> = None | Some(value: T) {
    /** The value, or `default` when absent (SQL `COALESCE`, Python `x if x else d`). */
    function GetOr(default: T): T {
      match this
      case Some(v) => v
      case None => default
    }
  }
}
