/** Option and Result datatypes: a missing dictionary key, and an operation that raises. */
module Wrappers {

  datatype Option<+T> = None | Some(value: T) {

    /** The value, or `default` when absent (Python's `d.get(key, default)`). */
    function GetOr(default: T): T {
      match this
      case Some(v) => v
      case None => default
    }
  }

  /** The outcome of an operation that can raise: `Err` carries the exception's name. */
  datatype Result<+T> = Ok(value: T) | Err(error: string)
}
