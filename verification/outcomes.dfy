/** Optional values (Python's `None`) and results that carry an error
    (a Python exception that the plotting routine lets escape). */
module Outcomes {

  datatype Option<T> = None | Some(value: T) {
    /** The value, or `default` when absent (`x if x is not None else default`). */
    function GetOr(default: T): T {
      match this
      case Some(v) => v
      case None => default
    }
  }

  datatype Result<T, E> = Ok(value: T) | Err(error: E)
}
