/** Optional values and the Python exceptions that the modelled code lets escape. */
module Outcomes {

  datatype Option<+T> = None | Some(value: T) {
    /** The contained value, or `default` when absent (Python's `d.get(k, default)`). */
    function GetOr(default: T): T {
      match this
      case Some(v) => v
      case None => default
    }
  }

  /** The exceptions that escape from the modelled operations to their callers. */
  datatype PyError =
    | FileNotFoundError(message: string)
    | ValueError(message: string)

  /** Either the value a Python function returned or the exception it raised. */
  datatype Outcome<+T> = Returned(value: T) | Raised(error: PyError)
}
