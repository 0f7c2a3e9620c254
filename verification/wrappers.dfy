/** Failure-compatible wrappers shared by every module of the model.
    - Option<T> stands for a value that may be absent (Python None, JavaScript undefined).
    - Result<T, E> stands for an operation that either returns a value or raises/reports an error.
 */
module Wrappers {

  datatype Option<+T> = None | Some(value: T) {

    /** The contained value, or `default` when absent. */
    function GetOr(default: T): T {
      match this
      case Some(v) => v
      case None => default
    }
  }

  datatype Result<+T, +E> = Ok(value: T) | Err(error: E)
}
