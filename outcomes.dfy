/** Values returned by the libraries and services the pipeline calls. */
module Outcomes {

  /** A value that may be absent (Python's `None`). */
  datatype Option<+T> = None | Some(value: T) {
    function GetOr(default: T): T {
      match this
      case Some(v) => v
      case None => default
    }
  }

  /** The outcome of one call into a library the model cannot see: it either raised
      an exception, whose `str()` is `message`, or returned a value. */
  datatype Attempt<+T> = Raised(message: string) | Done(value: T)
}
