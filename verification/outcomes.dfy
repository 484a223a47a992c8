/** Option and Result values used in place of Python's `None` defaults and
    raised exceptions. */
module Outcomes {

  /** A value that may be absent (a missing key in a YAML mapping). */
  datatype Option<+T> = None | Some(value: T)

  /** Either a value or the error that the Python code would raise. */
  datatype Result<+T, +E> = Success(value: T) | Failure(error: E)
}
