/** Failure-compatible result types used across the model. */
module Wrappers {

  /** A value that may be absent: Python's `None` versus a present value. */
  datatype Option<+T> = None | Some(value: T) {

    /** The present value, or `default` when absent. */
    function GetOr(default: T): T
    {
      match this
      case Some(v) => v
      case None => default
    }
  }

  /** Either a successful value or an error, for operations that reject their input. */
  datatype Result<+R, +E> = Success(value: R) | Failure(error: E)
}
