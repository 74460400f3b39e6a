/** Failure-carrying values used wherever the program either produces a
    value or raises / returns None. */
module Wrappers {

  /** Python's `None` or a present value. */
  datatype Option<+T> = None | Some(value: T)

  /** The outcome of a call into an external service: a value, or the
      text of the exception it raised (`str(e)`). */
  datatype Result<+T> = Success(value: T) | Failure(error: string)
}
