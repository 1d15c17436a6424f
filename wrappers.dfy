/** Option and Result, the stock failure-carrying datatypes of the model. */
module Wrappers {

  datatype Option<+T> = None | Some(value: T)

  /** What a top-level operation of the file service returns: a value, or the
      error the service raises instead of it. */
  datatype Result<+T, +E> = Success(value: T) | Failure(error: E)
}
