/** Option and Result, the model's stand-ins for Go's nil pointers and (value, error) pairs. */
module Wrappers {

  /** A nullable value: `*int` fields such as Prev and Next, or an `error` that may be nil. */
  datatype Option<+T> = None | Some(value: T)

  /** An operation that either produced a value or failed with an error. */
  datatype Result<+T, +E> = Success(value: T) | Failure(error: E)
}
