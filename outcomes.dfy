/** Option and Result, the shapes in which Go's `error` returns and
    `(value, error)` pairs are written in this model. */
module Outcomes {

  /** `None` stands for a nil error or a nil pointer. */
  datatype Option<+T> = None | Some(value: T)

  /** A call that either produced a value or failed with an error. */
  datatype Result<+R, +E> = Success(value: R) | Failure(error: E)
}
