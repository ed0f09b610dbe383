/** Small failure-carrying datatypes shared by the rest of the model. */
module Outcomes {

  /** A value that may be absent. Foreign library calls return `None` when they raise. */
  datatype Option<+T> = None | Some(value: T)

  /** Either a successful value or an error value. */
  datatype Result<+T, +E> = Success(value: T) | Failure(error: E)
}
