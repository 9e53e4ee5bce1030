/** The Option and Result datatypes shared by the box-model modules. */
module Wrappers {

  /** An optional value; `None` plays the part of Python's `None`. */
  datatype Option<+T> = None | Some(value: T)

  /** The outcome of an operation that can raise instead of returning. */
  datatype Result<+R, +E> = Success(value: R) | Failure(error: E)
}
