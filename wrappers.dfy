/** The optional-value and result types shared by the roster model. */
module Wrappers {

  datatype Option<+T> = None | Some(value: T)

  /** Either a value or an error; stands for a Python exception on the error side. */
  datatype Result<+T, +E> = Success(value: T) | Failure(error: E)
}
