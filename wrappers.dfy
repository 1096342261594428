/** Option and Result datatypes shared by the modules. */
module Wrappers {

  /** A value that may be absent: an undefined (NaN) cell, a missing sampler. */
  datatype Option<+T> = None | Some(value: T)

  /** The outcome of an operation that raises in the original program. */
  datatype Result<+T, +E> = Success(value: T) | Failure(error: E)
}
