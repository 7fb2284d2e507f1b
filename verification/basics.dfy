/** Small shared vocabulary: bytes and the failure-carrying datatypes used across the model. */
module Basics {

  /** One octet, as Python's `bytes` elements are. */
  type byte = b: int | 0 <= b < 256

  datatype Option<+T> = None | Some(value: T)

  /** The outcome of an operation that Python would abort with an exception. */
  datatype Result<+T, +E> = Success(value: T) | Failure(error: E)
}
