/** Failure-carrying result type used for the operations that can reject their input. */
module Wrappers {

  /** Either the computed value or the reason the input was rejected. */
  datatype Result<+R, +E> = Success(value: R) | Failure(error: E)
}
