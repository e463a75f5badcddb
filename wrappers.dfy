/** Option and Result, for nullable columns and for accessors that can fail. */
module Wrappers {

  /** `None` stands for the driver's null pointer. */
  datatype Option<+T> = None | Some(value: T)

  /** The outcome of an accessor that throws in the source. */
  datatype Result<+R, +E> = Success(value: R) | Failure(error: E)
}
