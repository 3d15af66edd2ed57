/** Failure-carrying result types shared by the cipher and the file codec. */
module Wrappers {

  /** An absent or present value; `None` stands for a NULL pointer result. */
  datatype Option<+T> = None | Some(value: T)

  /** Either a value or the reason the operation was abandoned. */
  datatype Result<+R, +E> = Success(value: R) | Failure(error: E)
}
