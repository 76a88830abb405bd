/** The `Option` and `Result` types shared by the modules of this project. */
module Wrappers {

  /** A value that may be absent; stands for a nullable reference or `T?`. */
  datatype Option<+T> = None | Some(value: T)

  /** Either a value or the error that the source reports by throwing. */
  datatype Result<+T, +E> = Success(value: T) | Failure(error: E)
}
