/** Wrappers used throughout the model.
    `Option` is the result of a table lookup that may miss; `Result` carries
    the value of a computation or the error that aborted it. */
module Wrappers {

  datatype Option<+T> = None | Some(value: T)

  datatype Result<+R, +E> = Success(value: R) | Failure(error: E)
}
