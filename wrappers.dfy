/** Failure-carrying results used throughout the model: a Python exception
    raised by the source becomes a `Failure`, a Python `None` a `None`. */
module Wrappers {

  datatype Option<+T> = None | Some(value: T)

  datatype Result<+R, +E> = Success(value: R) | Failure(error: E)
}
