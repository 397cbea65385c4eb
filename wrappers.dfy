/** Option and Result values used across the model: a JSON `null` or a
    failed parse is `None`, an aborted run is a `Failure`. */
module Wrappers {

  datatype Option<+T> = None | Some(value: T)

  datatype Result<+R, +E> = Success(value: R) | Failure(error: E)
}
