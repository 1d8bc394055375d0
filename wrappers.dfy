/** Failure-carrying values shared by every module: Python's `None` and its
    raised exceptions become explicit data here. */
module Wrappers {

  datatype Option<+T> = None | Some(value: T)

  datatype Result<+T, +E> = Success(value: T) | Failure(error: E)
}
