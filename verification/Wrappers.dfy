/** Failure, absence and user identity, shared by every component of the model. */
module Wrappers {
  type UserId = string

  datatype Option<+T> = None | Some(value: T)

  datatype Result<+R, +E> = Success(value: R) | Failure(error: E)
}
