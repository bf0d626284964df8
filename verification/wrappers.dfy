/** Wrappers shared by the model: `Option` stands for a reference that may be
    null, `Result` for a call that either returns a value or raises an
    exception. */
module Wrappers {

  datatype Option<+T> = None | Some(value: T)

  datatype Result<+T, +E> = Success(value: T) | Failure(error: E)
}
