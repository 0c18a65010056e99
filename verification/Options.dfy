/** The two result shapes used throughout: a value that may be missing, and a computation that may fail. */
module Options {

  datatype Option<+T> = None | Some(value: T)

  datatype Result<+T, +E> = Success(value: T) | Failure(error: E)
}
