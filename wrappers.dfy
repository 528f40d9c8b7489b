/** Option and Result: JavaScript's `null`/`undefined` and the `{ success, error }` results of the server. */
module Wrappers {

  datatype Option<+T> = None | Some(value: T)

  datatype Result<+T, +E> = Success(value: T) | Failure(error: E)
}
