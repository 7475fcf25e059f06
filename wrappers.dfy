/** Option and Result, used for JavaScript's undefined/null/NaN and for thrown or reported errors. */
module Wrappers {

  datatype Option<+T> = None | Some(value: T)

  datatype Result<+T, +E> = Success(value: T) | Failure(error: E)
}
