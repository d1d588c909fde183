/** Optional values and error-carrying results, standing for C#'s nullable
    references and for the exceptions the program throws. */
module Wrappers {

  datatype Option<+T> = None | Some(value: T)

  datatype Result<+T, +E> = Success(value: T) | Failure(error: E)
}
