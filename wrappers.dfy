/** Optional values (a C# nullable) and results that are either a value or the exception
    the C# code would have thrown. */
module Wrappers {

  datatype Option<+T> = None | Some(value: T)

  datatype Result<+T, +E> = Success(value: T) | Failure(error: E)
}
