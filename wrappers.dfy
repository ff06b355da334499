/** Optional values and results with an error, as the library code returns them
    (`null` for a missing value, a thrown error for a failed call). */
module Wrappers {

  datatype Option<+T> = None | Some(value: T)

  datatype Result<+T> = Success(value: T) | Failure
}
