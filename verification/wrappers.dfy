/** Optional values and results with an error, the two wrappers the model needs:
    a spreadsheet cell that may be empty, and a template substitution that may fail. */
module Wrappers {

  datatype Option<+T> = None | Some(value: T)

  datatype Result<+R, +E> = Success(value: R) | Failure(error: E)
}
