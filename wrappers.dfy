/** Option and Result values for the outcomes the Lambda script signals by
    returning None or by raising an exception. */
module Wrappers {

  datatype Option<+T> = None | Some(value: T)

  datatype Result<+R, +E> = Success(value: R) | Failure(error: E)
}
