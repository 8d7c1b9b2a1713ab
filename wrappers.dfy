/** Option and Result values standing in for JavaScript's `null`/`undefined`
    results and for the exceptions the scripts let escape. */
module Wrappers {

  datatype Option<+T> = None | Some(value: T)

  datatype Result<+R, +E> = Success(value: R) | Failure(error: E)
}
