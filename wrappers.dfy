/** Option and Result: the model's stand-ins for JavaScript's `undefined`
    and for a thrown error. */
module Wrappers {

  datatype Option<+T> = None | Some(value: T)

  datatype Result<+R, +E> = Success(value: R) | Failure(error: E)
}
