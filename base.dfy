/** Option and Result, the shapes in which the model reports absent values and failures. */
module Wrappers {

  datatype Option<+T> = None | Some(value: T)

  datatype Result<+T, +E> = Success(value: T) | Failure(error: E)
}

/** Raw bytes, as Go's `[]byte` slices hold them. */
module Bytes {

  newtype byte = x: int | 0 <= x < 256
}
