/** Types shared by the other modules. */
module Basics {
  datatype Option<+T> = None | Some(value: T)

  type Byte = x: int | 0 <= x < 256
  type Bytes = seq<Byte>

  datatype Result<+T, +E> = Success(value: T) | Failure(error: E)
}
