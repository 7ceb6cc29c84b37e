/** Small shared vocabulary: optional values, results with an error, bytes. */
module Common {

  datatype Option<+T> = None | Some(value: T)

  datatype Result<+T, +E> = Success(value: T) | Failure(error: E)

  /** One octet of a Python 2 byte string. */
  type Byte = x: int | 0 <= x < 256
}
