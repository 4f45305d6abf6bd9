/** Types shared by every model in this project. */
module Basics {

  /** Python `bytes` are sequences of octets; every path, payload and credential is one. */
  type byte = x: int | 0 <= x < 256

  type Bytes = seq<byte>

  /** A lowercase hexadecimal SHA-256 digest. */
  type Digest = string

  datatype Option<+T> = None | Some(value: T)

  datatype Result<+T, +E> = Ok(value: T) | Err(error: E)
}
