/** Vocabulary shared by every module: octets, fixed-length octet strings and
    the two failure-carrying datatypes. */
module Basics {

  type byte = x: int | 0 <= x < 256

  type Bytes = seq<byte>

  type Bytes10 = b: Bytes | |b| == 10 witness seq(10, _ => 0)

  type Bytes16 = b: Bytes | |b| == 16 witness seq(16, _ => 0)

  datatype Option<+T> = None | Some(value: T)

  datatype Result<+T, +E> = Ok(value: T) | Err(error: E)
}
