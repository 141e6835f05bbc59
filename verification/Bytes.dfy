/** Byte strings, and the body of an HTTP request as a handler finds it. */
module Bytes {
  newtype byte = x: int | 0 <= x < 256
  type Bytes = seq<byte>

  datatype RequestBody = Missing | Unreadable | Data(data: Bytes)
}
