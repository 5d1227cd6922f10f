/** Go's byte, and strings as the byte sequences they are. */
module ByteStrings {
  type Byte = x: int | 0 <= x < 256

  type Bytes = seq<Byte>
}
