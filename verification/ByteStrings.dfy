/** Strings of bytes, shared by the parsers of Git's files. */
module ByteStrings {
  type byte = b: int | 0 <= b < 256
  type Bytes = seq<byte>

  const NUL: byte := 0
}
