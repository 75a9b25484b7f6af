/** Bytes, as packets, buffers and blocks hold them. */
module Bytes {
  type Byte = b: int | 0 <= b < 256
}
