/** Octets, as the byte-oriented components see them. */
module Bytes {
  type byte = x: int | 0 <= x < 256
}
