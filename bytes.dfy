/** Octets, as held by a Node `Buffer`. */
module Bytes {
  type Byte = b: int | 0 <= b < 256
}
