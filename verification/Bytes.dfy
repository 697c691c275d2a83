/** Octets, and the payloads made of them. */
module Bytes {
  newtype Byte = x: int | 0 <= x < 256
  type Payload = seq<Byte>
}
