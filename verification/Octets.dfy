// Raw bytes, as files and connections carry them.
module Octets {
  newtype Byte = b: int | 0 <= b < 256
  type Bytes = seq<Byte>
}
