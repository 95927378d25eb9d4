/** Go's `byte`. */
module Bytes {

  newtype byte = x: int | 0 <= x < 0x100
}
