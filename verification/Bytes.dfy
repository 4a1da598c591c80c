/** Bytes. */
module Bytes {
  type byte = b: nat | b < 256
}
