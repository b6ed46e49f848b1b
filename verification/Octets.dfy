/** Bytes, and numbers stored in them. */
module Octets {

  type Byte = b: nat | b < 256

  lemma LenByte(n: nat)
    requires n <= 32
    ensures (n as bv8) as nat == n
  {}
}
