/** Bytes, and text as the sequence of its bytes. */
module Octets {
  type Byte = n: int | 0 <= n < 256
  type Bytes = seq<Byte>

  /** The bytes of a text in ASCII. */
  function Ascii(s: string): Bytes {
    seq(|s|, i requires 0 <= i < |s| => if s[i] as int < 128 then s[i] as int else 63)
  }

  lemma Regroup(a: Bytes, b: Bytes, c: Bytes)
    ensures (a + b) + c == a + (b + c)
  {
  }
}
