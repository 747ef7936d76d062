/** Bytes, little-endian words and the slices a Node `Buffer` gives. */
module Octets {

  type byte = n: int | 0 <= n < 256

  type Bytes = seq<byte>

  const WORD := 0x1_0000_0000

  type uint32 = n: int | 0 <= n < WORD

  /** `Buffer.subarray(lo, hi)`: both ends are clamped to the buffer. */
  function Slice(b: Bytes, lo: nat, hi: nat): Bytes {
    var end := if hi <= |b| then hi else |b|;
    if lo <= end then b[lo..end] else []
  }

  /** What is left of `b` behind a cursor that may have run past the end. */
  function From(b: Bytes, at: nat): Bytes {
    if at <= |b| then b[at..] else []
  }

  function Le16(n: nat): Bytes {
    [n % 256, n / 256 % 256]
  }

  function Le32(n: nat): Bytes {
    [n % 256, n / 256 % 256, n / 65536 % 256, n / 16777216 % 256]
  }

  function ReadLe16(b: Bytes, at: nat): nat
    requires at + 2 <= |b|
  {
    b[at] as int + 256 * b[at + 1] as int
  }

  function ReadLe32(b: Bytes, at: nat): uint32
    requires at + 4 <= |b|
  {
    b[at] as int + 256 * b[at + 1] as int + 65536 * b[at + 2] as int + 16777216 * b[at + 3] as int
  }

  /** The four bytes of a word that fits are its digits. */
  lemma DigitsOf(n: uint32)
    ensures n % 256 + 256 * (n / 256 % 256) + 65536 * (n / 65536 % 256) + 16777216 * (n / 16777216 % 256) == n
  {
    assert n / 65536 == n / 256 / 256;
    assert n / 16777216 == n / 65536 / 256;
    assert n / 16777216 < 256;
  }
}
