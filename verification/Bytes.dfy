/** Octets, 16-bit words and the concatenation of byte strings. */
module Bytes {
  type byte = x: int | 0 <= x < 0x100
  type u16 = x: int | 0 <= x < 0x1_0000
  type bytes = seq<byte>

  /** The number of values a 32-bit unsigned integer can hold. */
  const U32 := 0x1_0000_0000

  /** The two octets of a word, most significant first. */
  function WordBytes(v: u16): (s: bytes)
    ensures |s| == 2
  {
    [v / 256, v % 256]
  }

  function Word(hi: byte, lo: byte): u16 {
    hi * 256 + lo
  }

  function Flatten(parts: seq<bytes>): bytes {
    if parts == [] then [] else parts[0] + Flatten(parts[1..])
  }

  lemma FlattenCons(head: bytes, tail: seq<bytes>)
    ensures Flatten([head] + tail) == head + Flatten(tail)
  {
    assert ([head] + tail)[1..] == tail;
  }

  lemma Associate(a: bytes, b: bytes, c: bytes)
    ensures a + b + c == a + (b + c)
  {
  }
}
