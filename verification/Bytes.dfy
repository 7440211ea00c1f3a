/** Bytes, memory cells and the little-endian wire helpers of lib/util/wire.h. */
module Bytes {

  type byte = x: int | 0 <= x < 256

  // A flash cell holds a byte or cannot be read; an erased one reads as 0xff.
  const BLANK: int := 255
  const UNREADABLE: int := -1

  // A 32-bit and a 64-bit unsigned value.
  const TWO_32: int := 0x1_0000_0000
  const TWO_64: int := 0x1_0000_0000_0000_0000
  type u32 = x: int | 0 <= x < TWO_32
  type u64 = x: int | 0 <= x < TWO_64

  predicate AllBytes(s: seq<int>) {
    forall i :: 0 <= i < |s| ==> 0 <= s[i] < 256
  }

  function Fill(n: nat, value: int): (s: seq<int>)
    ensures |s| == n && forall i :: 0 <= i < n ==> s[i] == value
  {
    seq(n, i => value)
  }

  function Encode32(x: u32): (s: seq<byte>)
    ensures |s| == 4
  {
    [x % 256, x / 256 % 256, x / 256 / 256 % 256, x / 256 / 256 / 256]
  }

  function Encode64(x: u64): (s: seq<byte>)
    ensures |s| == 8
  {
    Encode32(x % TWO_32) + Encode32(x / TWO_32)
  }

  function Read32(s: seq<byte>, at: nat): u32
    requires at + 4 <= |s|
  {
    Join(s[at], Join(s[at + 1], Join(s[at + 2], s[at + 3])))
  }

  function Join(low: int, high: int): int { low + 256 * high }

  function Read64(s: seq<byte>, at: nat): u64
    requires at + 8 <= |s|
  {
    Read32(s, at) + TWO_32 * Read32(s, at + 4)
  }

  // A read of four bytes and the bytes themselves determine each other.
  lemma Read32Bytes(s: seq<byte>, at: nat, x: u32)
    requires at + 4 <= |s|
    ensures Read32(s, at) == x <==> s[at..at + 4] == Encode32(x)
  {
    var w := s[at..at + 4];
    assert w[0] == s[at] && w[1] == s[at + 1] && w[2] == s[at + 2] && w[3] == s[at + 3];
    if Read32(s, at) == x {
      assert x / 256 == Join(w[1], Join(w[2], w[3]));
      assert x / 256 / 256 == Join(w[2], w[3]);
      assert w == Encode32(x);
    }
  }

  lemma Read64Bytes(s: seq<byte>, at: nat, x: u64)
    requires at + 8 <= |s|
    ensures Read64(s, at) == x <==> s[at..at + 8] == Encode64(x)
  {
    Read32Bytes(s, at, x % TWO_32);
    Read32Bytes(s, at + 4, x / TWO_32);
    var w := s[at..at + 8];
    assert w[..4] == s[at..at + 4] && w[4..] == s[at + 4..at + 8];
    assert w == w[..4] + w[4..];
    assert Encode64(x)[..4] == Encode32(x % TWO_32) && Encode64(x)[4..] == Encode32(x / TWO_32);
  }
}
