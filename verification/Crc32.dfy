/** CRC-32/ISO-HDLC as computed by lib/util/crc32.h, one register shift per bit. */
module Crc32 {
  import opened Bytes

  // The register operations are named functions so that the solver meets
  // bit-vector terms only in the lemmas that are about bits.
  function Xor(x: bv32, y: bv32): bv32 { x ^ y }

  function Not(x: bv32): bv32 { !x }

  function Widen(b: bv8): bv32 { b as bv32 }

  // One bit of the inner loop, and the eight of them that consume a byte.
  function Half(x: bv32): bv32 { x >> 1 }

  predicate Odd(x: bv32) { x & 1 == 1 }

  const POLYNOMIAL: bv32 := 0xedb88320

  function Shift(crc: bv32): bv32 {
    Xor(Half(crc), if Odd(crc) then POLYNOMIAL else 0)
  }

  function Shift4(crc: bv32): bv32 { Shift(Shift(Shift(Shift(crc)))) }

  function Feed(crc: bv32, b: bv8): bv32 { Shift4(Shift4(Xor(crc, Widen(b)))) }

  function Register(crc: bv32, bytes: seq<bv8>): bv32 {
    if bytes == [] then crc
    else Feed(Register(crc, bytes[..|bytes| - 1]), bytes[|bytes| - 1])
  }

  function Update(value: bv32, bytes: seq<bv8>): bv32 {
    Not(Register(Not(value), bytes))
  }

  function Append(x: bv8, bit: bool): bv8 { (x << 1) | (if bit then 1 else 0) }

  // The last n binary digits of a number.
  function Binary(a: nat, n: nat): bv8 {
    if n == 0 then 0 else Append(Binary(a / 2, n - 1), a % 2 == 1)
  }

  function Bits(bytes: seq<byte>): (s: seq<bv8>)
    ensures |s| == |bytes|
  {
    seq(|bytes|, i requires 0 <= i < |bytes| => Binary(bytes[i], 8))
  }

  /** The checksum as the unsigned number that records and packages store. */
  function Checksum(bytes: seq<byte>): u32 {
    Update(0, Bits(bytes)) as int
  }

  method UpdateBytes(value: bv32, bytes: seq<bv8>) returns (r: bv32)
    ensures r == Update(value, bytes)
  {
    var crc := Not(value);
    for i := 0 to |bytes|
      invariant crc == Register(Not(value), bytes[..i])
    {
      crc := Xor(crc, Widen(bytes[i]));
      ghost var mixed := crc;
      for bit := 0 to 8
        invariant crc == Shifts(mixed, bit)
      {
        crc := Shift(crc);
      }
      EightShifts(mixed);
      assert bytes[..i + 1][..i] == bytes[..i];
    }
    assert bytes[..|bytes|] == bytes;
    r := Not(crc);
  }

  ghost function Shifts(crc: bv32, n: nat): bv32 {
    if n == 0 then crc else Shift(Shifts(crc, n - 1))
  }

  lemma EightShifts(crc: bv32)
    ensures Shifts(crc, 8) == Shift4(Shift4(crc))
  {
    var half := Shifts(crc, 4);
    assert Shifts(crc, 1) == Shift(crc) && Shifts(crc, 2) == Shift(Shift(crc));
    assert Shifts(crc, 3) == Shift(Shift(Shift(crc))) && half == Shift4(crc);
    assert Shifts(crc, 5) == Shift(half) && Shifts(crc, 6) == Shift(Shift(half));
    assert Shifts(crc, 7) == Shift(Shift(Shift(half)));
  }

  // ---- Updating in pieces ----

  lemma {:induction false} RegisterSplit(crc: bv32, a: seq<bv8>, b: seq<bv8>)
    ensures Register(crc, a + b) == Register(Register(crc, a), b)
  {
    hide Feed;
    if b == [] {
      assert a + b == a;
    } else {
      RegisterSplit(crc, a, b[..|b| - 1]);
      assert (a + b)[..|a + b| - 1] == a + b[..|b| - 1];
    }
  }

  lemma NotNot(x: bv32)
    ensures Not(Not(x)) == x
  {}

  /** Updating piece by piece equals one update over the concatenation. */
  lemma UpdateSplit(value: bv32, a: seq<bv8>, b: seq<bv8>)
    ensures Update(Update(value, a), b) == Update(value, a + b)
  {
    hide Register, Not;
    RegisterSplit(Not(value), a, b);
    NotNot(Register(Not(value), a));
  }

  // ---- A step loses nothing ----

  lemma ShiftInjective(x: bv32, y: bv32)
    requires Shift(x) == Shift(y)
    ensures x == y
  {}

  lemma Shift4Injective(x: bv32, y: bv32)
    requires Shift4(x) == Shift4(y)
    ensures x == y
  {
    ShiftInjective(Shift(Shift(Shift(x))), Shift(Shift(Shift(y))));
    ShiftInjective(Shift(Shift(x)), Shift(Shift(y)));
    ShiftInjective(Shift(x), Shift(y));
    ShiftInjective(x, y);
  }

  lemma XorCancels(x: bv32, y: bv32, d: bv32)
    requires Xor(x, d) == Xor(y, d)
    ensures x == y
  {}

  lemma {:induction false} RegisterInjective(p: bv32, q: bv32, bytes: seq<bv8>)
    requires Register(p, bytes) == Register(q, bytes)
    ensures p == q
  {
    hide Shift4, Xor, Widen;
    if bytes != [] {
      var n := |bytes| - 1;
      var x, y := Register(p, bytes[..n]), Register(q, bytes[..n]);
      Shift4Injective(Shift4(Xor(x, Widen(bytes[n]))), Shift4(Xor(y, Widen(bytes[n]))));
      Shift4Injective(Xor(x, Widen(bytes[n])), Xor(y, Widen(bytes[n])));
      XorCancels(x, y, Widen(bytes[n]));
      RegisterInjective(p, q, bytes[..n]);
    }
  }

  // ---- A step is linear ----

  lemma HalfLinear(x: bv32, y: bv32)
    ensures Half(Xor(x, y)) == Xor(Half(x), Half(y))
  {}

  lemma OddLinear(x: bv32, y: bv32)
    ensures Odd(Xor(x, y)) == (Odd(x) != Odd(y))
  {}

  lemma XorUnits(x: bv32)
    ensures Xor(x, 0) == x && Xor(0, x) == x && Xor(x, x) == 0
  {}

  lemma ShiftLinear(x: bv32, y: bv32)
    ensures Shift(Xor(x, y)) == Xor(Shift(x), Shift(y))
  {
    hide Xor, Half, Odd;
    HalfLinear(x, y);
    OddLinear(x, y);
    var p, q := if Odd(x) then POLYNOMIAL else 0, if Odd(y) then POLYNOMIAL else 0;
    XorSwap(Half(x), p, Half(y), q);
    XorUnits(POLYNOMIAL);
    XorUnits(0);
  }

  lemma Shift4Linear(x: bv32, y: bv32)
    ensures Shift4(Xor(x, y)) == Xor(Shift4(x), Shift4(y))
  {
    ShiftLinear(x, y);
    ShiftLinear(Shift(x), Shift(y));
    ShiftLinear(Shift(Shift(x)), Shift(Shift(y)));
    ShiftLinear(Shift(Shift(Shift(x))), Shift(Shift(Shift(y))));
  }

  lemma XorSwap(p: bv32, a: bv32, q: bv32, b: bv32)
    ensures Xor(Xor(p, a), Xor(q, b)) == Xor(Xor(p, q), Xor(a, b))
  {
    hide Xor;
    XorAssociative(p, a, Xor(q, b));
    XorAssociative(a, q, b);
    XorAssociative(q, a, b);
    XorAssociative(p, q, Xor(a, b));
  }

  lemma XorAssociative(x: bv32, y: bv32, z: bv32)
    ensures Xor(Xor(x, y), z) == Xor(x, Xor(y, z)) && Xor(x, y) == Xor(y, x)
  {}

  // Two registers fed two bytes differ by a shift of how the inputs differ.
  lemma FeedDifference(p: bv32, q: bv32, a: bv8, b: bv8)
    ensures Xor(Feed(p, a), Feed(q, b)) == Shift4(Shift4(Xor(Xor(p, q), Xor(Widen(a), Widen(b)))))
  {
    XorSwap(p, Widen(a), q, Widen(b));
    Shift4Linear(Xor(p, Widen(a)), Xor(q, Widen(b)));
    Shift4Linear(Shift4(Xor(p, Widen(a))), Shift4(Xor(q, Widen(b))));
  }

  // ---- Four consecutive bytes cannot cancel ----

  // The reflected polynomial has its top bit set, so eight shifts leave the top
  // byte clear only if the byte shifted out was zero.
  lemma TopByteClear(x: bv32)
    requires Shift4(Shift4(x)) < 0x100_0000
    ensures x & 0xff == 0 && Shift4(Shift4(x)) == x >> 8
  {}

  // A difference that is small after a step was small before it, and its low
  // byte was exactly the byte difference fed in.
  lemma DifferenceBefore(s: bv32, d: bv32, next: bv32)
    requires d < 256 && next < 0x100_0000 && next == Shift4(Shift4(Xor(s, d)))
    ensures next < 0x100 ==> s < 0x10000
    ensures next < 0x10000 ==> s < 0x100_0000
    ensures s == 0 ==> d == 0 && next == 0
  {
    TopByteClear(Xor(s, d));
    SmallBefore(s, d, next);
  }

  lemma SmallBefore(s: bv32, d: bv32, next: bv32)
    requires d < 256 && Xor(s, d) & 0xff == 0 && next == Xor(s, d) >> 8
    ensures next < 0x100 ==> s < 0x10000
    ensures next < 0x10000 ==> s < 0x100_0000
    ensures s == 0 ==> d == 0 && next == 0
  {}

  lemma ByteDifference(a: bv8, b: bv8)
    ensures Xor(Widen(a), Widen(b)) < 256
    ensures Xor(Widen(a), Widen(b)) == 0 ==> a == b
  {}

  lemma XorZero(s: bv32, d: bv32)
    requires Xor(s, d) == 0
    ensures s == d
  {}

  lemma ShiftZero(x: bv32)
    requires Shift4(Shift4(x)) == 0
    ensures x == 0
  {
    TopByteClear(x);
  }

  lemma DifferenceSurvives(d0: bv32, d1: bv32, d2: bv32, d3: bv32, s1: bv32, s2: bv32, s3: bv32)
    requires d0 < 256 && d1 < 256 && d2 < 256 && d3 < 256
    requires s1 == Shift4(Shift4(Xor(0, d0))) && s2 == Shift4(Shift4(Xor(s1, d1)))
    requires s3 == Shift4(Shift4(Xor(s2, d2))) && Shift4(Shift4(Xor(s3, d3))) == 0
    ensures d0 == 0 && d1 == 0 && d2 == 0 && d3 == 0
  {
    ShiftZero(Xor(s3, d3));
    XorZero(s3, d3);
    DifferenceBefore(s2, d2, s3);
    DifferenceBefore(s1, d1, s2);
    DifferenceBefore(0, d0, s1);
  }

  lemma RegisterFour(crc: bv32, w: seq<bv8>)
    requires |w| == 4
    ensures Register(crc, w) == Feed(Feed(Feed(Feed(crc, w[0]), w[1]), w[2]), w[3])
  {
    hide Feed;
    assert Register(crc, w[..0]) == crc;
    assert w[..1][..0] == w[..0];
    assert Register(crc, w[..1]) == Feed(crc, w[0]);
    assert w[..2][..1] == w[..1];
    assert Register(crc, w[..2]) == Feed(Register(crc, w[..1]), w[1]);
    assert w[..3][..2] == w[..2];
    assert Register(crc, w[..3]) == Feed(Register(crc, w[..2]), w[2]);
  }

  lemma WindowInjective(crc: bv32, v: seq<bv8>, w: seq<bv8>)
    requires |v| == |w| == 4 && Register(crc, v) == Register(crc, w)
    ensures v == w
  {
    hide Register, Feed, Shift4, Xor, Widen;
    RegisterFour(crc, v);
    RegisterFour(crc, w);
    var p1, q1 := Feed(crc, v[0]), Feed(crc, w[0]);
    var p2, q2 := Feed(p1, v[1]), Feed(q1, w[1]);
    var p3, q3 := Feed(p2, v[2]), Feed(q2, w[2]);
    FeedDifference(crc, crc, v[0], w[0]);
    FeedDifference(p1, q1, v[1], w[1]);
    FeedDifference(p2, q2, v[2], w[2]);
    FeedDifference(p3, q3, v[3], w[3]);
    XorUnits(crc);
    XorUnits(Feed(p3, v[3]));
    forall i | 0 <= i < 4
      ensures Xor(Widen(v[i]), Widen(w[i])) < 256
      ensures Xor(Widen(v[i]), Widen(w[i])) == 0 ==> v[i] == w[i]
    {
      ByteDifference(v[i], w[i]);
    }
    DifferenceSurvives(Xor(Widen(v[0]), Widen(w[0])), Xor(Widen(v[1]), Widen(w[1])),
                       Xor(Widen(v[2]), Widen(w[2])), Xor(Widen(v[3]), Widen(w[3])),
                       Xor(p1, q1), Xor(p2, q2), Xor(p3, q3));
  }

  lemma NotInjective(x: bv32, y: bv32)
    requires Not(x) == Not(y)
    ensures x == y
  {}

  /** Messages of any length that differ only inside four consecutive bytes have
      different checksums. */
  lemma BurstDetected(value: bv32, before: seq<bv8>, v: seq<bv8>, w: seq<bv8>, after: seq<bv8>)
    requires |v| == |w| <= 4
    requires Update(value, before + v + after) == Update(value, before + w + after)
    ensures v == w
  {
    hide Register, Not;
    var start := Not(value);
    NotInjective(Register(start, before + v + after), Register(start, before + w + after));
    RegisterSplit(start, before + v, after);
    RegisterSplit(start, before + w, after);
    RegisterInjective(Register(start, before + v), Register(start, before + w), after);
    RegisterSplit(start, before, v);
    RegisterSplit(start, before, w);
    var crc := Register(start, before);
    // Equal registers stay equal over equal bytes, so short windows pad to four.
    var zeros: seq<bv8> := seq(4 - |v|, i => 0);
    RegisterSplit(crc, v, zeros);
    RegisterSplit(crc, w, zeros);
    WindowInjective(crc, v + zeros, w + zeros);
    assert v == (v + zeros)[..|v|] && w == (w + zeros)[..|w|];
  }

  // The polynomial as five bytes of input.
  const CANCELLING: seq<bv8> := [0x80, 0x20, 0x83, 0xb8, 0xed]
  const NOTHING: seq<bv8> := [0, 0, 0, 0, 0]

  lemma RegisterFive(crc: bv32, w: seq<bv8>)
    requires |w| == 5
    ensures Register(crc, w) == Feed(Feed(Feed(Feed(Feed(crc, w[0]), w[1]), w[2]), w[3]), w[4])
  {
    hide Feed;
    RegisterFour(crc, w[..4]);
  }

  lemma PolynomialSteps()
    ensures Shift4(Shift4(0x80)) == 0xedb88320 && Shift4(Shift4(0xedb88300)) == 0xedb883
      && Shift4(Shift4(0xedb800)) == 0xedb8
    ensures Shift4(Shift4(0xed00)) == 0xed && Shift4(Shift4(0)) == 0
  {
    EightOf80();
    TopByteClear(0xedb88300);
    TopByteClear(0xedb800);
    TopByteClear(0xed00);
  }

  lemma EightOf80()
    ensures Shift4(Shift4(0x80)) == 0xedb88320
  {
    assert Shift(0x80) == 0x40 && Shift(0x40) == 0x20 && Shift(0x20) == 0x10 && Shift(0x10) == 8;
    assert Shift(8) == 4 && Shift(4) == 2 && Shift(2) == 1 && Shift(1) == 0xedb88320;
  }

  /** Four bytes is the limit: five consecutive bytes can change without a trace. */
  lemma FiveCancel(value: bv32, before: seq<bv8>, after: seq<bv8>)
    ensures Update(value, before + CANCELLING + after) == Update(value, before + NOTHING + after)
  {
    hide Register, Feed, Shift4;
    var start := Not(value);
    RegisterSplit(start, before + CANCELLING, after);
    RegisterSplit(start, before + NOTHING, after);
    RegisterSplit(start, before, CANCELLING);
    RegisterSplit(start, before, NOTHING);
    WindowCancels(Register(start, before));
  }

  lemma WindowCancels(crc: bv32)
    ensures Register(crc, CANCELLING) == Register(crc, NOTHING)
  {
    hide Register, Feed, Shift4;
    RegisterFive(crc, CANCELLING);
    RegisterFive(crc, NOTHING);
    var p1, q1 := Feed(crc, 0x80), Feed(crc, 0);
    var p2, q2 := Feed(p1, 0x20), Feed(q1, 0);
    var p3, q3 := Feed(p2, 0x83), Feed(q2, 0);
    var p4, q4 := Feed(p3, 0xb8), Feed(q3, 0);
    PolynomialSteps();
    XorUnits(crc);
    FeedDifference(crc, crc, 0x80, 0);
    FeedDifference(p1, q1, 0x20, 0);
    FeedDifference(p2, q2, 0x83, 0);
    FeedDifference(p3, q3, 0xb8, 0);
    FeedDifference(p4, q4, 0xed, 0);
    XorZero(Feed(p4, 0xed), Feed(q4, 0));
  }
}
