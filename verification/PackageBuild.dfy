/** build_package of tools/package.py as a whole: header and payload, its loops,
    and the acceptance of what it makes by the target. */
module PackageBuild {
  import opened Bytes
  import opened Record
  import opened Layouts
  import opened Flash
  import opened PackageSpec
  import opened Packaging
  import T = PackageTrip
  import Crc32

  // The arguments; fixed is the slot of a package for one slot only.
  datatype Request = Request(a: seq<byte>, b: seq<byte>, addressA: u32, addressB: u32, product: u32, revision: u32,
                             major: u32, minor: u32, build: u32, commit: seq<byte>, dirty: bool, fixed: Option<nat>)
  {
    // The version as the header holds it, the commit zero padded.
    function Stamp(): Version
      requires |commit| <= 40
    {
      Version(major, minor, build, commit + Zeros(41 - |commit|), dirty)
    }
    function Base(): seq<byte> { if fixed == Some(1) then b else a }
    function Other(): Option<seq<byte>> { if fixed.None? then Some(b) else None }
    function Delta(): nat { (addressB - addressA) % TWO_32 }
    function Encoding(): u32 { if fixed.None? then 0 else if fixed.value == 0 then 1 else 2 }
  }

  // The command line offers no other fixed slot.
  predicate Asked(q: Request) { q.fixed.Some? ==> q.fixed.value < 2 }

  predicate Refused(q: Request) {
    q.a == [] || q.b == [] || (q.fixed.None? && |q.a| != |q.b|)
    || |q.commit| > 40 || (exists i :: 0 <= i < |q.commit| && q.commit[i] >= 128)
    || q.Delta() == 0 || q.Delta() == 0x80000000
  }

  predicate Sized(q: Request) { |q.commit| <= 40 && |q.Base()| < TWO_32 }

  // ---- The header ----

  function Fields(values: seq<u32>): (r: seq<byte>)
    ensures |r| == 4 * |values|
  {
    if values == [] then [] else Encode32(values[0]) + Fields(values[1..])
  }

  function HeaderValues(q: Request): (r: seq<u32>)
    requires Sized(q)
    ensures |r| == 15
  {
    [PACKAGE_MAGIC, 1, HEADER, q.product, q.revision, |q.Base()|, q.addressA, q.addressB,
     Crc32.Checksum(q.a), Crc32.Checksum(q.b), q.Encoding(), BLOCK, q.major, q.minor, q.build]
  }

  function HeaderBody(q: Request, size: u32): (r: seq<byte>)
    requires Sized(q)
    ensures |r| == 124
  {
    Fields(HeaderValues(q)) + (q.Stamp().commit + [if q.dirty then 1 else 0, 0, 0] + Encode32(size) + Zeros(16))
  }

  function HeaderBytes(q: Request, size: u32): (r: seq<byte>)
    requires Sized(q)
    ensures |r| == HEADER
  {
    HeaderBody(q, size) + Encode32(Crc32.Checksum(HeaderBody(q, size)))
  }

  // None stands for every exception, the ones struct raises for large values included.
  function Package(q: Request): Option<seq<byte>>
    requires Asked(q)
  {
    if Refused(q) || |q.Base()| >= TWO_32 then None
    else
      var payload := Payload(q.Base(), q.Other(), q.Delta(), 0);
      if payload.None? || HEADER + |payload.value| >= TWO_32 then None
      else Some(HeaderBytes(q, HEADER + |payload.value|) + payload.value)
  }

  // ---- Reading it back ----

  lemma {:induction false} FieldRead(values: seq<u32>, tail: seq<byte>, i: nat)
    requires i < |values|
    ensures Read32(Fields(values) + tail, 4 * i) == values[i]
  {
    var s := Fields(values) + tail;
    var rest := Fields(values[1..]) + tail;
    assert s == Encode32(values[0]) + rest;
    if i == 0 {
      assert s[0..4] == Encode32(values[0]);
      Read32Bytes(s, 0, values[0]);
    } else {
      FieldRead(values[1..], tail, i - 1);
      assert s[4..] == rest;
      SameRead(s, rest, 4 * i);
    }
  }

  lemma SameRead(s: seq<byte>, rest: seq<byte>, at: nat)
    requires |s| >= 4 && s[4..] == rest && 4 <= at && at + 4 <= |s|
    ensures Read32(s, at) == Read32(rest, at - 4)
  {
    assert forall k :: 4 <= k < |s| ==> s[k] == rest[k - 4];
  }

  // The header the target parses from the bytes.
  function Expected(q: Request, size: u32): Header
    requires Sized(q)
  {
    Header(q.product, q.revision, |q.Base()|, q.addressA, q.addressB, Crc32.Checksum(q.a), Crc32.Checksum(q.b),
           q.Encoding(), size, q.Stamp())
  }

  lemma ValuesRead(q: Request, size: u32, i: nat)
    requires Sized(q) && i < 15
    ensures Read32(HeaderBytes(q, size), 4 * i) == HeaderValues(q)[i]
  {
    hide Fields, Encode32, Read32, Crc32.Checksum;
    var tail := q.Stamp().commit + [if q.dirty then 1 else 0, 0, 0] + Encode32(size) + Zeros(16);
    var seal := Encode32(Crc32.Checksum(HeaderBody(q, size)));
    assert HeaderBytes(q, size) == Fields(HeaderValues(q)) + (tail + seal);
    FieldRead(HeaderValues(q), tail + seal, i);
  }

  lemma TailRead(q: Request, size: u32)
    requires Sized(q)
    ensures var bytes := HeaderBytes(q, size);
            && bytes[..124] == HeaderBody(q, size) && Read32(bytes, 124) == Crc32.Checksum(bytes[..124])
            && Read32(bytes, 104) == size && Read32(bytes, 108) == 0
            && bytes[60..100] + [0] == q.Stamp().commit && (bytes[101] != 0) == q.dirty
  {
    hide Fields, Crc32.Checksum, HeaderValues, Encode32, Read32;
    var body := HeaderBody(q, size);
    var bytes := HeaderBytes(q, size);
    assert bytes[..124] == body;
    assert bytes[124..128] == Encode32(Crc32.Checksum(body));
    Read32Bytes(bytes, 124, Crc32.Checksum(body));
    var stamp := q.Stamp();
    assert bytes[60..124] == stamp.commit + [if stamp.dirty then 1 else 0, 0, 0] + Encode32(size) + Zeros(16);
    StampRead(bytes, stamp, size, bytes[60..124]);
  }

  lemma StampRead(bytes: seq<byte>, stamp: Version, size: u32, tail: seq<byte>)
    requires |bytes| == HEADER && |stamp.commit| == 41 && stamp.commit[40] == 0 && bytes[60..124] == tail
    requires tail == stamp.commit + [if stamp.dirty then 1 else 0, 0, 0] + Encode32(size) + Zeros(16)
    ensures Read32(bytes, 104) == size && Read32(bytes, 108) == 0
    ensures bytes[60..100] + [0] == stamp.commit && (bytes[101] != 0) == stamp.dirty
  {
    hide Encode32, Read32;
    forall k | 0 <= k < 64 ensures bytes[60 + k] == tail[k] { assert bytes[60..124][k] == tail[k]; }
    TailParts(stamp.commit, [if stamp.dirty then 1 else 0, 0, 0], Encode32(size), tail);
    assert bytes[104..108] == tail[44..48];
    Read32Bytes(bytes, 104, size);
    assert bytes[108..112] == tail[48..52];
    ZeroWord(bytes);
    assert bytes[60..100] == tail[..40];
    assert stamp.commit == stamp.commit[..40] + [0];
  }

  lemma TailParts(commit: seq<byte>, flags: seq<byte>, word: seq<byte>, tail: seq<byte>)
    requires |commit| == 41 && |flags| == 3 && |word| == 4 && tail == commit + flags + word + Zeros(16)
    ensures tail[..40] == commit[..40] && tail[41] == flags[0] && tail[44..48] == word
    ensures forall k :: 48 <= k < 64 ==> tail[k] == 0
  {}

  lemma ZeroWord(bytes: seq<byte>)
    requires |bytes| == HEADER && forall k :: 108 <= k < 112 ==> bytes[k] == 0
    ensures Read32(bytes, 108) == 0
  {}

  lemma HeaderRead(q: Request, size: u32)
    requires Sized(q)
    ensures var bytes := HeaderBytes(q, size);
            && Read32(bytes, 0) == PACKAGE_MAGIC && Read32(bytes, 4) == 1 && Read32(bytes, 8) == HEADER
            && Read32(bytes, 44) == BLOCK && ParseHeader(bytes) == Expected(q, size)
  {
    hide Read32, HeaderBytes, Crc32.Checksum;
    forall i: nat | i < 15 ensures Read32(HeaderBytes(q, size), 4 * i) == HeaderValues(q)[i] { ValuesRead(q, size, i); }
    var bytes := HeaderBytes(q, size);
    assert Read32(bytes, 4 * 0) == PACKAGE_MAGIC && Read32(bytes, 4 * 1) == 1 && Read32(bytes, 4 * 2) == HEADER;
    assert Read32(bytes, 4 * 3) == q.product && Read32(bytes, 4 * 4) == q.revision
      && Read32(bytes, 4 * 5) == |q.Base()|;
    assert Read32(bytes, 4 * 6) == q.addressA && Read32(bytes, 4 * 7) == q.addressB;
    assert Read32(bytes, 4 * 8) == Crc32.Checksum(q.a) && Read32(bytes, 4 * 9) == Crc32.Checksum(q.b);
    assert Read32(bytes, 4 * 10) == q.Encoding() && Read32(bytes, 4 * 11) == BLOCK;
    assert Read32(bytes, 4 * 12) == q.major && Read32(bytes, 4 * 13) == q.minor && Read32(bytes, 4 * 14) == q.build;
    TailRead(q, size);
  }

  // ---- Payload sizes ----

  lemma {:induction false} PayloadSize(base: seq<byte>, other: Option<seq<byte>>, delta: nat, offset: nat)
    requires offset <= |base| < TWO_32 && (other.Some? ==> |other.value| == |base|)
    requires Payload(base, other, delta, offset).Some?
    ensures var n := |Payload(base, other, delta, offset).value|;
            var left := |base| - offset;
            Blocks(left) * 12 + left <= n <= Blocks(left) * 12 + left + Blocks(left) * MAX_PATCHES * 2
    decreases |base| - offset
  {
    if offset < |base| {
      var block := Slice(base, offset, BLOCK);
      PayloadSize(base, other, delta, offset + |block|);
      assert Blocks(|base| - offset) == 1 + Blocks(|base| - offset - |block|);
    }
  }

  /** The target accepts the header of every package built for a layout it matches
      and a slot the package is for, and parses exactly what was asked; the payload
      is then one the stream parser reproduces the image from. */
  lemma Accepted(q: Request, l: Layout, destination: nat)
    requires Asked(q) && Package(q).Some? && Valid(l) && destination < 2
    requires l.slots == [q.addressA, q.addressB] && l.product == q.product && l.revision == q.revision
    requires |q.Base()| <= l.slotSize && (q.fixed.Some? ==> q.fixed.value == destination)
    ensures var package := Package(q).value;
            var h := Expected(q, |package|);
            && |package| >= HEADER && |package| < TWO_32
            && DecodeHeader(package[..HEADER], l, destination) == (Ok, Some(h))
            && var c := T.Source(q.Base(), q.Other(), h, destination);
               T.Fits(c) && T.Image(c) == (if destination == 0 then q.a else q.b)
               && package[HEADER..] == Payload(c.base, c.other, Delta(h), 0).value
               && h.Crc(destination) == Crc32.Checksum(T.Image(c))
  {
    hide Read32, Crc32.Checksum, Valid, Blocks, HeaderBytes, Payload, Suits, ParseHeader;
    var payload := Payload(q.Base(), q.Other(), q.Delta(), 0).value;
    var size := HEADER + |payload|;
    var bytes := HeaderBytes(q, size);
    var package := Package(q).value;
    assert package[..HEADER] == bytes && package[HEADER..] == payload;
    HeaderRead(q, size);
    TailRead(q, size);
    Suitable(q, l, destination, size);
  }

  lemma Suitable(q: Request, l: Layout, destination: nat, size: u32)
    requires Sized(q) && q.Base() != [] && destination < 2 && |l.slots| == 2 && (q.fixed.None? ==> |q.a| == |q.b|)
    requires l.slots == [q.addressA, q.addressB] && l.product == q.product && l.revision == q.revision
    requires |q.Base()| <= l.slotSize && (q.fixed.Some? ==> q.fixed.value == destination)
    requires Payload(q.Base(), q.Other(), q.Delta(), 0).Some?
      && size == HEADER + |Payload(q.Base(), q.Other(), q.Delta(), 0).value|
    ensures Suits(Expected(q, size), l, destination)
  {
    hide Crc32.Checksum, Payload, Blocks;
    PayloadSize(q.Base(), q.Other(), q.Delta(), 0);
  }

  // ---- The loops ----

  // The codes and the rebuilt image of one block.
  method BlockPatches(base: seq<byte>, b: seq<byte>, delta: nat, offset: nat, rebuilt: seq<byte>)
    returns (codes: Option<seq<nat>>, after: seq<byte>)
    requires |base| == |b| && offset < |base| && delta < TWO_32
    requires Halfway(base, b, rebuilt, offset)
    ensures codes == BlockCodes(base, Some(b), delta, offset)
    ensures codes.Some? ==> Halfway(base, b, after, offset + Min(BLOCK, |base| - offset))
  {
    hide Read32, PutWord, Halfway, Slice, Codes;
    var block, other := Slice(base, offset, BLOCK), Slice(b, offset, BLOCK);
    var patches: seq<nat> := [];
    after := rebuilt;
    var at := 0;
    assert Prefixed([], Codes(block, other, delta, 0)) == Codes(block, other, delta, 0) by {
      EmptyPrefix(Codes(block, other, delta, 0));
    }
    while at < |block|
      invariant at <= |block| + 3 && at % 4 == 0
      invariant Codes(block, other, delta, 0) == Prefixed(patches, Codes(block, other, delta, at))
      invariant Halfway(base, b, after, offset + at)
    {
      var old32, new32 := Slice(block, at, 4), Slice(other, at, 4);
      CodesUnfold(block, other, delta, at, patches);
      SliceSlice(base, offset, at);
      SliceSlice(b, offset, at);
      if old32 == new32 {
        SkippedStep(base, b, after, offset, at);
        at := at + 4;
        continue;
      }
      if |old32| != 4 || |new32| != 4 {
        return None, after;
      }
      var change := (Read32(new32, 0) - Read32(old32, 0)) % TWO_32;
      var code;
      if change == delta {
        code := at / 4;
      } else if change == (TWO_32 - delta) % TWO_32 {
        code := 0x8000 + at / 4;
      } else {
        return None, after;
      }
      patches := patches + [code];
      var value := (if code >= 0x8000 then Read32(old32, 0) - delta else Read32(old32, 0) + delta) % TWO_32;
      HalfwaySizes(base, b, after, offset + at);
      RebuiltStep(base, b, after, offset, at, delta, code);
      after := PutWord(after, offset + at, value);
      at := at + 4;
    }
    BlockEnd(base, b, after, offset, at, block, other, delta, patches);
    codes := Some(patches);
  }

  lemma BlockEnd(base: seq<byte>, b: seq<byte>, after: seq<byte>, offset: nat, at: nat, block: seq<byte>,
                 other: seq<byte>, delta: nat, patches: seq<nat>)
    requires Halfway(base, b, after, offset + at) && offset < |base| && at % 4 == 0 && |block| <= at <= |block| + 3
    requires |other| == |block| == Min(BLOCK, |base| - offset)
    ensures Halfway(base, b, after, offset + |block|)
    ensures Prefixed(patches, Codes(block, other, delta, at)) == Some(patches)
  {
    assert patches + [] == patches;
  }

  lemma EmptyPrefix<X>(rest: Option<seq<X>>)
    ensures Prefixed([], rest) == rest
  {
    if rest.Some? { assert [] + rest.value == rest.value; }
  }

  function Prefixed<X>(first: seq<X>, rest: Option<seq<X>>): Option<seq<X>> {
    if rest.None? then None else Some(first + rest.value)
  }

  lemma CodesUnfold(block: seq<byte>, other: seq<byte>, delta: nat, at: nat, patches: seq<nat>)
    requires |block| == |other| && at < |block|
    ensures var here := Relocated(Slice(block, at, 4), Slice(other, at, 4), delta, at);
            var rest := Codes(block, other, delta, at + 4);
            Prefixed(patches, Codes(block, other, delta, at)) ==
            if here.Foreign? then None
            else Prefixed(if here.Same? then patches else patches + [here.code], rest)
  {
    var here := Relocated(Slice(block, at, 4), Slice(other, at, 4), delta, at);
    var rest := Codes(block, other, delta, at + 4);
    if here.Moved? && rest.Some? {
      assert patches + ([here.code] + rest.value) == patches + [here.code] + rest.value;
    }
  }

  lemma SliceSlice(s: seq<byte>, offset: nat, at: nat)
    requires offset < |s| && at < Min(BLOCK, |s| - offset) && at % 4 == 0
    ensures Slice(Slice(s, offset, BLOCK), at, 4) == Slice(s, offset + at, 4)
  {
    var block := Slice(s, offset, BLOCK);
    assert BLOCK - at >= 4;
    assert Min(4, |block| - at) == Min(4, |s| - (offset + at));
    var n := Min(4, |block| - at);
    assert block == s[offset..offset + |block|];
    var mine, whole := block[at..at + n], s[offset + at..offset + at + n];
    forall k | 0 <= k < n ensures mine[k] == whole[k] {
      assert block[at + k] == s[offset + (at + k)];
    }
  }

  lemma SkippedStep(base: seq<byte>, b: seq<byte>, data: seq<byte>, offset: nat, at: nat)
    requires Halfway(base, b, data, offset + at) && offset + at <= |base|
      && Slice(base, offset + at, 4) == Slice(b, offset + at, 4)
    ensures Halfway(base, b, data, offset + at + 4)
  {
    SkippedWord(base, b, data, offset + at);
  }

  lemma RebuiltStep(base: seq<byte>, b: seq<byte>, data: seq<byte>, offset: nat, at: nat, delta: nat, code: nat)
    requires Halfway(base, b, data, offset + at) && offset + at + 4 <= |base| == |b| == |data| && delta < TWO_32
      && at < BLOCK
    requires
      var before, after := Read32(Slice(base, offset + at, 4), 0), Read32(Slice(b, offset + at, 4), 0);
      var change := (after - before) % TWO_32;
      || (change == delta && code == at / 4)
      || (change == (TWO_32 - delta) % TWO_32 && code == 0x8000 + at / 4)
    ensures var before := Read32(Slice(base, offset + at, 4), 0);
            var value := (if code >= 0x8000 then before - delta else before + delta) % TWO_32;
            Halfway(base, b, PutWord(data, offset + at, value), offset + at + 4)
  {
    hide Halfway, Read32, PutWord;
    HalfwaySizes(base, b, data, offset + at);
    SliceWord(base, offset + at);
    SliceWord(b, offset + at);
    SameChange(Read32(base, offset + at), Read32(b, offset + at), delta);
    PatchedWord(base, b, data, offset + at, Read32(b, offset + at));
  }

  method BuildPackage(q: Request) returns (r: Option<seq<byte>>)
    requires Asked(q)
    ensures r == Package(q)
  {
    hide Codes, BlockCodes, Halfway, Crc32.Checksum, HeaderBytes;
    if Refused(q) || |q.Base()| >= TWO_32 {
      return None;
    }
    var base, delta := q.Base(), q.Delta();
    var payload: seq<byte> := [];
    var reconstructed := base;
    var offset := 0;
    StartsHalfway(base, q.b);
    EmptyPrefix(Payload(base, q.Other(), delta, 0));
    while offset < |base|
      invariant offset <= |base|
      invariant Payload(base, q.Other(), delta, 0) == Prefixed(payload, Payload(base, q.Other(), delta, offset))
      invariant q.fixed.None? ==> Halfway(base, q.b, reconstructed, offset)
    {
      var block := Slice(base, offset, BLOCK);
      var codes: Option<seq<nat>> := Some([]);
      if q.fixed.None? {
        codes, reconstructed := BlockPatches(base, q.b, delta, offset, reconstructed);
      }
      FixedCodes(base, delta, offset);
      assert codes == BlockCodes(base, q.Other(), delta, offset);
      if codes.None? {
        return None;
      }
      PayloadUnfold(base, q.Other(), delta, offset, payload);
      payload := payload + Wire(offset, block, codes.value);
      offset := offset + |block|;
    }
    assert payload + [] == payload;
    if q.fixed.None? {
      EndsHalfway(base, q.b, reconstructed);
      if reconstructed != q.b {
        assert false;
      }
    }
    if HEADER + |payload| >= TWO_32 {
      return None;
    }
    r := Some(HeaderBytes(q, HEADER + |payload|) + payload);
  }

  lemma StartsHalfway(base: seq<byte>, b: seq<byte>)
    ensures |base| == |b| ==> Halfway(base, b, base, 0)
  {}

  lemma EndsHalfway(base: seq<byte>, b: seq<byte>, data: seq<byte>)
    requires Halfway(base, b, data, |base|)
    ensures data == b
  {}

  lemma FixedCodes(base: seq<byte>, delta: nat, offset: nat)
    requires offset <= |base|
    ensures BlockCodes(base, None, delta, offset) == Some([])
  {}

  lemma PayloadUnfold(base: seq<byte>, other: Option<seq<byte>>, delta: nat, offset: nat, payload: seq<byte>)
    requires offset < |base| < TWO_32 && (other.Some? ==> |other.value| == |base|)
      && BlockCodes(base, other, delta, offset).Some?
    ensures var block := Slice(base, offset, BLOCK);
            var wire := Wire(offset, block, BlockCodes(base, other, delta, offset).value);
            Prefixed(payload, Payload(base, other, delta, offset))
            == Prefixed(payload + wire, Payload(base, other, delta, offset + |block|))
  {
    var block := Slice(base, offset, BLOCK);
    var wire := Wire(offset, block, BlockCodes(base, other, delta, offset).value);
    var rest := Payload(base, other, delta, offset + |block|);
    if rest.Some? {
      assert payload + (wire + rest.value) == payload + wire + rest.value;
    }
  }
}
