/** The package producer of tools/package.py, and its inverse relation to the
    stream parser. */
module Packaging {
  import opened Bytes
  import opened Record
  import opened PackageSpec

  // ---- What the producer computes ----

  function Slice(s: seq<byte>, at: nat, n: nat): (r: seq<byte>)
    requires at <= |s|
    ensures |r| == Min(n, |s| - at)
  {
    s[at..at + Min(n, |s| - at)]
  }

  // The relocation of one word: None where the images agree, an error where the
  // difference is not plus or minus the slot displacement.
  datatype Relocation = Same | Moved(code: nat) | Foreign

  function Relocated(before: seq<byte>, after: seq<byte>, delta: nat, at: nat): Relocation {
    if before == after then Same
    else if |before| != 4 || |after| != 4 then Foreign
    else
      var change := (Read32(after, 0) - Read32(before, 0)) % TWO_32;
      if change == delta then Moved(at / 4)
      else if change == (TWO_32 - delta) % TWO_32 then Moved(0x8000 + at / 4)
      else Foreign
  }

  // The patch codes of a block from word position `at` on.
  function Codes(block: seq<byte>, other: seq<byte>, delta: nat, at: nat): (r: Option<seq<nat>>)
    requires |block| == |other|
    ensures r.Some? && at <= |block| ==> |r.value| <= (|block| - at + 3) / 4
    ensures r.Some? && at > |block| ==> r.value == []
    decreases |block| - at
  {
    if at >= |block| then Some([])
    else
      var here := Relocated(Slice(block, at, 4), Slice(other, at, 4), delta, at);
      var rest := Codes(block, other, delta, at + 4);
      if here.Foreign? || rest.None? then None
      else if here.Same? then rest
      else Some([here.code] + rest.value)
  }

  function Words(codes: seq<nat>): (r: seq<byte>)
    ensures |r| == 2 * |codes|
  {
    if codes == [] then [] else [codes[0] % 256, codes[0] / 256 % 256] + Words(codes[1..])
  }

  // One block on the wire. `other` is the slot B image for relocatable packages.
  function BlockCodes(base: seq<byte>, other: Option<seq<byte>>, delta: nat, offset: nat): (r: Option<seq<nat>>)
    requires offset <= |base| && (other.Some? ==> |other.value| == |base|)
    ensures r.Some? ==> |r.value| <= MAX_PATCHES
  {
    if other.None? then Some([]) else Codes(Slice(base, offset, BLOCK), Slice(other.value, offset, BLOCK), delta, 0)
  }

  function Wire(offset: nat, block: seq<byte>, codes: seq<nat>): seq<byte>
    requires offset < TWO_32 && |block| < TWO_32 && |codes| < TWO_32
  {
    Encode32(offset) + Encode32(|block|) + Encode32(|codes|) + Words(codes) + block
  }

  function Payload(base: seq<byte>, other: Option<seq<byte>>, delta: nat, offset: nat): (r: Option<seq<byte>>)
    requires offset <= |base| < TWO_32 && (other.Some? ==> |other.value| == |base|)
    decreases |base| - offset
  {
    if offset == |base| then Some([])
    else
      var block := Slice(base, offset, BLOCK);
      var codes := BlockCodes(base, other, delta, offset);
      var rest := Payload(base, other, delta, offset + |block|);
      if codes.None? || rest.None? then None
      else Some(Wire(offset, block, codes.value) + rest.value)
  }

  // Every word of the block is equal in both images or moved by the displacement.
  ghost predicate Relocatable(block: seq<byte>, other: seq<byte>, delta: nat, at: nat)
    requires |block| == |other|
  {
    forall w :: at <= 4 * w < |block| ==> MovedBy(Slice(block, 4 * w, 4), Slice(other, 4 * w, 4), delta)
  }

  ghost predicate MovedBy(before: seq<byte>, after: seq<byte>, delta: nat) {
    before == after || (|before| == 4 && |after| == 4
                        && (Read32(after, 0) - Read32(before, 0)) % TWO_32 in {delta, (TWO_32 - delta) % TWO_32})
  }

  /** A block is accepted exactly when it is relocatable. */
  lemma {:induction false} AcceptedExactly(block: seq<byte>, other: seq<byte>, delta: nat, at: nat)
    requires |block| == |other| && at % 4 == 0
    ensures Codes(block, other, delta, at).Some? <==> Relocatable(block, other, delta, at)
    decreases |block| - at
  {
    if at < |block| {
      AcceptedExactly(block, other, delta, at + 4);
      assert MovedBy(Slice(block, 4 * (at / 4), 4), Slice(other, 4 * (at / 4), 4), delta)
             <==> !Relocated(Slice(block, at, 4), Slice(other, at, 4), delta, at).Foreign?;
      if Relocatable(block, other, delta, at + 4)
        && !Relocated(Slice(block, at, 4), Slice(other, at, 4), delta, at).Foreign? {
        forall w | at <= 4 * w < |block| ensures MovedBy(Slice(block, 4 * w, 4), Slice(other, 4 * w, 4), delta) {
          assert w == at / 4 || at + 4 <= 4 * w;
        }
      }
    }
  }

  // ---- Patching undoes relocation ----

  lemma SameChange(before: u32, after: u32, delta: nat)
    requires delta < TWO_32
    ensures (after - before) % TWO_32 == delta ==> (before + delta) % TWO_32 == after
    ensures (after - before) % TWO_32 == (TWO_32 - delta) % TWO_32 ==> (before - delta) % TWO_32 == after
  {}

  function Delta(h: Header): nat { (h.addressB - h.addressA) % TWO_32 }

  // data already equals other below `at` and still equals block from there.
  ghost predicate Halfway(block: seq<byte>, other: seq<byte>, data: seq<byte>, at: nat) {
    && |block| == |other| == |data|
    && (forall i :: 0 <= i < |data| && i < at ==> data[i] == other[i])
    && (forall i :: 0 <= i < |data| && at <= i ==> data[i] == block[i])
  }

  lemma CodeRange(at: nat, code: nat)
    requires at % 4 == 0 && at < BLOCK && (code == at / 4 || code == 0x8000 + at / 4)
    ensures code < 0x10000 && code % 256 * 4 == at && (code / 256) % 128 == 0
    ensures code >= 0x8000 <==> code == 0x8000 + at / 4
  {}

  lemma CodeBytes(code: nat)
    requires code < 0x10000
    ensures Join(code % 256, code / 256 % 256) == code
  {}

  lemma WordsAt(patches: seq<byte>, i: nat, codes: seq<nat>)
    requires codes != [] && codes[0] < 0x10000 && 2 * i <= |patches| && patches[2 * i..] == Words(codes)
    ensures 2 * i + 1 < |patches| && Code(patches, i) == codes[0] && patches[2 * (i + 1)..] == Words(codes[1..])
  {
    hide Join;
    var k := 2 * i;
    var tail := patches[k..];
    assert |tail| >= 2;
    assert patches[k] == tail[0] == codes[0] % 256;
    assert patches[k + 1] == tail[1] == codes[0] / 256 % 256;
    CodeBytes(codes[0]);
    assert tail[2..] == Words(codes[1..]);
    assert patches[k + 2..] == tail[2..];
  }

  lemma PatchedWord(block: seq<byte>, other: seq<byte>, data: seq<byte>, at: nat, value: u32)
    requires Halfway(block, other, data, at) && at + 4 <= |data| && value == Read32(other, at)
    ensures Halfway(block, other, PutWord(data, at, value), at + 4)
  {
    Read32Bytes(other, at, value);
    var next := PutWord(data, at, value);
    forall i | at <= i < at + 4 ensures next[i] == other[i] {
      assert next[i] == Encode32(value)[i - at] == other[at..at + 4][i - at];
    }
  }

  // The same word in both images needs no patch.
  lemma SkippedWord(block: seq<byte>, other: seq<byte>, data: seq<byte>, at: nat)
    requires Halfway(block, other, data, at) && at <= |data| && Slice(block, at, 4) == Slice(other, at, 4)
    ensures Halfway(block, other, data, at + 4)
  {
    forall i | 0 <= i < |data| && at <= i < at + 4 ensures data[i] == other[i] {
      assert Slice(block, at, 4)[i - at] == Slice(other, at, 4)[i - at];
    }
  }

  lemma SliceWord(s: seq<byte>, at: nat)
    requires at + 4 <= |s|
    ensures |Slice(s, at, 4)| == 4 && Read32(Slice(s, at, 4), 0) == Read32(s, at)
  {}

  /** Applying the patches of a block turns its slot A bytes into its slot B bytes. */
  lemma {:induction false} PatchRelocates(h: Header, block: seq<byte>, other: seq<byte>, patches: seq<byte>, count: nat,
                                          i: nat, previous: nat, data: seq<byte>, at: nat)
    requires h.encoding == 0 && |block| == |other| <= BLOCK && at % 4 == 0 && at <= |block| + 3
    requires 2 * count == |patches| && i <= count && (i > 0 ==> previous < at)
    requires Codes(block, other, Delta(h), at).Some?
      && patches[2 * i..] == Words(Codes(block, other, Delta(h), at).value)
    requires Halfway(block, other, data, at)
    ensures Patch(h, 1, patches, count, i, previous, data) == Some(other)
    decreases |block| + 4 - at
  {
    hide Read32, PutWord, Encode32;
    var codes := Codes(block, other, Delta(h), at).value;
    assert |patches[2 * i..]| == 2 * |codes|;
    if at >= |block| {
      assert data == other;
    } else {
      var here := Relocated(Slice(block, at, 4), Slice(other, at, 4), Delta(h), at);
      if here.Same? {
        SkippedWord(block, other, data, at);
        PatchRelocates(h, block, other, patches, count, i, previous, data, at + 4);
      } else {
        var next := MovedWord(h, block, other, patches, count, i, previous, data, at);
        PatchRelocates(h, block, other, patches, count, i + 1, at, next, at + 4);
      }
    }
  }

  // One patch moves one word.
  lemma MovedWord(h: Header, block: seq<byte>, other: seq<byte>, patches: seq<byte>, count: nat, i: nat, previous: nat,
                  data: seq<byte>, at: nat) returns (next: seq<byte>)
    requires h.encoding == 0 && |block| == |other| <= BLOCK && at % 4 == 0 && at < |block|
    requires 2 * count == |patches| && i <= count && (i > 0 ==> previous < at)
    requires Codes(block, other, Delta(h), at).Some?
      && patches[2 * i..] == Words(Codes(block, other, Delta(h), at).value)
    requires Halfway(block, other, data, at) && Relocated(Slice(block, at, 4), Slice(other, at, 4), Delta(h), at).Moved?
    ensures Halfway(block, other, next, at + 4) && i < count
    ensures patches[2 * (i + 1)..] == Words(Codes(block, other, Delta(h), at + 4).value)
    ensures Patch(h, 1, patches, count, i, previous, data) == Patch(h, 1, patches, count, i + 1, at, next)
  {
    hide Read32, PutWord, Encode32, Words, Halfway, Slice, Relocate, Patch, Join;
    var here := Relocated(Slice(block, at, 4), Slice(other, at, 4), Delta(h), at);
    var codes := Codes(block, other, Delta(h), at).value;
    HalfwaySizes(block, other, data, at);
    SliceSizes(block, other, at);
    SliceWord(block, at);
    SliceWord(other, at);
    CodeRange(at, here.code);
    WordsAt(patches, i, codes);
    SameWordRead(block, other, data, at);
    Relocates(h, Read32(block, at), Read32(other, at), at, here.code);
    next := PutWord(data, at, Read32(other, at));
    PatchedWord(block, other, data, at, Read32(other, at));
    PatchStep(h, patches, count, i, previous, data, here.code, at, Read32(other, at));
  }

  lemma Relocates(h: Header, before: u32, after: u32, at: nat, code: nat)
    requires at < BLOCK && at % 4 == 0
    requires
      var change := (after - before) % TWO_32;
      || (change == Delta(h) && code == at / 4)
      || (change == (TWO_32 - Delta(h)) % TWO_32 && code == 0x8000 + at / 4)
    ensures Relocate(h, code, before) == after
  {
    SameChange(before, after, Delta(h));
  }

  lemma PatchStep(h: Header, patches: seq<byte>, count: nat, i: nat, previous: nat, data: seq<byte>, code: nat, at: nat,
                  value: u32)
    requires h.encoding == 0 && 2 * count <= |patches| && i < count && (i > 0 ==> previous < at)
    requires Code(patches, i) == code && code % 256 * 4 == at && (code / 256) % 128 == 0 && at + 4 <= |data|
    requires Relocate(h, code, Read32(data, at)) == value
    ensures Patch(h, 1, patches, count, i, previous, data) ==
      Patch(h, 1, patches, count, i + 1, at, PutWord(data, at, value))
  {
    hide Read32, PutWord, Relocate, Code;
  }

  /** For slot A the same patches are checked and change nothing. */
  lemma {:induction false} PatchKeeps(h: Header, destination: nat, block: seq<byte>, other: seq<byte>,
                                      patches: seq<byte>, count: nat, i: nat, previous: nat, at: nat)
    requires h.encoding == 0 && destination != 1 && |block| == |other| <= BLOCK && at % 4 == 0 && at <= |block| + 3
    requires 2 * count == |patches| && i <= count && (i > 0 ==> previous < at)
    requires Codes(block, other, Delta(h), at).Some?
      && patches[2 * i..] == Words(Codes(block, other, Delta(h), at).value)
    ensures Patch(h, destination, patches, count, i, previous, block) == Some(block)
    decreases |block| + 4 - at
  {
    hide Read32, PutWord, Encode32, Relocate, Slice, Join;
    var codes := Codes(block, other, Delta(h), at).value;
    assert |patches[2 * i..]| == 2 * |codes|;
    if at < |block| {
      var here := Relocated(Slice(block, at, 4), Slice(other, at, 4), Delta(h), at);
      if here.Same? {
        PatchKeeps(h, destination, block, other, patches, count, i, previous, at + 4);
      } else {
        SliceSizes(block, other, at);
        CodeRange(at, here.code);
        WordsAt(patches, i, codes);
        PatchKeeps(h, destination, block, other, patches, count, i + 1, at, at + 4);
      }
    }
  }

  lemma HalfwaySizes(block: seq<byte>, other: seq<byte>, data: seq<byte>, at: nat)
    requires Halfway(block, other, data, at)
    ensures |block| == |other| == |data|
  {}

  lemma SliceSizes(block: seq<byte>, other: seq<byte>, at: nat)
    requires |block| == |other| && at < |block| && |Slice(block, at, 4)| == 4
    ensures at + 4 <= |block|
  {}

  lemma SameWordRead(block: seq<byte>, other: seq<byte>, data: seq<byte>, at: nat)
    requires Halfway(block, other, data, at) && at + 4 <= |data|
    ensures Read32(data, at) == Read32(block, at)
  {}
}
