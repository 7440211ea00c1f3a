/** The update package of lib/update/package.cpp: its header, and the stream
    parser that turns the payload into image blocks, on values. */
module PackageSpec {
  import opened Bytes
  import opened Record
  import opened Layouts
  import opened Flash
  import Crc32

  const HEADER: nat := 128
  const BLOCK: nat := 1024
  const MAX_PATCHES: nat := 256
  const PACKAGE_MAGIC: u32 := 0x50534f44

  // encoding 0 is a relocatable base image for slot A; 1 and 2 are images for
  // slot A or B alone.
  datatype Header = Header(product: u32, revision: u32, imageSize: u32, addressA: u32, addressB: u32,
                           crcA: u32, crcB: u32, encoding: u32, packageSize: u32, version: Version)
  {
    function Crc(slot: nat): u32 { if slot == 0 then crcA else crcB }
  }

  function Blocks(imageSize: nat): nat { (imageSize + BLOCK - 1) / BLOCK }

  function Minimum(imageSize: nat): nat { HEADER + Blocks(imageSize) * 12 + imageSize }

  function ParseHeader(bytes: seq<byte>): Header
    requires |bytes| == HEADER
  {
    Header(Read32(bytes, 12), Read32(bytes, 16), Read32(bytes, 20), Read32(bytes, 24), Read32(bytes, 28),
           Read32(bytes, 32), Read32(bytes, 36), Read32(bytes, 40), Read32(bytes, 104),
           Version(Read32(bytes, 48), Read32(bytes, 52), Read32(bytes, 56), bytes[60..100] + [0], bytes[101] != 0))
  }

  // The header describes an image for this layout and destination.
  predicate Suits(h: Header, l: Layout, destination: nat)
    requires |l.slots| == 2
  {
    && h.imageSize != 0 && h.imageSize <= l.slotSize && h.product == l.product && h.revision == l.revision
    && h.addressA == l.slots[0] && h.addressB == l.slots[1] && h.encoding <= 2
    && (h.encoding == 0 || h.encoding == destination + 1)
    && Minimum(h.imageSize) <= h.packageSize <= Minimum(h.imageSize) + Blocks(h.imageSize) * MAX_PATCHES * 2
  }

  function DecodeHeader(bytes: seq<byte>, l: Layout, destination: nat): (r: (Status, Option<Header>))
    ensures r.0 == Ok <==> r.1.Some?
    ensures r.0 == Ok ==> Valid(l) && destination < 2 && Suits(r.1.value, l, destination)
                          && |r.1.value.version.commit| == 41 && r.1.value.version.commit[40] == 0
  {
    if |bytes| != HEADER || !Valid(l) || destination >= 2 then (InvalidArgument, None)
    else if Read32(bytes, 0) != PACKAGE_MAGIC || Read32(bytes, 4) != 1 || Read32(bytes, 8) != HEADER
            || Read32(bytes, 44) != BLOCK || Read32(bytes, 108) != 0 then (Incompatible, None)
    else if Read32(bytes, 124) != Crc32.Checksum(bytes[..124]) then (ChecksumError, None)
    else if !Suits(ParseHeader(bytes), l, destination) then (Incompatible, None)
    else (Ok, Some(ParseHeader(bytes)))
  }

  // ---- The stream parser ----

  datatype ReaderState = RIdle | RHeader | RPatches | RData | RReady | RDone | RFailed

  // got is what the current stage has received so far.
  datatype Reader = Reader(
    state: ReaderState, header: Option<Header>, destination: nat, starting: bool, releasing: bool,
    offset: nat, length: nat, patchCount: nat, got: seq<byte>, patches: seq<byte>, data: seq<byte>, status: Status)

  const NO_READER: Reader := Reader(RIdle, None, 0, false, false, 0, 0, 0, [], [], [], Ok)

  // How much of the input a stage takes that has `have` of `want` bytes.
  function Taken(input: seq<byte>, have: nat, want: nat): (n: nat)
    ensures n <= |input|
  {
    if have >= want then 0 else if |input| <= want - have then |input| else want - have
  }

  function Min(a: nat, b: nat): nat { if a <= b then a else b }

  function PutWord(data: seq<byte>, at: nat, value: u32): (r: seq<byte>)
    requires at + 4 <= |data|
    ensures |r| == |data|
  {
    data[..at] + Encode32(value) + data[at + 4..]
  }

  function Code(patches: seq<byte>, i: nat): nat
    requires 2 * i + 1 < |patches|
  {
    Join(patches[2 * i], patches[2 * i + 1])
  }

  // One patch: bit 15 subtracts the slot displacement, the low byte is the word.
  function Relocate(h: Header, code: nat, value: u32): u32 {
    var delta := (h.addressB - h.addressA) % TWO_32;
    if code >= 0x8000 then (value - delta) % TWO_32 else (value + delta) % TWO_32
  }

  // Patches from the i-th on, the previous one having been at `previous`.
  function Patch(h: Header, destination: nat, patches: seq<byte>, count: nat, i: nat, previous: nat,
                 data: seq<byte>): (r: Option<seq<byte>>)
    requires 2 * count <= |patches| && i <= count
    ensures r.Some? ==> |r.value| == |data|
    decreases count - i
  {
    if i == count then Some(data)
    else
      var code := Code(patches, i);
      var at := code % 256 * 4;
      if (code / 256) % 128 != 0 || at + 4 > |data| || (i > 0 && at <= previous) || h.encoding != 0 then None
      else
        var next := if destination == 1 then PutWord(data, at, Relocate(h, code, Read32(data, at))) else data;
        Patch(h, destination, patches, count, i + 1, at, next)
  }

  function Fail(r: Reader): Reader { r.(state := RFailed, status := ParseError) }

  function ParseBlock(r: Reader, h: Header, got: seq<byte>): Reader
    requires |got| == 12
  {
    var length, count := Read32(got, 4), Read32(got, 8);
    var r1 := r.(got := got, length := length, patchCount := count);
    if Read32(got, 0) != r.offset || r.offset >= h.imageSize || length != Min(BLOCK, h.imageSize - r.offset)
      || count > MAX_PATCHES then
      Fail(r1)
    else r1.(got := [], patches := [], state := if count > 0 then RPatches else RData)
  }

  function FinishData(r: Reader, h: Header, got: seq<byte>): Reader {
    var patched :=
      if |r.patches| == 2 * r.patchCount then Patch(h, r.destination, r.patches, r.patchCount, 0, 0, got) else None;
    if patched.Some? then r.(got := got, data := patched.value, state := RReady) else Fail(r.(got := got))
  }

  function ReaderStep(r: Reader, h: Header, input: seq<byte>): (Reader, nat) {
    match r.state
    case RHeader =>
      var n := Taken(input, |r.got|, 12);
      var got := r.got + input[..n];
      if |got| == 12 then (ParseBlock(r, h, got), n) else (r.(got := got), n)
    case RPatches =>
      var n := Taken(input, |r.got|, 2 * r.patchCount);
      var got := r.got + input[..n];
      if |got| == 2 * r.patchCount then (r.(got := [], patches := got, state := RData), n) else (r.(got := got), n)
    case RData =>
      var n := Taken(input, |r.got|, r.length);
      var got := r.got + input[..n];
      if |got| == r.length then (FinishData(r, h, got), n) else (r.(got := got), n)
    case RReady =>
      if !r.releasing then (r, 0)
      else
        var offset := r.offset + r.length;
        (r.(releasing := false, offset := offset, got := [], state := if offset == h.imageSize then RDone else RHeader),
         0)
    case RIdle | RDone | RFailed => (r, 0)
  }

  // A restart is accepted in every state.
  function ReaderTick(r: Reader, input: seq<byte>): (Reader, nat) {
    if r.starting then
      (r.(starting := false, releasing := false, offset := 0, length := 0, patchCount := 0, got := [], status := Ok,
          state := RHeader), 0)
    else if r.header.None? then (r, 0)
    else ReaderStep(r, r.header.value, input)
  }

  function ReaderStart(r: Reader, h: Header, destination: nat): Reader {
    r.(header := Some(h), destination := destination, starting := true)
  }
}
