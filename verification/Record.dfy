/** Boot snapshots and their 256-byte journal records (lib/boot/journal.h and the
    codec of lib/boot/journal.cpp). */
module Record {
  import opened Bytes
  import Crc32

  datatype ImageState = Empty | Incomplete | Pending | Trial | Confirmed | Rejected

  // The commit text is 40 bytes and a terminator, as stored.
  datatype Version = Version(major: u32, minor: u32, build: u32, commit: seq<byte>, dirty: bool)

  datatype Image = Image(installation: u64, size: u32, crc: u32, state: ImageState,
                         product: u32, revision: u32, version: Version)

  datatype Snapshot = Snapshot(sequence: u64, counter: u64, a: Image, b: Image) {
    function Slot(slot: nat): Image { if slot == 0 then a else b }

    function With(slot: nat, image: Image): Snapshot {
      if slot == 0 then this.(a := image) else this.(b := image)
    }
  }

  datatype Option<+T> = None | Some(value: T)

  const RECORD: nat := 256
  const MAGIC: u32 := 0x4a534f44
  const COMMIT: u32 := 0x454e4f44
  const COMMIT_COMPLEMENT: u32 := 0xbab1b0bb

  predicate WellFormedImage(image: Image) {
    |image.version.commit| == 41 && image.version.commit[40] == 0
  }

  // What the C++ types guarantee of any snapshot.
  predicate WellFormed(s: Snapshot) {
    WellFormedImage(s.a) && WellFormedImage(s.b)
  }

  // What decoding additionally demands.
  predicate Committable(s: Snapshot) {
    && WellFormed(s)
    && s.sequence != 0
    && s.a.installation <= s.counter
    && s.b.installation <= s.counter
  }

  function StateCode(s: ImageState): u32 {
    match s
    case Empty => 0
    case Incomplete => 1
    case Pending => 2
    case Trial => 3
    case Confirmed => 4
    case Rejected => 5
  }

  function StateOf(code: u32): Option<ImageState> {
    if code == 0 then Some(Empty)
    else if code == 1 then Some(Incomplete)
    else if code == 2 then Some(Pending)
    else if code == 3 then Some(Trial)
    else if code == 4 then Some(Confirmed)
    else if code == 5 then Some(Rejected)
    else None
  }

  function Zeros(n: nat): (s: seq<byte>)
    ensures |s| == n && forall i :: 0 <= i < n ==> s[i] == 0
  {
    seq(n, i => 0)
  }

  // ---- Encoding ----

  function ImageFields(image: Image): (s: seq<byte>)
    ensures |s| == 40
  {
    Encode64(image.installation) + Encode32(image.size) + Encode32(image.crc) +
    Encode32(StateCode(image.state)) + Encode32(image.product) + Encode32(image.revision) +
    Encode32(image.version.major) + Encode32(image.version.minor) + Encode32(image.version.build)
  }

  function ImageBytes(image: Image): (s: seq<byte>)
    requires WellFormedImage(image)
    ensures |s| == 96
  {
    ImageFields(image) + (image.version.commit + [if image.version.dirty then 1 else 0] + Zeros(14))
  }

  function CrcOffset(version: u32): nat { if version == 2 then 220 else 236 }

  function Head(s: Snapshot, version: u32): (h: seq<byte>)
    ensures |h| == 24
  {
    Encode32(MAGIC) + Encode32(version) + Encode64(s.sequence) + Encode64(s.counter)
  }

  function Body(s: Snapshot, version: u32): (b: seq<byte>)
    requires WellFormed(s)
    ensures |b| == CrcOffset(version)
  {
    Head(s, version) + (ImageBytes(s.a) + (ImageBytes(s.b) + Zeros(CrcOffset(version) - 216)))
  }

  function Trailer(sequence: u64, version: u32): (t: seq<byte>)
    ensures |t| == RECORD - 4 - CrcOffset(version)
  {
    Encode32(COMMIT) + Encode64(sequence) + Encode32(COMMIT_COMPLEMENT) +
    Zeros(RECORD - 20 - CrcOffset(version))
  }

  function Encode(s: Snapshot, writeSize: nat): (r: seq<byte>)
    requires WellFormed(s)
    ensures |r| == RECORD
  {
    var version := if writeSize == 32 then 2 else 1;
    Body(s, version) + (Encode32(Crc32.Checksum(Body(s, version))) + Trailer(s.sequence, version))
  }

  // ---- Decoding ----

  function DecodeImage(r: seq<byte>, at: nat): Option<Image>
    requires at + 96 <= |r|
  {
    var state := StateOf(Read32(r, at + 16));
    if state.None? then None
    else Some(Image(Read64(r, at), Read32(r, at + 8), Read32(r, at + 12), state.value,
                    Read32(r, at + 20), Read32(r, at + 24),
                    Version(Read32(r, at + 28), Read32(r, at + 32), Read32(r, at + 36),
                            r[at + 40..at + 80] + [0], r[at + 81] != 0)))
  }

  // The checks on the identifying words, the trailer and the checksum.
  predicate Sealed(r: seq<byte>)
    requires |r| == RECORD
  {
    var version := Read32(r, 4);
    var crc := CrcOffset(version);
    && Read32(r, 0) == MAGIC
    && (version == 1 || version == 2)
    && Read32(r, crc + 4) == COMMIT
    && Read32(r, crc + 16) == COMMIT_COMPLEMENT
    && Read64(r, crc + 8) == Read64(r, 8)
    && Read32(r, crc) == Crc32.Checksum(r[..crc])
    && (version == 2 ==> forall i :: 240 <= i < 256 ==> r[i] == 0)
  }

  function Decode(r: seq<byte>): Option<Snapshot>
    requires |r| == RECORD
  {
    if !Sealed(r) || Read64(r, 8) == 0 then None
    else
      var counter := Read64(r, 16);
      var first := DecodeImage(r, 24);
      var second := DecodeImage(r, 120);
      if first.None? || first.value.installation > counter then None
      else if second.None? || second.value.installation > counter then None
      else Some(Snapshot(Read64(r, 8), counter, first.value, second.value))
  }

  // ---- The round trip ----

  lemma FieldsDecode(image: Image)
    requires WellFormedImage(image)
    ensures var f := ImageFields(image);
            && Read64(f, 0) == image.installation && Read32(f, 8) == image.size
            && Read32(f, 12) == image.crc && Read32(f, 16) == StateCode(image.state)
            && Read32(f, 20) == image.product && Read32(f, 24) == image.revision
  {
    var f := ImageFields(image);
    assert f[0..8] == Encode64(image.installation);
    Read64Bytes(f, 0, image.installation);
    assert f[8..12] == Encode32(image.size);
    Read32Bytes(f, 8, image.size);
    assert f[12..16] == Encode32(image.crc);
    Read32Bytes(f, 12, image.crc);
    assert f[16..20] == Encode32(StateCode(image.state));
    Read32Bytes(f, 16, StateCode(image.state));
    assert f[20..24] == Encode32(image.product);
    Read32Bytes(f, 20, image.product);
    assert f[24..28] == Encode32(image.revision);
    Read32Bytes(f, 24, image.revision);
  }

  lemma VersionFieldsDecode(image: Image)
    requires WellFormedImage(image)
    ensures var f := ImageFields(image);
            && Read32(f, 28) == image.version.major && Read32(f, 32) == image.version.minor
            && Read32(f, 36) == image.version.build
  {
    var f := ImageFields(image);
    assert f[28..32] == Encode32(image.version.major);
    Read32Bytes(f, 28, image.version.major);
    assert f[32..36] == Encode32(image.version.minor);
    Read32Bytes(f, 32, image.version.minor);
    assert f[36..40] == Encode32(image.version.build);
    Read32Bytes(f, 36, image.version.build);
  }

  lemma SameReads(b: seq<byte>, f: seq<byte>)
    requires |f| == 40 && |b| == 96 && b[..40] == f
    ensures Read64(b, 0) == Read64(f, 0)
    ensures forall at :: 0 <= at <= 36 ==> Read32(b, at) == Read32(f, at)
  {
    forall k | 0 <= k < 40 ensures b[k] == f[k] {
      assert b[..40][k] == b[k];
    }
  }

  lemma ImageRoundTrip(image: Image)
    requires WellFormedImage(image)
    ensures DecodeImage(ImageBytes(image), 0) == Some(image)
  {
    var b := ImageBytes(image);
    var tail := image.version.commit + [if image.version.dirty then 1 else 0] + Zeros(14);
    assert b[..40] == ImageFields(image);
    FieldsDecode(image);
    VersionFieldsDecode(image);
    SameReads(b, ImageFields(image));
    assert b[40..] == tail;
    TailDecodes(b, image.version, tail);
  }

  lemma TailDecodes(b: seq<byte>, version: Version, tail: seq<byte>)
    requires |b| == 96 && |version.commit| == 41 && version.commit[40] == 0 && b[40..] == tail
    requires tail == version.commit + [if version.dirty then 1 else 0] + Zeros(14)
    ensures b[40..80] + [0] == version.commit && (b[81] != 0) == version.dirty
  {
    assert b[40..80] == tail[..40] == version.commit[..40];
    assert b[81] == tail[41];
  }

  // Decoding an image looks only at its own 96 bytes.
  lemma DecodeImageLocal(r: seq<byte>, at: nat, b: seq<byte>)
    requires at + 96 <= |r| && |b| == 96 && r[at..at + 96] == b
    ensures DecodeImage(r, at) == DecodeImage(b, 0)
  {
    forall k | 0 <= k < 96 ensures r[at + k] == b[k] {
      assert r[at..at + 96][k] == r[at + k];
    }
    assert r[at + 40..at + 80] == b[40..80];
  }

  lemma HeadReads(r: seq<byte>, s: Snapshot, version: u32)
    requires |r| == RECORD && r[..24] == Head(s, version)
    ensures Read32(r, 0) == MAGIC && Read32(r, 4) == version
    ensures Read64(r, 8) == s.sequence && Read64(r, 16) == s.counter
  {
    var h := r[..24];
    assert r[0..4] == h[0..4] == Encode32(MAGIC);
    Read32Bytes(r, 0, MAGIC);
    assert r[4..8] == h[4..8] == Encode32(version);
    Read32Bytes(r, 4, version);
    assert r[8..16] == h[8..16] == Encode64(s.sequence);
    Read64Bytes(r, 8, s.sequence);
    assert r[16..24] == h[16..24] == Encode64(s.counter);
    Read64Bytes(r, 16, s.counter);
  }

  lemma TrailerReads(r: seq<byte>, at: nat, sequence: u64, version: u32)
    requires |r| == RECORD && at == CrcOffset(version) + 4 && r[at..] == Trailer(sequence, version)
    ensures Read32(r, at) == COMMIT && Read64(r, at + 4) == sequence
    ensures Read32(r, at + 12) == COMMIT_COMPLEMENT
    ensures forall i :: at + 16 <= i < 256 ==> r[i] == 0
  {
    var t := r[at..];
    assert r[at..at + 4] == t[0..4] == Encode32(COMMIT);
    Read32Bytes(r, at, COMMIT);
    assert r[at + 4..at + 12] == t[4..12] == Encode64(sequence);
    Read64Bytes(r, at + 4, sequence);
    assert r[at + 12..at + 16] == t[12..16] == Encode32(COMMIT_COMPLEMENT);
    Read32Bytes(r, at + 12, COMMIT_COMPLEMENT);
    forall i | at + 16 <= i < 256 ensures r[i] == 0 {
      assert r[i] == t[i - at];
    }
  }

  // The parts of an encoded record, by position.
  lemma EncodeParts(s: Snapshot, writeSize: nat, version: u32, r: seq<byte>)
    requires WellFormed(s) && r == Encode(s, writeSize)
    requires version == if writeSize == 32 then 2 else 1
    ensures r[..CrcOffset(version)] == Body(s, version)
    ensures r[CrcOffset(version)..CrcOffset(version) + 4] == Encode32(Crc32.Checksum(Body(s, version)))
    ensures r[CrcOffset(version) + 4..] == Trailer(s.sequence, version)
  {}

  lemma BodyParts(s: Snapshot, version: u32, b: seq<byte>)
    requires WellFormed(s) && b == Body(s, version)
    ensures b[..24] == Head(s, version) && b[24..120] == ImageBytes(s.a)
    ensures b[120..216] == ImageBytes(s.b)
  {}

  lemma EncodeSealed(s: Snapshot, writeSize: nat, version: u32, r: seq<byte>)
    requires WellFormed(s) && r == Encode(s, writeSize)
    requires version == if writeSize == 32 then 2 else 1
    ensures Sealed(r) && Read32(r, 4) == version
    ensures Read64(r, 8) == s.sequence && Read64(r, 16) == s.counter
    ensures r[24..120] == ImageBytes(s.a) && r[120..216] == ImageBytes(s.b)
  {
    var b := Body(s, version);
    EncodeParts(s, writeSize, version, r);
    BodyParts(s, version, b);
    assert r[..24] == b[..24] && r[24..120] == b[24..120] && r[120..216] == b[120..216];
    HeadReads(r, s, version);
    TrailerReads(r, CrcOffset(version) + 4, s.sequence, version);
    Read32Bytes(r, CrcOffset(version), Crc32.Checksum(b));
  }

  /** Encoding then decoding gives back every snapshot the journal can commit, in
      either record format; anything else is refused. */
  lemma RoundTrip(s: Snapshot, writeSize: nat)
    requires WellFormed(s)
    ensures Decode(Encode(s, writeSize)) == if Committable(s) then Some(s) else None
  {
    var r := Encode(s, writeSize);
    EncodeSealed(s, writeSize, if writeSize == 32 then 2 else 1, r);
    SealedDecodes(s, r);
  }

  lemma SealedDecodes(s: Snapshot, r: seq<byte>)
    requires WellFormed(s) && |r| == RECORD && Sealed(r)
    requires Read64(r, 8) == s.sequence && Read64(r, 16) == s.counter
    requires r[24..120] == ImageBytes(s.a) && r[120..216] == ImageBytes(s.b)
    ensures Decode(r) == if Committable(s) then Some(s) else None
  {
    assert DecodeImage(r, 24) == Some(s.a) by {
      DecodeImageLocal(r, 24, ImageBytes(s.a));
      ImageRoundTrip(s.a);
    }
    assert DecodeImage(r, 120) == Some(s.b) by {
      DecodeImageLocal(r, 120, ImageBytes(s.b));
      ImageRoundTrip(s.b);
    }
  }

  lemma DecodeCommittable(r: seq<byte>)
    requires |r| == RECORD && Decode(r).Some?
    ensures Committable(Decode(r).value)
  {}
}
