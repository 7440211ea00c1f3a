/** What a partly programmed journal record can decode to, and the journal record
    format as the rest of the journal sees it. */
module TornRecord {
  import opened Bytes
  import opened Record
  import Crc32

  // c agrees with e below offset, holds anything in the write unit there, and is
  // blank after it.
  predicate TornShape(e: seq<int>, writeSize: nat, offset: nat, c: seq<int>) {
    && |e| == |c| == RECORD && offset + writeSize <= RECORD
    && Aligned(offset, writeSize)
    && (forall i :: 0 <= i < offset ==> c[i] == e[i])
    && (forall i :: offset + writeSize <= i < RECORD ==> c[i] == BLANK)
  }

  predicate Aligned(offset: nat, writeSize: nat) {
    if writeSize == 32 then offset % 32 == 0 else offset % 16 == 0
  }

  // The commit trailer of a record fills the whole last write unit: version 1
  // does so for 16-byte units, version 2 for both sizes.
  predicate Native(r: seq<byte>, writeSize: nat)
    requires |r| == RECORD
  {
    (writeSize == 16 || writeSize == 32) && (writeSize == 32 ==> Read32(r, 4) == 2)
  }

  lemma SamePrefix(c: seq<byte>, e: seq<byte>, n: nat)
    requires |c| == |e| == RECORD && 16 <= n <= RECORD && forall i :: 0 <= i < n ==> c[i] == e[i]
    ensures Read32(c, 0) == Read32(e, 0) && Read32(c, 4) == Read32(e, 4) && Read64(c, 8) == Read64(e, 8)
  {}

  lemma SameWord(c: seq<byte>, e: seq<byte>, at: nat)
    requires |c| == |e| && at + 4 <= |c| && Read32(c, at) == Read32(e, at)
    ensures forall i :: at <= i < at + 4 ==> c[i] == e[i]
  {
    Read32Bytes(c, at, Read32(e, at));
    Read32Bytes(e, at, Read32(e, at));
    forall i | at <= i < at + 4 ensures c[i] == e[i] {
      assert c[at..at + 4][i - at] == e[at..at + 4][i - at];
    }
  }

  lemma SameLongWord(c: seq<byte>, e: seq<byte>, at: nat)
    requires |c| == |e| && at + 8 <= |c| && Read64(c, at) == Read64(e, at)
    ensures forall i :: at <= i < at + 8 ==> c[i] == e[i]
  {
    SameHalves(Read32(c, at), Read32(c, at + 4), Read32(e, at), Read32(e, at + 4));
    SameWord(c, e, at);
    SameWord(c, e, at + 4);
  }

  lemma SameHalves(a: u32, b: u32, c: u32, d: u32)
    requires a + TWO_32 * b == c + TWO_32 * d
    ensures a == c && b == d
  {}

  // Sealed records that agree below the last write unit are the same record.
  lemma SealedUnit(c: seq<byte>, e: seq<byte>, offset: nat)
    requires |c| == |e| == RECORD && Sealed(c) && Sealed(e)
    requires offset == 240 || (offset == 224 && Read32(e, 4) == 2)
    requires forall i :: 0 <= i < offset ==> c[i] == e[i]
    ensures c == e
  {
    hide Sealed;
    SamePrefix(c, e, offset);
    SealedWords(c);
    SealedWords(e);
    var at := CrcOffset(Read32(e, 4)) + 4;
    SameWord(c, e, at);
    SameLongWord(c, e, at + 4);
    SameWord(c, e, at + 12);
  }

  lemma SealedWords(c: seq<byte>)
    requires |c| == RECORD && Sealed(c)
    ensures Read32(c, 4) == 1 || Read32(c, 4) == 2
    ensures var at := CrcOffset(Read32(c, 4)) + 4;
            Read32(c, at) == COMMIT && Read64(c, at + 4) == Read64(c, 8) && Read32(c, at + 12) == COMMIT_COMPLEMENT
    ensures Read32(c, 4) == 2 ==> forall i :: 240 <= i < 256 ==> c[i] == 0
  {}

  // A record whose last byte is still blank is not sealed.
  lemma BlankTail(c: seq<byte>)
    requires |c| == RECORD && c[255] == BLANK
    ensures !Sealed(c)
  {
    if Sealed(c) {
      hide Sealed;
      SealedWords(c);
    }
  }

  /** A record whose programming was interrupted decodes only if it is the record
      that was being written. No property of the checksum is used. */
  lemma TornProgram(e: seq<byte>, writeSize: nat, offset: nat, c: seq<byte>)
    requires TornShape(e, writeSize, offset, c) && Sealed(e) && Native(e, writeSize) && Sealed(c)
    ensures c == e
  {
    hide Sealed;
    if offset + writeSize < RECORD {
      BlankTail(c);
    } else {
      SealedUnit(c, e, offset);
    }
  }

  // A version 1 record with one reserved byte changed and its checksum renewed.
  function Forged(e: seq<byte>): (c: seq<byte>)
    requires |e| == RECORD
    ensures |c| == RECORD
  {
    var body := e[..224] + [if e[224] == 0 then 1 else 0] + e[225..236];
    body + (Encode32(Crc32.Checksum(body)) + e[240..])
  }

  lemma ForgedParts(e: seq<byte>)
    requires |e| == RECORD
    ensures var c := Forged(e);
            && c[224] != e[224]
            && (forall i :: 0 <= i < 224 || 240 <= i < RECORD ==> c[i] == e[i])
            && c[236..240] == Encode32(Crc32.Checksum(c[..236]))
  {
    var body := e[..224] + [if e[224] == 0 then 1 else 0] + e[225..236];
    assert Forged(e)[..236] == body;
  }

  lemma SameReads(c: seq<byte>, e: seq<byte>)
    requires |c| == |e| == RECORD && forall i :: 0 <= i < 224 || 240 <= i < RECORD ==> c[i] == e[i]
    ensures Read32(c, 0) == Read32(e, 0) && Read32(c, 4) == Read32(e, 4) && Read64(c, 8) == Read64(e, 8)
      && Read64(c, 16) == Read64(e, 16)
    ensures Read32(c, 240) == Read32(e, 240) && Read64(c, 244) == Read64(e, 244) && Read32(c, 252) == Read32(e, 252)
  {}

  /** Without the native format the property fails: a version 1 record in 32-byte
      units shares its last unit with reserved bytes and the checksum, so the unit can
      be torn into another sealed record of the same snapshot. */
  lemma ForeignTears(e: seq<byte>)
    requires |e| == RECORD && Sealed(e) && Read32(e, 4) == 1
    ensures var c := Forged(e);
            TornShape(e, 32, 224, c) && Sealed(c) && Decode(c) == Decode(e) && c != e
  {
    hide Forged, Read32, Read64;
    var c := Forged(e);
    ForgedParts(e);
    SameReads(c, e);
    Read32Bytes(c, 236, Crc32.Checksum(c[..236]));
    assert c[24..120] == e[24..120] && c[120..216] == e[120..216];
    DecodeImageLocal(c, 24, e[24..120]);
    DecodeImageLocal(e, 24, e[24..120]);
    DecodeImageLocal(c, 120, e[120..216]);
    DecodeImageLocal(e, 120, e[120..216]);
  }

  /** Interrupted programming can only leave the record itself, or nothing that
      decodes, exactly if the record is native to the write unit. */
  lemma NativeExactly(e: seq<byte>, writeSize: nat)
    requires |e| == RECORD && Sealed(e) && (writeSize == 16 || writeSize == 32)
    ensures (forall offset: nat, c: seq<byte> :: TornShape(e, writeSize, offset, c) && Sealed(c) ==> c == e) <==>
      Native(e, writeSize)
  {
    hide Sealed;
    SealedWords(e);
    if Native(e, writeSize) {
      forall offset: nat, c: seq<byte> | TornShape(e, writeSize, offset, c) && Sealed(c) ensures c == e {
        TornProgram(e, writeSize, offset, c);
      }
    } else {
      ForeignTears(e);
    }
  }
}

module Formats {
  import opened Bytes
  import opened Record
  import opened TornRecord

  // peek reads the sequence number from an identified header; native says that
  // the commit trailer fills the last write unit.
  datatype Format = Format(encode: Snapshot -> seq<int>, peek: seq<int> -> Option<int>,
                           decode: seq<int> -> Option<Snapshot>, native: seq<int> -> bool)

  // The format of lib/boot/journal.cpp for a write unit of 16 or 32 bytes.
  function Standard(writeSize: nat): Format {
    Format(s => if WellFormed(s) then Encode(s, writeSize) else Fill(RECORD, 0),
           h => if |h| == 16 && AllBytes(h) then Peek(h) else None,
           c => if |c| == RECORD && AllBytes(c) then Decode(c) else None,
           c => |c| == RECORD && AllBytes(c) && Native(c, writeSize))
  }

  function Peek(h: seq<byte>): Option<int>
    requires |h| == 16
  {
    if Read32(h, 0) == MAGIC && (Read32(h, 4) == 1 || Read32(h, 4) == 2) then Some(Read64(h, 8)) else None
  }

  // What the journal relies on.
  ghost predicate Lawful(f: Format, writeSize: nat) {
    && (forall s :: |f.encode(s)| == RECORD)
    && (forall s :: f.decode(f.encode(s)) == (if Committable(s) then Some(s) else None))
    && (forall s :: Committable(s) ==> f.native(f.encode(s)))
    && (forall c :: f.decode(c).Some? ==>
          |c| == RECORD && AllBytes(c) && f.peek(c[..16]) == Some(f.decode(c).value.sequence)
          && Committable(f.decode(c).value))
    && (forall e, c, offset ::
          TornShape(e, writeSize, offset, c) && f.native(e) && f.decode(e).Some? && f.decode(c).Some? ==> c == e)
    && (forall c :: |c| == RECORD && c[RECORD - 1] == BLANK ==> f.decode(c).None?)
  }

  lemma DecodedHeader(c: seq<byte>)
    requires |c| == RECORD && Decode(c).Some?
    ensures Peek(c[..16]) == Some(Decode(c).value.sequence) && Committable(Decode(c).value) && Sealed(c)
  {
    hide DecodeImage, Sealed, Committable;
    assert Decode(c).value.sequence == Read64(c, 8);
    HeaderReads(c);
    DecodeCommittable(c);
  }

  lemma HeaderReads(c: seq<byte>)
    requires |c| == RECORD && Sealed(c)
    ensures Peek(c[..16]) == Some(Read64(c, 8))
  {
    hide Read64;
    var h := c[..16];
    assert Read32(h, 0) == Read32(c, 0) && Read32(h, 4) == Read32(c, 4);
    SameHeader(c, h);
  }

  lemma SameHeader(c: seq<byte>, h: seq<byte>)
    requires |c| == RECORD && h == c[..16]
    ensures Read64(h, 8) == Read64(c, 8)
  {
    assert Read32(h, 8) == Read32(c, 8) && Read32(h, 12) == Read32(c, 12);
  }

  lemma EncodedNative(s: Snapshot, writeSize: nat)
    requires WellFormed(s) && (writeSize == 16 || writeSize == 32)
    ensures AllBytes(Encode(s, writeSize)) && Native(Encode(s, writeSize), writeSize)
  {
    hide Sealed, Body, Trailer, Encode;
    EncodeSealed(s, writeSize, if writeSize == 32 then 2 else 1, Encode(s, writeSize));
  }

  lemma ZerosRefused(c: seq<byte>)
    requires c == Fill(RECORD, 0)
    ensures Decode(c).None?
  {
    assert Read32(c, 0) == 0;
  }

  /** The record format of the source satisfies every law the journal needs. */
  lemma StandardLawful(writeSize: nat)
    requires writeSize == 16 || writeSize == 32
    ensures Lawful(Standard(writeSize), writeSize)
  {
    hide Sealed, Decode, Encode, Native, Peek;
    var f := Standard(writeSize);
    forall s ensures |f.encode(s)| == RECORD && f.decode(f.encode(s)) == (if Committable(s) then Some(s) else None)
      ensures Committable(s) ==> f.native(f.encode(s))
    {
      if WellFormed(s) {
        EncodedNative(s, writeSize);
        RoundTrip(s, writeSize);
      } else {
        ZerosRefused(Fill(RECORD, 0));
      }
    }
    forall c | f.decode(c).Some?
      ensures f.peek(c[..16]) == Some(f.decode(c).value.sequence) && Committable(f.decode(c).value)
    {
      DecodedHeader(c);
    }
    forall e, c, offset | TornShape(e, writeSize, offset, c) && f.native(e) && f.decode(e).Some? && f.decode(c).Some?
      ensures c == e
    {
      DecodedHeader(e);
      DecodedHeader(c);
      TornProgram(e, writeSize, offset, c);
    }
    forall c | |c| == RECORD && c[RECORD - 1] == BLANK ensures f.decode(c).None? {
      if f.decode(c).Some? {
        DecodedHeader(c);
        BlankTail(c);
      }
    }
  }
}
