/** Crash safety of the write-once serial number. */
module OtpSafety {
  import opened Bytes
  import opened Layouts
  import opened OtpSpec
  import Crc32

  // ---- The checksum seals the type ----

  // Numbers of n binary digits, as an integer and as a byte.
  function Bound(n: nat): nat { if n == 0 then 1 else 2 * Bound(n - 1) }

  function Limit(n: nat): bv8 { if n == 0 then 1 else Crc32.Append(Limit(n - 1), false) }

  lemma AppendBelow(x: bv8, limit: bv8, bit: bool)
    requires x < limit <= 64
    ensures Crc32.Append(x, bit) < Crc32.Append(limit, false)
  {}

  lemma AppendInjective(x: bv8, y: bv8, p: bool, q: bool)
    requires x < 128 && y < 128 && Crc32.Append(x, p) == Crc32.Append(y, q)
    ensures x == y && p == q
  {}

  lemma Limits()
    ensures Limit(1) == 2 && Limit(2) == 4 && Limit(3) == 8 && Limit(4) == 16 && Limit(5) == 32 && Limit(6) == 64
      && Limit(7) == 128
  {
    assert Limit(1) == 2 && Limit(2) == 4 && Limit(3) == 8 && Limit(4) == 16;
    assert Limit(5) == 32;
    assert Limit(6) == 64;
  }

  lemma {:induction false} BinaryBelow(a: nat, n: nat)
    requires n <= 7
    ensures Crc32.Binary(a, n) < Limit(n)
  {
    hide Crc32.Append;
    if n > 0 {
      BinaryBelow(a / 2, n - 1);
      LimitBelow(n - 1);
      AppendBelow(Crc32.Binary(a / 2, n - 1), Limit(n - 1), a % 2 == 1);
    }
  }

  lemma LimitBelow(n: nat)
    requires n <= 7
    ensures Limit(n) <= 128 && (n <= 6 ==> Limit(n) <= 64)
  {
    hide Limit, Crc32.Append;
    Limits();
    if n == 0 { LimitZero(); }
  }

  lemma LimitZero()
    ensures Limit(0) == 1
  {}

  lemma {:induction false} BinaryInjective(a: nat, b: nat, n: nat)
    requires n <= 8 && a < Bound(n) && b < Bound(n) && Crc32.Binary(a, n) == Crc32.Binary(b, n)
    ensures a == b
  {
    hide Crc32.Append, Limit;
    if n > 0 {
      BinaryBelow(a / 2, n - 1);
      BinaryBelow(b / 2, n - 1);
      LimitBelow(n - 1);
      AppendInjective(Crc32.Binary(a / 2, n - 1), Crc32.Binary(b / 2, n - 1), a % 2 == 1, b % 2 == 1);
      BinaryInjective(a / 2, b / 2, n - 1);
    }
  }

  lemma BitsInjective(v: seq<byte>, w: seq<byte>)
    requires |v| == |w| && Crc32.Bits(v) == Crc32.Bits(w)
    ensures v == w
  {
    hide Crc32.Binary;
    assert Bound(8) == 256;
    forall i | 0 <= i < |v| ensures v[i] == w[i] {
      assert Crc32.Bits(v)[i] == Crc32.Binary(v[i], 8) && Crc32.Bits(w)[i] == Crc32.Binary(w[i], 8);
      BinaryInjective(v[i], w[i], 8);
    }
  }

  lemma SameNumber(x: bv32, y: bv32)
    requires x as int == y as int
    ensures x == y
  {
    NumberRoundTrip(x);
    NumberRoundTrip(y);
  }

  lemma BitsThree(a: seq<byte>, b: seq<byte>, c: seq<byte>)
    ensures Crc32.Bits(a + b + c) == Crc32.Bits(a) + Crc32.Bits(b) + Crc32.Bits(c)
  {}

  // Sums over two pieces agree only if the two leading bytes do.
  lemma LeadingBytes(v: seq<byte>, w: seq<byte>, middle: seq<byte>, tail: seq<byte>)
    requires |v| == |w| == 2
    requires Standard32(Standard32(0, v + middle), tail) == Standard32(Standard32(0, w + middle), tail)
    ensures v == w
  {
    hide Crc32.Update, Crc32.Bits, Standard32;
    StandardSplits();
    assert Standard32(0, v + middle + tail) == Standard32(0, w + middle + tail);
    StandardBurst(v, w, middle + tail);
  }

  lemma StandardBurst(v: seq<byte>, w: seq<byte>, tail: seq<byte>)
    requires |v| == |w| == 2 && Standard32(0, v + tail) == Standard32(0, w + tail)
    ensures v == w
  {
    hide Crc32.Update, Crc32.Bits;
    BitsThree([], v, tail);
    BitsThree([], w, tail);
    assert [] + v + tail == v + tail && [] + w + tail == w + tail;
    SameNumber(Crc32.Update(0, Crc32.Bits(v + tail)), Crc32.Update(0, Crc32.Bits(w + tail)));
    Crc32.BurstDetected(0, Crc32.Bits([]), Crc32.Bits(v), Crc32.Bits(w), Crc32.Bits(tail));
    BitsInjective(v, w);
  }

  /** Of all the types a torn commit could claim, only the intended one passes the
      record's own checksum. */
  lemma TypeSealed(record: seq<byte>, forged: seq<byte>)
    requires |record| == |forged| == RECORD_BYTES && record[2..] == forged[2..]
    requires ValidRecord(record) && ValidRecord(forged)
    ensures forged == record
  {
    hide Standard32, Read16;
    assert record[..4] == record[..2] + record[2..][..2] && forged[..4] == forged[..2] + record[2..][..2];
    assert record[8..] == record[2..][6..] && forged[8..] == forged[2..][6..];
    SameStored(record, forged);
    LeadingBytes(record[..2], forged[..2], record[2..][..2], record[8..]);
    assert record == record[..2] + record[2..] && forged == forged[..2] + forged[2..];
  }

  lemma SameStored(record: seq<byte>, forged: seq<byte>)
    requires |record| == |forged| == RECORD_BYTES && record[2..] == forged[2..]
    ensures Read32(record, 4) == Read32(forged, 4)
  {
    assert forall i :: 2 <= i < RECORD_BYTES ==> record[i] == record[2..][i - 2] && forged[i] == forged[2..][i - 2];
  }

  // ---- The record of a serial number ----

  /** A serial number can be read back from its record. */
  lemma SerialRoundTrip(value: seq<byte>)
    requires ValidSerial(value)
    ensures var r := SerialRecord(value);
            ValidRecord(r) && Read16(r, 0) == SERIAL && PayloadOf(r) == value
  {
    hide Standard32, Encode32, Read32;
    var r := SerialRecord(value);
    var head: seq<byte> := [1, 0, |value|, 0];
    var tail := value + Ones(PAYLOAD - |value|);
    SumRange(head, tail);
    assert r[..4] == head && r[8..] == tail && r[4..8] == Encode32(Sum32(head, tail));
    Read32Bytes(r, 4, Sum32(head, tail));
    assert r[8..8 + |value|] == tail[..|value|] == value;
    assert forall i :: 8 <= i < RECORD_BYTES ==> r[i] == tail[i - 8];
  }

  lemma StandardRange(v: int, bytes: seq<int>)
    ensures 0 <= Standard32(v, bytes) < TWO_32
  {
    hide Crc32.Update, Crc32.Bits;
    if 0 <= v < TWO_32 && AllBytes(bytes) {
      NumberRoundTrip(Crc32.Update(v as bv32, Crc32.Bits(bytes)));
    }
  }

  lemma SumRange(head: seq<byte>, tail: seq<byte>)
    ensures Sum32(head, tail) == Standard32(Standard32(0, head), tail)
  {
    hide Standard32;
    StandardRange(Standard32(0, head), tail);
  }

  // ---- Words ----

  lemma WordSet(cells: seq<int>, i: nat, word: seq<int>, k: nat)
    requires |cells| == CELLS && i < 16 && k < 16 && |word| == 16
    ensures Word(SetWord(cells, i, word), k) == if k == i then word else Word(cells, k)
  {
    var after := SetWord(cells, i, word);
    var x := Word(after, k);
    var y := if k == i then word else Word(cells, k);
    forall m | 0 <= m < 16 ensures x[m] == y[m] {
      assert x[m] == after[16 * k + m];
    }
  }

  // The first six words make up the head.
  lemma HeadWords(cells: seq<int>, after: seq<int>)
    requires |cells| == |after| == CELLS && forall k :: 0 <= k < 6 ==> Word(after, k) == Word(cells, k)
    ensures after[..96] == cells[..96]
  {
    forall m | 0 <= m < 96 ensures after[m] == cells[m] {
      var k := m / 16;
      assert Word(after, k)[m - 16 * k] == after[m] && Word(cells, k)[m - 16 * k] == cells[m];
    }
  }

  lemma MarkerFirst(block: nat, kind: u32, body: seq<byte>)
    requires block < BLOCKS
    ensures Marker(COMMIT, block, kind, body)[0] == 0x4f && Marker(CLAIM, block, kind, body)[0] == 0x4f
    ensures Marker(LOCK, block, kind, body)[0] == 0x4f
  {
    hide Sum32;
  }

  // Only written cells that were blank.
  ghost predicate OnlyBlank(before: seq<int>, after: seq<int>) {
    |after| == |before| && forall i :: 0 <= i < |before| && after[i] != before[i] ==> before[i] == BLANK
  }

  lemma BlankWordSet(cells: seq<int>, i: nat, word: seq<int>)
    requires |cells| == CELLS && i < 16 && |word| == 16 && Blank(Word(cells, i))
    ensures OnlyBlank(cells, SetWord(cells, i, word))
  {
    forall m | 16 * i <= m < 16 * i + 16 ensures cells[m] == BLANK {
      assert cells[m] == Word(cells, i)[m - 16 * i];
    }
  }

  lemma OnlyBlankChain(a: seq<int>, b: seq<int>, c: seq<int>)
    requires OnlyBlank(a, b) && OnlyBlank(b, c)
    ensures OnlyBlank(a, c)
  {}

  // ---- A block under construction ----

  // The claim and the first k body words are in place; the rest is blank.
  ghost predicate Built(cells: seq<int>, block: nat, record: seq<byte>, k: nat) {
    && |cells| == CELLS && block < BLOCKS && |record| == RECORD_BYTES && k <= 4
    && Word(cells, 0) == Marker(CLAIM, block, 1, [])
    && (forall j :: 0 <= j < k ==> Word(cells, 1 + j) == BodyWord(Body(record), j))
    && (forall j :: 1 + k <= j < 16 ==> Blank(Word(cells, j)))
  }

  // Without a commit word there is no record.
  lemma NoCommit(cells: seq<int>, block: nat, attempted: bool)
    requires |cells| == CELLS && block < BLOCKS && Blank(Word(cells, 5))
    ensures Classify(Inspect(cells, block, attempted)) in {KUnused, KInvalid, KUnreadable}
  {
    hide Marker, Standard32;
    if AllBytes(cells[..96]) {
      var head: seq<byte> := cells[..96];
      assert head[80] == Word(cells, 5)[0] == BLANK;
      MarkerFirst(block, Read32(head, 88), head[16..80]);
      assert head[80..96][0] == BLANK;
    }
    assert !ValidRecord(Ones(RECORD_BYTES));
  }

  lemma HeadBody(cells: seq<int>, block: nat, record: seq<byte>)
    requires |cells| == CELLS && block < BLOCKS && |record| == RECORD_BYTES
    requires forall j :: 0 <= j < 4 ==> Word(cells, 1 + j) == BodyWord(Body(record), j)
    ensures cells[16..80] == Body(record)
  {
    forall m | 0 <= m < 64 ensures cells[16 + m] == Body(record)[m] {
      var k := m / 16;
      assert Word(cells, 1 + k)[m - 16 * k] == cells[16 + m]
        && BodyWord(Body(record), k)[m - 16 * k] == Body(record)[m];
    }
  }

  /** Whatever a torn commit word holds, the block reads as the intended record or
      as no valid record. */
  lemma TornCommit(cells: seq<int>, block: nat, record: seq<byte>, attempted: bool)
    requires |cells| == CELLS && block < BLOCKS && |record| == RECORD_BYTES && ValidRecord(record)
    requires forall j :: 0 <= j < 4 ==> Word(cells, 1 + j) == BodyWord(Body(record), j)
    ensures var v := Inspect(cells, block, attempted);
            Classify(v) == KValid ==> v.record == record && v.storage == Consumed
  {
    hide Marker, Standard32, ValidRecord, Read32, Read16;
    HeadBody(cells, block, record);
    var v := Inspect(cells, block, attempted);
    if Classify(v) == KValid {
      OnesInvalid();
      var head: seq<byte> := cells[..96];
      assert head[18..80] == cells[16..80][2..] == record[2..];
      assert v.record[2..] == record[2..];
      TypeSealed(record, v.record);
    }
  }

  lemma OnesInvalid()
    ensures !ValidRecord(Ones(RECORD_BYTES))
  {}

  /** A completed block reads as its record. */
  lemma CompleteBlock(cells: seq<int>, block: nat, record: seq<byte>, attempted: bool)
    requires |cells| == CELLS && block < BLOCKS && |record| == RECORD_BYTES && ValidRecord(record)
    requires Word(cells, 0) == Marker(CLAIM, block, 1, [])
    requires forall j :: 0 <= j < 4 ==> Word(cells, 1 + j) == BodyWord(Body(record), j)
    requires Word(cells, 5) == Marker(COMMIT, block, Read16(record, 0), Body(record))
    ensures var v := Inspect(cells, block, attempted);
            v.storage == Consumed && v.record == record
  {
    hide Standard32, Sum32, RecordSum;
    HeadBody(cells, block, record);
    var kind := Read16(record, 0);
    var claim, commit := Marker(CLAIM, block, 1, []), Marker(COMMIT, block, kind, Body(record));
    assert cells[0..16] == claim && cells[80..96] == commit;
    assert AllBytes(cells[..96]) by {
      forall m | 0 <= m < 96 ensures 0 <= cells[m] < 256 {
        assert m < 16 ==> cells[m] == claim[m];
        assert 16 <= m < 80 ==> cells[m] == cells[16..80][m - 16];
        assert 80 <= m ==> cells[m] == commit[m - 80];
      }
    }
    var head: seq<byte> := cells[..96];
    assert head[80..96] == commit && head[..16] == claim && head[16..80] == Body(record);
    assert head[88..92] == commit[8..12] == Encode32(kind);
    Read32Bytes(head, 88, kind);
    MarkerFirst(block, 1, []);
    assert cells[0] == claim[0];
    assert [kind % 256, kind / 256] + head[18..80] == record by {
      assert head[18..80] == head[16..80][2..] == record[2..];
      KindBytes(record);
      assert record == [record[0], record[1]] + record[2..];
    }
  }

  lemma KindBytes(record: seq<byte>)
    requires |record| == RECORD_BYTES
    ensures Read16(record, 0) % 256 == record[0] && Read16(record, 0) / 256 == record[1]
      && Read16(record, 0) <= UNWRITTEN
  {}
}
