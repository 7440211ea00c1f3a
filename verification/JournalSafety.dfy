/** The journal as one atomic durable cell: whatever an interruption leaves, load
    finds the old snapshot or the new one. */
module JournalSafety {
  import opened Bytes
  import opened Record
  import opened TornRecord
  import opened Formats
  import opened Layouts
  import opened Flash
  import opened JournalSpec
  import opened JournalLoad

  // The codec and the checksum are lawful, and searches of a sector end.
  ghost predicate Ready(l: Layout) { Lawful(l.format, l.writeSize) && Splits(l.crc) && Searchable(l) }

  /** The durable snapshot is unique. */
  lemma HoldsUnique(l: Layout, mem: seq<int>, s: Snapshot, t: Snapshot)
    requires Ready(l) && Holds(l, mem, s) && Holds(l, mem, t)
    ensures s == t
  {
    hide Holds;
    LoadHolds(l, mem, s);
    LoadHolds(l, mem, t);
  }

  /** The record format and the checksum of the source meet every assumption. */
  lemma StandardReady(l: Layout)
    requires Valid(l) && Searchable(l) && l.format == Standard(l.writeSize) && l.crc == Standard32
    ensures Ready(l)
  {
    StandardLawful(l.writeSize);
    StandardSplits();
  }

  /** A torn copy of the newest record that is not native makes load report a conflict. */
  lemma TornCopyRefused(l: Layout, mem: seq<int>, n: nat, m: nat)
    requires l.writeSize == 32 && l.format == Standard(32) && Fits(l, mem) && n < 2 * Records(l) && m < 2 * Records(l)
    requires Dec(l, mem, n).Some? && Read32(Rec(l, mem, n), 4) == 1 && Rec(l, mem, m) == Forged(Rec(l, mem, n))
    requires forall k :: 0 <= k < 2 * Records(l) && Dec(l, mem, k).Some? ==>
      Dec(l, mem, k).value.sequence <= Dec(l, mem, n).value.sequence
    ensures LoadStatus(ScanTo(l, mem, 2 * Records(l))) == ChecksumError
  {
    hide Fits, Valid, ScanTo, Forged, Sealed, Decode, Lawful, Records;
    StandardLawful(32);
    var e: seq<byte> := Rec(l, mem, n);
    Formats.DecodedHeader(e);
    ForeignTears(e);
    ConflictReported(l, mem, m, n);
  }

  // ---- Operations that keep the durable snapshot ----

  // s is also stored outside sector b.
  ghost predicate Elsewhere(l: Layout, mem: seq<int>, b: nat, s: Snapshot)
    requires Fits(l, mem)
  {
    exists n :: 0 <= n < 2 * Records(l) && Bank(l, n) != b && Dec(l, mem, n) == Some(s)
  }

  // Record n holds the first k bytes of e and is blank after them.
  ghost predicate Partial(l: Layout, mem: seq<int>, n: nat, e: seq<int>, k: nat)
    requires Fits(l, mem) && n < 2 * Records(l)
  {
    && |e| == RECORD && k <= RECORD
    && (forall i :: 0 <= i < k ==> Rec(l, mem, n)[i] == e[i])
    && (forall i :: k <= i < RECORD ==> Rec(l, mem, n)[i] == BLANK)
  }

  ghost predicate Successor(l: Layout, e: seq<int>, s: Snapshot, t: Snapshot) {
    && l.format.native(e) && l.format.decode(e) == Some(t)
    && t.sequence == s.sequence + 1 && t.counter >= s.counter
  }

  ghost predicate Copy(l: Layout, mem: seq<int>, e: seq<int>, s: Snapshot)
    requires Fits(l, mem)
  {
    && l.format.native(e) && l.format.decode(e) == Some(s)
    && forall m :: 0 <= m < 2 * Records(l) && Dec(l, mem, m).Some? && Dec(l, mem, m).value.sequence == s.sequence ==>
         Rec(l, mem, m) == e
  }

  // Completing record e turns the durable s into t, or adds a copy of s.
  ghost predicate Publishes(l: Layout, mem: seq<int>, e: seq<int>, s: Snapshot, t: Snapshot)
    requires Fits(l, mem)
  {
    Successor(l, e, s, t) || Copy(l, mem, e, s)
  }

  ghost predicate OffMetadata(l: Layout, a: nat, n: nat)
    requires Valid(l)
  {
    Disjoint(a, n, l.metadata[0], l.sectorSize) && Disjoint(a, n, l.metadata[1], l.sectorSize)
  }

  ghost predicate ErasesBank(l: Layout, op: Op, b: nat)
    requires Valid(l)
  {
    b < 2 && op == EraseOp(l.metadata[b], l.sectorSize)
  }

  ghost predicate ProgramsRecord(l: Layout, d: Device, n: nat, e: seq<int>, k: nat)
    requires Fits(l, d.mem)
  {
    && n < 2 * Records(l) && |e| == RECORD && k + l.writeSize <= RECORD && Aligned(k, l.writeSize)
    && Partial(l, d.mem, n, e, k)
    && d.op == ProgramOp(At(l, n) + k, e[k..k + l.writeSize])
  }

  // The operation in flight can only leave s durable, or publish t.
  ghost predicate OpSafe(l: Layout, d: Device, s: Snapshot, t: Snapshot)
    requires Fits(l, d.mem)
  {
    || d.op.NoOp?
    || OffMetadata(l, Start(d.op), Size(d.op))
    || (exists b :: ErasesBank(l, d.op, b) && Elsewhere(l, d.mem, b, s))
    || (exists n, e, k :: ProgramsRecord(l, d, n, e, k) && Publishes(l, d.mem, e, s, t))
  }

  ghost predicate Cell(l: Layout, d: Device, s: Snapshot, t: Snapshot) {
    Fits(l, d.mem) && Holds(l, d.mem, s) && OpSafe(l, d, s, t)
  }

  // ---- Memory lemmas ----

  lemma HoldsSame(l: Layout, mem: seq<int>, after: seq<int>, s: Snapshot)
    requires Holds(l, mem, s) && |after| == |mem|
    requires forall n :: 0 <= n < 2 * Records(l) ==> Rec(l, after, n) == Rec(l, mem, n)
    ensures Holds(l, after, s)
  {
    FitsSame(l, mem, after);
    hide Fits;
    var n :| 0 <= n < 2 * Records(l) && Dec(l, mem, n) == Some(s);
    assert Dec(l, after, n) == Some(s);
    forall n | 0 <= n < 2 * Records(l) ensures AtMost(l, after, n, s) {
      assert AtMost(l, mem, n, s);
    }
    forall m, n ensures !Conflicting(l, after, m, n) {
      assert !Conflicting(l, mem, m, n);
    }
  }

  lemma RecSame(l: Layout, mem: seq<int>, after: seq<int>, a: nat, n: nat, m: nat)
    requires Fits(l, mem) && Outside(mem, after, a, n) && m < 2 * Records(l)
    requires Disjoint(a, n, At(l, m), RECORD)
    ensures Fits(l, after) && Rec(l, after, m) == Rec(l, mem, m)
  {
    RecordsFit(l, mem, m);
    SameSlice(mem, after, a, n, At(l, m), RECORD);
  }

  lemma OffMetadataSame(l: Layout, mem: seq<int>, after: seq<int>, a: nat, n: nat)
    requires Fits(l, mem) && OffMetadata(l, a, n) && Outside(mem, after, a, n)
    ensures Fits(l, after)
    ensures forall m :: 0 <= m < 2 * Records(l) ==> Rec(l, after, m) == Rec(l, mem, m)
  {
    forall m | 0 <= m < 2 * Records(l) ensures Rec(l, after, m) == Rec(l, mem, m) {
      RecordsFit(l, mem, m);
      RecSame(l, mem, after, a, n, m);
    }
  }

  // Losing records, but not the last copy of s, keeps s durable.
  lemma HoldsFewer(l: Layout, mem: seq<int>, after: seq<int>, b: nat, s: Snapshot)
    requires Fits(l, mem) && Holds(l, mem, s) && |after| == |mem| && Elsewhere(l, mem, b, s)
    requires forall n :: 0 <= n < 2 * Records(l) && Bank(l, n) != b ==> Rec(l, after, n) == Rec(l, mem, n)
    requires forall n :: 0 <= n < 2 * Records(l) ==> Rec(l, after, n) == Rec(l, mem, n) || Dec(l, after, n).None?
    ensures Holds(l, after, s) && Elsewhere(l, after, b, s)
  {
    FitsSame(l, mem, after);
    hide Fits;
    var n :| 0 <= n < 2 * Records(l) && Bank(l, n) != b && Dec(l, mem, n) == Some(s);
    assert Dec(l, after, n) == Some(s);
    forall n | 0 <= n < 2 * Records(l) ensures AtMost(l, after, n, s) {
      assert AtMost(l, mem, n, s);
    }
    forall m, n ensures !Conflicting(l, after, m, n) {
      assert !Conflicting(l, mem, m, n);
    }
  }

  // One record that did not decode before has become e, or still does not decode.
  lemma HoldsWritten(l: Layout, mem: seq<int>, after: seq<int>, n: nat, e: seq<int>, s: Snapshot, t: Snapshot)
    requires Fits(l, mem) && Holds(l, mem, s) && |after| == |mem| && n < 2 * Records(l)
    requires forall m :: 0 <= m < 2 * Records(l) && m != n ==> Rec(l, after, m) == Rec(l, mem, m)
    requires Dec(l, mem, n).None? && Publishes(l, mem, e, s, t)
    requires Rec(l, after, n) == e || Dec(l, after, n).None?
    ensures Holds(l, after, if Rec(l, after, n) == e then l.format.decode(e).value else s)
  {
    FitsSame(l, mem, after);
    hide Fits;
    var u := if Rec(l, after, n) == e then l.format.decode(e).value else s;
    var k :| 0 <= k < 2 * Records(l) && Dec(l, mem, k) == Some(s);
    assert Dec(l, after, if Rec(l, after, n) == e then n else k) == Some(u);
    forall m | 0 <= m < 2 * Records(l) ensures AtMost(l, after, m, u) {
      assert AtMost(l, mem, m, s);
    }
    forall a: nat, b: nat ensures !Conflicting(l, after, a, b) {
      assert !Conflicting(l, mem, a, b);
      if a < 2 * Records(l) && b < 2 * Records(l) {
        assert AtMost(l, mem, a, s) && AtMost(l, mem, b, s);
      }
    }
  }

  // ---- Interrupted and completed operations ----

  lemma PartialRefused(l: Layout, mem: seq<int>, n: nat, e: seq<int>, k: nat)
    requires Ready(l) && Fits(l, mem) && n < 2 * Records(l) && Partial(l, mem, n, e, k) && k < RECORD
    ensures Dec(l, mem, n).None?
  {
    assert Rec(l, mem, n)[RECORD - 1] == BLANK;
  }

  // A program inside record n changes no other record.
  lemma OtherRecords(l: Layout, d: Device, n: nat, e: seq<int>, k: nat, after: seq<int>, m: nat)
    requires Fits(l, d.mem) && ProgramsRecord(l, d, n, e, k) && Outside(d.mem, after, Start(d.op), Size(d.op))
    requires m < 2 * Records(l) && m != n
    ensures Fits(l, after) && Rec(l, after, m) == Rec(l, d.mem, m)
  {
    RecordsApart(l, m, n);
    RecSame(l, d.mem, after, Start(d.op), Size(d.op), m);
  }

  lemma InnerCells(l: Layout, d: Device, n: nat, e: seq<int>, k: nat, after: seq<int>)
    requires Fits(l, d.mem) && ProgramsRecord(l, d, n, e, k) && Outside(d.mem, after, Start(d.op), Size(d.op))
    ensures Fits(l, after) && TornShape(e, l.writeSize, k, Rec(l, after, n))
  {
    RecordsFit(l, d.mem, n);
    var a := At(l, n);
    var c := Rec(l, after, n);
    forall i | 0 <= i < k ensures c[i] == e[i] {
      assert c[i] == after[a + i] == d.mem[a + i] == Rec(l, d.mem, n)[i];
    }
    forall i | k + l.writeSize <= i < RECORD ensures c[i] == BLANK {
      assert c[i] == after[a + i] == d.mem[a + i] == Rec(l, d.mem, n)[i];
    }
  }

  lemma TornWrite(l: Layout, d: Device, n: nat, e: seq<int>, k: nat, s: Snapshot, t: Snapshot, after: seq<int>)
    requires Ready(l) && Fits(l, d.mem) && Holds(l, d.mem, s) && Torn(l, d, after)
    requires ProgramsRecord(l, d, n, e, k) && Publishes(l, d.mem, e, s, t)
    ensures Fits(l, after) && (Rec(l, after, n) == e || Dec(l, after, n).None?)
    ensures Holds(l, after, if Rec(l, after, n) == e then l.format.decode(e).value else s)
  {
    assert k < RECORD;
    hide Fits, Holds;
    InnerCells(l, d, n, e, k, after);
    PartialRefused(l, d.mem, n, e, k);
    forall m | 0 <= m < 2 * Records(l) && m != n ensures Rec(l, after, m) == Rec(l, d.mem, m) {
      OtherRecords(l, d, n, e, k, after, m);
    }
    HoldsWritten(l, d.mem, after, n, e, s, t);
  }

  lemma OtherBank(l: Layout, d: Device, b: nat, after: seq<int>, m: nat)
    requires Fits(l, d.mem) && ErasesBank(l, d.op, b) && Outside(d.mem, after, Start(d.op), Size(d.op))
    requires m < 2 * Records(l) && Bank(l, m) != b
    ensures Fits(l, after) && Rec(l, after, m) == Rec(l, d.mem, m)
  {
    BanksApart(l, m, b);
    RecSame(l, d.mem, after, Start(d.op), Size(d.op), m);
  }

  lemma TornErase(l: Layout, d: Device, b: nat, s: Snapshot, after: seq<int>)
    requires Fits(l, d.mem) && Holds(l, d.mem, s) && Torn(l, d, after)
    requires ErasesBank(l, d.op, b) && Elsewhere(l, d.mem, b, s)
    ensures Holds(l, after, s) && Elsewhere(l, after, b, s)
  {
    FitsSame(l, d.mem, after);
    hide Fits, Holds, Elsewhere;
    forall m | 0 <= m < 2 * Records(l) && Bank(l, m) != b ensures Rec(l, after, m) == Rec(l, d.mem, m) {
      OtherBank(l, d, b, after, m);
    }
    HoldsFewer(l, d.mem, after, b, s);
  }

  /** Whatever an interruption of the operation in flight leaves, the old snapshot
      or the one being published is durable. */
  lemma TornCell(l: Layout, d: Device, s: Snapshot, t: Snapshot, after: seq<int>)
    requires Ready(l) && Cell(l, d, s, t) && Torn(l, d, after)
    ensures Holds(l, after, s) || Holds(l, after, t)
  {
    assert Valid(l);
    hide Fits, Holds, Elsewhere, Publishes, OffMetadata, ProgramsRecord, ErasesBank;
    if d.op.NoOp? {
      assert after == d.mem;
    } else if OffMetadata(l, Start(d.op), Size(d.op)) {
      OffMetadataSame(l, d.mem, after, Start(d.op), Size(d.op));
      HoldsSame(l, d.mem, after, s);
    } else if b :| ErasesBank(l, d.op, b) && Elsewhere(l, d.mem, b, s) {
      TornErase(l, d, b, s, after);
    } else {
      var n, e, k :| ProgramsRecord(l, d, n, e, k) && Publishes(l, d.mem, e, s, t);
      TornWrite(l, d, n, e, k, s, t, after);
    }
  }

  // A completed operation is one of the things an interruption can leave.
  lemma ErasedBank(l: Layout, d: Device, b: nat, m: nat)
    requires Fits(l, d.mem) && ErasesBank(l, d.op, b) && m < 2 * Records(l) && Bank(l, m) == b
    ensures Fits(l, Apply(d.mem, d.op)) && IsBlank(l, Apply(d.mem, d.op), m)
  {
    RecordsFit(l, d.mem, m);
  }

  lemma ApplyOutside(mem: seq<int>, op: Op)
    ensures Outside(mem, Apply(mem, op), Start(op), Size(op))
    ensures op.EraseOp? ==>
      forall i :: 0 <= i < |mem| ==> Apply(mem, op)[i] in {mem[i], BLANK, UNREADABLE}
  {}

  lemma ApplyTorn(l: Layout, d: Device, s: Snapshot, t: Snapshot)
    requires Ready(l) && Fits(l, d.mem) && OpSafe(l, d, s, t)
    ensures Torn(l, d, Apply(d.mem, d.op))
  {
    var after := Apply(d.mem, d.op);
    ApplyOutside(d.mem, d.op);
    if d.op.EraseOp? {
      FitsSame(l, d.mem, after);
      forall m | 0 <= m < 2 * Records(l) ensures Rec(l, after, m) == Rec(l, d.mem, m) || Dec(l, after, m).None? {
        ApplyEvident(l, d, s, t, m);
      }
    }
  }

  lemma ApplyEvident(l: Layout, d: Device, s: Snapshot, t: Snapshot, m: nat)
    requires Ready(l) && Fits(l, d.mem) && OpSafe(l, d, s, t) && d.op.EraseOp? && m < 2 * Records(l)
    ensures Fits(l, Apply(d.mem, d.op))
    ensures Rec(l, Apply(d.mem, d.op), m) == Rec(l, d.mem, m) || Dec(l, Apply(d.mem, d.op), m).None?
  {
    hide Fits, Apply;
    var after := Apply(d.mem, d.op);
    ApplyOutside(d.mem, d.op);
    FitsSame(l, d.mem, after);
    if OffMetadata(l, Start(d.op), Size(d.op)) {
      OffMetadataSame(l, d.mem, after, Start(d.op), Size(d.op));
    } else {
      var b :| ErasesBank(l, d.op, b) && Elsewhere(l, d.mem, b, s);
      if Bank(l, m) == b {
        ErasedBank(l, d, b, m);
        assert Rec(l, after, m)[RECORD - 1] == BLANK;
      } else {
        OtherBank(l, d, b, after, m);
      }
    }
  }

  /** A poll leaves the cell as it was, or an idle device with one of the two
      snapshots durable. */
  lemma PollCell(l: Layout, d: Device, s: Snapshot, t: Snapshot, o: Outcome)
    requires Ready(l) && Cell(l, d, s, t)
    ensures var (d1, status) := Poll(l, d, o);
            if status == Busy then d1 == d && !d.op.NoOp?
            else d1.op.NoOp? && (Holds(l, d1.mem, s) || Holds(l, d1.mem, t)) && Torn(l, d, d1.mem)
  {
    hide Fits, Holds, Apply, Torn;
    if d.op.NoOp? {
      TornIdle(l, d);
    } else if o.Finished? {
      ApplyTorn(l, d, s, t);
      TornCell(l, d, s, t, Apply(d.mem, d.op));
    } else if o.Broken? && Torn(l, d, o.mem) {
      TornCell(l, d, s, t, o.mem);
    }
  }

  lemma TornIdle(l: Layout, d: Device)
    requires d.op.NoOp?
    ensures Torn(l, d, d.mem)
  {}
}
