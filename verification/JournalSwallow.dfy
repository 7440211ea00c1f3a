/** What happens when a failure of the journal's own operation is reported to somebody
    else: the machine finds an idle device and goes on, and completes a damaged record. */
module JournalSwallow {
  import opened Bytes
  import opened Record
  import opened TornRecord
  import opened Formats
  import opened Layouts
  import opened Flash
  import opened JournalSpec
  import opened JournalLoad
  import opened JournalSafety
  import opened JournalRuns
  import opened JournalCommit
  import JP = JournalPrompt
  import Crc32

  function Ticks(l: Layout, j: Journal, d: Device, script: seq<Event>): (r: (Journal, Device))
    requires Fits(l, d.mem) && Ok?(l, j)
    ensures Fits(l, r.1.mem) && Ok?(l, r.0)
    decreases |script|
  {
    if script == [] then (j, d)
    else
      var (j1, d1) := Tick(l, j, d, script[0]);
      FitsSame(l, d.mem, d1.mem);
      Ticks(l, j1, d1, script[1..])
  }

  // Every operation starts and is finished at the next poll, in time.
  ghost predicate Calm(l: Layout, started: nat, script: seq<Event>) {
    forall i :: 0 <= i < |script| ==>
      FaultFree(script[i]) && script[i].outcome.Finished? && Elapsed(script[i].now, started) < l.operationTimeout
  }

  // The machine is writing; record c is growing in its target.
  ghost predicate Grows(l: Layout, j: Journal, d: Device, c: seq<int>)
    requires Fits(l, d.mem) && Ok?(l, j)
  {
    && j.state == Write && !j.timedOut && !j.checkpoint && !j.eraseOnly && d.op.NoOp? && AllBytes(j.record)
    && Partial(l, d.mem, j.target, c, j.offset) && forall i :: j.offset <= i < RECORD ==> c[i] == j.record[i]
  }

  ghost predicate Others(l: Layout, mem: seq<int>, after: seq<int>, n: nat)
    requires Fits(l, mem) && Fits(l, after)
  {
    forall m :: 0 <= m < 2 * Records(l) && m != n ==> Rec(l, after, m) == Rec(l, mem, m)
  }

  // The complete record is there.
  ghost predicate Complete(l: Layout, j: Journal, d: Device, c: seq<int>)
    requires Fits(l, d.mem) && Ok?(l, j)
  {
    j.state == Verify && d.op.NoOp? && Rec(l, d.mem, j.target) == c
  }

  lemma UnitStarts(l: Layout, j: Journal, d: Device, e: Event, c: seq<int>)
    requires Fits(l, d.mem) && Ok?(l, j) && Grows(l, j, d, c) && FaultFree(e)
      && Elapsed(e.now, j.started) < l.operationTimeout
    ensures j.offset + l.writeSize <= RECORD && |l.metadata| == 2
    ensures Tick(l, j, d, e)
            == (j.(state := WriteWait),
                d.(op := ProgramOp(At(l, j.target) + j.offset, j.record[j.offset..j.offset + l.writeSize])))
  {
    RecordsFit(l, d.mem, j.target);
    UnitFits(l, j);
    var a := At(l, j.target);
    forall i | a + j.offset <= i < a + j.offset + l.writeSize ensures d.mem[i] == BLANK {
      assert d.mem[i] == Rec(l, d.mem, j.target)[i - a];
    }
    hide Fits, Valid, Records, StartProgram, At, Partial;
    BlankStarts(d, a + j.offset, j.record[j.offset..j.offset + l.writeSize]);
  }

  // The poll that finds the unit programmed.
  lemma WaitEnds(l: Layout, j: Journal, d: Device, e: Event)
    requires Fits(l, d.mem) && Ok?(l, j) && j.state == WriteWait && !j.timedOut && !j.requested
    requires Elapsed(e.now, j.started) < l.operationTimeout && Poll(l, d, e.outcome).1 == Ok
    ensures j.offset + l.writeSize <= RECORD
    ensures Tick(l, j, d, e)
            == (j.(offset := j.offset + l.writeSize,
                   state := if j.offset + l.writeSize == RECORD then Verify else Write),
                Poll(l, d, e.outcome).0)
  {
    UnitFits(l, j);
    hide Fits, Valid, Records, Poll, Aligned;
  }

  lemma UnitWritten(l: Layout, d: Device, n: nat, c: seq<int>, k: nat)
    requires Fits(l, d.mem) && ProgramsRecord(l, d, n, c, k)
    ensures var after := Apply(d.mem, d.op);
            Fits(l, after) && Partial(l, after, n, c, k + l.writeSize) && Others(l, d.mem, after, n)
  {
    var after := Apply(d.mem, d.op);
    WriteAdvanced(l, Job(c, [], n, 0, false, false), d, k);
    ApplyOutside(d.mem, d.op);
    hide Fits, Valid, Records, Apply, ProgramsRecord;
    forall m | 0 <= m < 2 * Records(l) && m != n ensures Rec(l, after, m) == Rec(l, d.mem, m) {
      OtherRecords(l, d, n, c, k, after, m);
    }
  }

  lemma UnitEnds(l: Layout, j: Journal, d: Device, e: Event, c: seq<int>)
    requires Fits(l, d.mem) && Ok?(l, j) && Grows(l, j, d, c) && FaultFree(e) && e.outcome.Finished?
    requires Elapsed(e.now, j.started) < l.operationTimeout && j.offset + l.writeSize <= RECORD && |l.metadata| == 2
    ensures var d0 := d.(op := ProgramOp(At(l, j.target) + j.offset, j.record[j.offset..j.offset + l.writeSize]));
            Ok?(l, j.(state := WriteWait)) &&
            var (j1, d1) := Tick(l, j.(state := WriteWait), d0, e);
            && Fits(l, d1.mem) && Others(l, d.mem, d1.mem, j.target)
            && j1 == j.(offset := j.offset + l.writeSize,
                        state := if j.offset + l.writeSize == RECORD then Verify else Write)
            && (if j1.offset == RECORD then Complete(l, j1, d1, c) else Grows(l, j1, d1, c))
  {
    UnitFits(l, j);
    var d0 := d.(op := ProgramOp(At(l, j.target) + j.offset, j.record[j.offset..j.offset + l.writeSize]));
    assert j.record[j.offset..j.offset + l.writeSize] == c[j.offset..j.offset + l.writeSize];
    assert ProgramsRecord(l, d0, j.target, c, j.offset);
    hide Fits, Valid, Records, Apply, ProgramsRecord, At, Others, Aligned, Tick;
    UnitWritten(l, d0, j.target, c, j.offset);
    WaitEnds(l, j.(state := WriteWait), d0, e);
  }

  lemma OthersChain(l: Layout, a: seq<int>, b: seq<int>, c: seq<int>, n: nat)
    requires Fits(l, a) && Fits(l, b) && Fits(l, c) && Others(l, a, b, n) && Others(l, b, c, n)
    ensures Others(l, a, c, n)
  {
    hide Fits, Records;
  }

  lemma {:induction false} Grown(l: Layout, j: Journal, d: Device, c: seq<int>, script: seq<Event>) returns (k: nat)
    requires Fits(l, d.mem) && Ok?(l, j) && Grows(l, j, d, c) && Calm(l, j.started, script)
      && |script| >= 2 * (RECORD - j.offset)
    ensures k <= |script|
    ensures var (j1, d1) := Ticks(l, j, d, script[..k]);
            Complete(l, j1, d1, c) && j1.target == j.target && Others(l, d.mem, d1.mem, j.target)
    decreases RECORD - j.offset
  {
    hide Fits, Ok?, Tick, Grows, Complete, Others, At;
    GrowsRoom(l, j, d, c);
    UnitStarts(l, j, d, script[0], c);
    var d0 := Tick(l, j, d, script[0]).1;
    FitsSame(l, d.mem, d0.mem);
    UnitEnds(l, j, d, script[1], c);
    var (j1, d1) := Tick(l, j.(state := WriteWait), d0, script[1]);
    if j1.offset == RECORD {
      k := 2;
      TwoTicks(l, j, d, script[..2]);
      assert script[..2][2..] == [];
    } else {
      GrowsRoom(l, j1, d1, c);
      var rest := script[2..];
      var m := Grown(l, j1, d1, c, rest);
      k := m + 2;
      TwoTicks(l, j, d, script[..k]);
      assert script[..k][2..] == rest[..m];
      OthersChain(l, d.mem, d1.mem, Ticks(l, j1, d1, rest[..m]).1.mem, j.target);
    }
  }

  lemma TwoTicks(l: Layout, j: Journal, d: Device, script: seq<Event>)
    requires Fits(l, d.mem) && Ok?(l, j) && |script| >= 2
    ensures var (j0, d0) := Tick(l, j, d, script[0]);
            Fits(l, d0.mem) &&
            var (j1, d1) := Tick(l, j0, d0, script[1]);
            Fits(l, d1.mem) && Ticks(l, j, d, script) == Ticks(l, j1, d1, script[2..])
  {
    hide Fits, Ok?, Tick;
    var (j0, d0) := Tick(l, j, d, script[0]);
    FitsSame(l, d.mem, d0.mem);
    var (j1, d1) := Tick(l, j0, d0, script[1]);
    FitsSame(l, d0.mem, d1.mem);
    assert script[1..][1..] == script[2..];
  }

  lemma GrowsRoom(l: Layout, j: Journal, d: Device, c: seq<int>)
    requires Fits(l, d.mem) && Ok?(l, j) && Grows(l, j, d, c)
    ensures j.offset < RECORD && l.writeSize > 0
  {}

  // What the machine will complete: the unit as it was left, the rest as planned.
  function Damaged(left: seq<int>, record: seq<int>, k: nat): (c: seq<int>)
    requires |left| == |record| == RECORD && k <= RECORD
    ensures |c| == RECORD
  {
    left[..k] + record[k..]
  }

  // The machine finds the device idle and takes the unit for written.
  lemma Resumes(l: Layout, j: Journal, d: Device, after: seq<int>, e: Event, s: Snapshot, t: Snapshot)
    requires Ready(l) && Inv(l, j, d, s, t) && j.status == Busy && j.state == WriteWait && !j.timedOut && !j.checkpoint
    requires JP.Owned(j, d) && j.offset + l.writeSize < RECORD && Torn(l, d, after)
    requires Elapsed(e.now, j.started) < l.operationTimeout
    ensures Fits(l, d.mem) && Fits(l, after) && Ok?(l, j) && Others(l, d.mem, after, j.target)
      && Dec(l, d.mem, j.target).None?
    ensures Poll(l, d, Broken(after)) == (Device(after, NoOp), IoError)
    ensures var c := Damaged(Rec(l, after, j.target), j.record, j.offset + l.writeSize);
            var (j1, d1) := Tick(l, j, Device(after, NoOp), e);
            && d1 == Device(after, NoOp) && j1 == j.(offset := j.offset + l.writeSize, state := Write)
            && Grows(l, j1, d1, c)
  {
    hide Fits, Valid, Records, Cell, Working, Torn, Ready, ProgramsRecord, Others, Aligned, Tick;
    JP.WriteFacts(l, j, d, s, t);
    InvOk(l, j, d, s, t);
    WrittenBytes(l, j, d, s, t);
    LeftBehind(l, j, d, after);
    WaitEnds(l, j, Device(after, NoOp), e);
    OwnedPoll(l, j, d, after);
  }

  lemma InvOk(l: Layout, j: Journal, d: Device, s: Snapshot, t: Snapshot)
    requires Inv(l, j, d, s, t) && j.state == WriteWait
    ensures Ok?(l, j) && !j.requested && |j.record| == RECORD && j.target < 2 * Records(l)
  {
    hide Cell, Working, Valid;
  }

  lemma OwnedPoll(l: Layout, j: Journal, d: Device, after: seq<int>)
    requires JP.Owned(j, d) && j.state == WriteWait && Torn(l, d, after)
    ensures Poll(l, d, Broken(after)) == (Device(after, NoOp), IoError)
  {
    hide Torn;
  }

  // What the interrupted program leaves of the record.
  lemma LeftBehind(l: Layout, j: Journal, d: Device, after: seq<int>)
    requires Ready(l) && Fits(l, d.mem) && Ok?(l, j) && ProgramsRecord(l, d, j.target, j.record, j.offset)
      && Torn(l, d, after)
    requires j.offset + l.writeSize < RECORD
    ensures Fits(l, after) && Others(l, d.mem, after, j.target) && Dec(l, d.mem, j.target).None?
    ensures var c := Damaged(Rec(l, after, j.target), j.record, j.offset + l.writeSize);
            Partial(l, after, j.target, c, j.offset + l.writeSize)
  {
    InnerCells(l, d, j.target, j.record, j.offset, after);
    PartialRefused(l, d.mem, j.target, j.record, j.offset);
    hide Fits, Valid, Records, ErasureEvident;
    forall m | 0 <= m < 2 * Records(l) && m != j.target ensures Rec(l, after, m) == Rec(l, d.mem, m) {
      OtherRecords(l, d, j.target, j.record, j.offset, after, m);
    }
  }

  lemma WrittenBytes(l: Layout, j: Journal, d: Device, s: Snapshot, t: Snapshot)
    requires Ready(l) && Inv(l, j, d, s, t) && j.status == Busy && j.state == WriteWait && !j.checkpoint
      && JP.Owned(j, d)
    ensures AllBytes(j.record) && !j.eraseOnly
  {
    hide Fits, Valid, Holds, Records, Cell;
    assert l.format.decode(j.record).Some?;
  }

  lemma Continued(l: Layout, j: Journal, d: Device, after: seq<int>, script: seq<Event>, s: Snapshot, t: Snapshot)
    returns (k: nat)
    requires Ready(l) && Inv(l, j, d, s, t) && j.status == Busy && j.state == WriteWait && !j.timedOut && !j.checkpoint
    requires JP.Owned(j, d) && j.offset + l.writeSize < RECORD && Torn(l, d, after)
    requires Calm(l, j.started, script) && |script| > 2 * RECORD
    ensures Fits(l, d.mem) && Fits(l, after) && Ok?(l, j) && k <= |script| && Dec(l, d.mem, j.target).None?
    ensures Poll(l, d, Broken(after)) == (Device(after, NoOp), IoError) && j.target < 2 * Records(l)
    ensures var c := Damaged(Rec(l, after, j.target), j.record, j.offset + l.writeSize);
            var (j1, d1) := Ticks(l, j, Device(after, NoOp), script[..k]);
            Complete(l, j1, d1, c) && j1.target == j.target && Others(l, d.mem, d1.mem, j.target)
  {
    hide Fits, Valid, Records, Ok?, Cell, Holds, Torn, Ready, Tick, Others, Grows, Complete, Poll, JP.Owned, Working;
    Resumes(l, j, d, after, script[0], s, t);
    InRange(l, j);
    var c := Damaged(Rec(l, after, j.target), j.record, j.offset + l.writeSize);
    var (j1, d1) := Tick(l, j, Device(after, NoOp), script[0]);
    var rest := script[1..];
    var m := Grown(l, j1, d1, c, rest);
    k := m + 1;
    assert script[..k][1..] == rest[..m];
    OthersChain(l, d.mem, after, Ticks(l, j1, d1, rest[..m]).1.mem, j.target);
  }

  lemma InRange(l: Layout, j: Journal)
    requires Ok?(l, j)
    ensures j.target < 2 * Records(l) && |j.record| == RECORD
  {}

  /** A program of the machine is interrupted, and the failure is reported to somebody
      else. Ticks without a further fault then bring the record with the damaged unit to
      completion; load then returns the old snapshot if that record does not decode, and
      whatever it decodes to if that is newer. */
  lemma SwallowedFailure(l: Layout, j: Journal, d: Device, after: seq<int>, script: seq<Event>, s: Snapshot,
                         t: Snapshot)
    returns (k: nat)
    requires Ready(l) && Inv(l, j, d, s, t) && j.status == Busy && j.state == WriteWait && !j.timedOut && !j.checkpoint
    requires JP.Owned(j, d) && j.offset + l.writeSize < RECORD && Torn(l, d, after)
    requires Calm(l, j.started, script) && |script| > 2 * RECORD
    ensures Fits(l, after) && Ok?(l, j) && k <= |script| && Poll(l, d, Broken(after)) == (Device(after, NoOp), IoError)
    ensures var c := Damaged(Rec(l, after, j.target), j.record, j.offset + l.writeSize);
            var (j1, d1) := Ticks(l, j, Device(after, NoOp), script[..k]);
            && j1.state == Verify && d1.op.NoOp? && Rec(l, d1.mem, j.target) == c
            && (l.format.decode(c).None? ==> Recovers(l, d1.mem, s))
            && (l.format.decode(c).Some? && l.format.decode(c).value.sequence > s.sequence ==>
                  Recovers(l, d1.mem, l.format.decode(c).value))
  {
    hide Fits, Valid, Records, Ok?, Cell, Holds, Recovers, Torn, Ready, Calm, Tick, Others, Grows, Partial,
         ProgramsRecord, JP.Owned;
    k := Continued(l, j, d, after, script, s, t);
    InRange(l, j);
    var c := Damaged(Rec(l, after, j.target), j.record, j.offset + l.writeSize);
    var d1 := Ticks(l, j, Device(after, NoOp), script[..k]).1;
    CellValid(l, d, s, t);
    Answered(l, d.mem, d1.mem, j.target, c, s);
  }

  // What load answers once a blank record has become c.
  lemma Answered(l: Layout, mem: seq<int>, after: seq<int>, n: nat, c: seq<int>, s: Snapshot)
    requires Ready(l) && Fits(l, mem) && Fits(l, after) && Holds(l, mem, s) && n < 2 * Records(l)
      && Dec(l, mem, n).None?
    requires Others(l, mem, after, n) && Rec(l, after, n) == c
    ensures l.format.decode(c).None? ==> Recovers(l, after, s)
    ensures l.format.decode(c).Some? && l.format.decode(c).value.sequence > s.sequence ==>
      Recovers(l, after, l.format.decode(c).value)
  {
    hide Fits, Valid, Recovers, Ready, Holds, Others;
    if l.format.decode(c).None? {
      StillHolds(l, mem, after, n, s);
      HoldsRecovers(l, after, s);
    } else if l.format.decode(c).value.sequence > s.sequence {
      NewestFound(l, mem, after, n, l.format.decode(c).value, s);
    }
  }

  lemma StillHolds(l: Layout, mem: seq<int>, after: seq<int>, n: nat, s: Snapshot)
    requires Fits(l, mem) && Fits(l, after) && Holds(l, mem, s) && n < 2 * Records(l) && Dec(l, mem, n).None?
    requires Others(l, mem, after, n) && Dec(l, after, n).None?
    ensures Holds(l, after, s)
  {
    hide Fits, Valid;
    var k :| 0 <= k < 2 * Records(l) && Dec(l, mem, k) == Some(s);
    assert Dec(l, after, k) == Some(s);
    forall m | 0 <= m < 2 * Records(l) ensures AtMost(l, after, m, s) {
      assert AtMost(l, mem, m, s);
    }
    forall a: nat, b: nat ensures !Conflicting(l, after, a, b) {
      assert !Conflicting(l, mem, a, b);
    }
  }

  // A record newer than all others is what load returns.
  lemma NewestFound(l: Layout, mem: seq<int>, after: seq<int>, n: nat, x: Snapshot, s: Snapshot)
    requires Ready(l) && Fits(l, mem) && Fits(l, after) && Holds(l, mem, s) && n < 2 * Records(l)
      && Dec(l, mem, n).None?
    requires Others(l, mem, after, n) && Dec(l, after, n) == Some(x) && x.sequence > s.sequence
    ensures Recovers(l, after, x)
  {
    hide Fits, Valid, ScanTo, Caught;
    LoadExact(l, after);
    if CaughtBefore(l, after, 2 * Records(l)) {
      var i: nat, m: nat :| m < 2 * Records(l) && Caught(l, after, i, m);
      NeverCaught(l, mem, after, n, x, s, i, m);
      assert false;
    }
    var p := ScanTo(l, after, 2 * Records(l));
    assert p.best.Some? && p.best.value != n ==> AtMost(l, mem, p.best.value, s);
  }

  lemma NeverCaught(l: Layout, mem: seq<int>, after: seq<int>, n: nat, x: Snapshot, s: Snapshot, i: nat, m: nat)
    requires Fits(l, mem) && Fits(l, after) && Holds(l, mem, s) && n < 2 * Records(l) && Dec(l, mem, n).None?
    requires Others(l, mem, after, n) && Dec(l, after, n) == Some(x) && x.sequence > s.sequence
    ensures !Caught(l, after, i, m)
  {
    hide Fits, Valid;
    if i < m < 2 * Records(l) {
      var a, b := Order(l, i), Order(l, m);
      assert a != n ==> AtMost(l, mem, a, s);
      assert b != n ==> AtMost(l, mem, b, s);
      assert !Conflicting(l, mem, a, b);
    }
  }

  // ---- The input ----

  // A record with five bytes of slot B's empty size and checksum changed.
  function Forged(e: seq<int>): seq<int>
    requires |e| == RECORD
  {
    e[..128] + [0x80, 0x20, 0x83, 0xb8, 0xed] + e[133..]
  }

  lemma BitsOf(b: seq<byte>, a: seq<byte>)
    ensures Crc32.Bits(b + a) == Crc32.Bits(b) + Crc32.Bits(a)
  {}

  lemma FiveBits()
    ensures Crc32.Bits([0x80, 0x20, 0x83, 0xb8, 0xed]) == Crc32.CANCELLING
      && Crc32.Bits([0, 0, 0, 0, 0]) == Crc32.NOTHING
  {
    Digits();
  }

  lemma Digits()
    ensures Crc32.Binary(0, 8) == 0 && Crc32.Binary(0x80, 8) == 0x80 && Crc32.Binary(0x20, 8) == 0x20
    ensures Crc32.Binary(0x83, 8) == 0x83 && Crc32.Binary(0xb8, 8) == 0xb8 && Crc32.Binary(0xed, 8) == 0xed
  {
    assert Crc32.Binary(0, 4) == 0 && Crc32.Binary(8, 4) == 8 && Crc32.Binary(2, 4) == 2 && Crc32.Binary(0xb, 4) == 0xb
           && Crc32.Binary(0xe, 4) == 0xe;
  }

  // Slot B's size and the first byte of its checksum are zero, as for an empty slot.
  ghost predicate EmptySlotB(e: seq<byte>) {
    |e| == RECORD && e[128..133] == [0, 0, 0, 0, 0]
  }

  lemma ForgedChecksum(e: seq<byte>, n: nat)
    requires EmptySlotB(e) && 133 <= n <= RECORD
    ensures Crc32.Checksum(Forged(e)[..n]) == Crc32.Checksum(e[..n])
  {
    hide Crc32.Update, Crc32.Bits;
    var five: seq<byte>, none: seq<byte> := [0x80, 0x20, 0x83, 0xb8, 0xed], [0, 0, 0, 0, 0];
    var before, behind := e[..128], e[133..n];
    assert Forged(e)[..n] == before + five + behind && e[..n] == before + none + behind;
    FiveBits();
    BitsOf(before, five);
    BitsOf(before + five, behind);
    BitsOf(before, none);
    BitsOf(before + none, behind);
    Crc32.FiveCancel(0, Crc32.Bits(before), Crc32.Bits(behind));
  }

  lemma ForgedBytes(e: seq<byte>)
    requires |e| == RECORD
    ensures |Forged(e)| == RECORD && AllBytes(Forged(e))
    ensures forall i :: 0 <= i < 128 || 133 <= i < RECORD ==> Forged(e)[i] == e[i]
  {}

  lemma ForgedReads(c: seq<byte>, e: seq<byte>)
    requires |c| == |e| == RECORD && forall i :: 0 <= i < 128 || 133 <= i < RECORD ==> c[i] == e[i]
    ensures Read32(c, 0) == Read32(e, 0) && Read32(c, 4) == Read32(e, 4) && Read64(c, 8) == Read64(e, 8)
      && Read64(c, 16) == Read64(e, 16)
    ensures Read32(c, 236) == Read32(e, 236) && Read32(c, 240) == Read32(e, 240) && Read64(c, 244) == Read64(e, 244)
    ensures Read32(c, 252) == Read32(e, 252)
  {}

  lemma ForgedImage(c: seq<byte>, e: seq<byte>)
    requires |c| == |e| == RECORD && forall i :: 0 <= i < 128 || 133 <= i < RECORD ==> c[i] == e[i]
    ensures DecodeImage(c, 24) == DecodeImage(e, 24)
    ensures DecodeImage(c, 120).Some? <==> DecodeImage(e, 120).Some?
    ensures DecodeImage(e, 120).Some? ==>
      DecodeImage(c, 120).value.installation == DecodeImage(e, 120).value.installation
    ensures DecodeImage(c, 120).Some? ==> DecodeImage(c, 120).value.size == Read32(c, 128)
  {
    assert c[24..120] == e[24..120];
    DecodeImageLocal(c, 24, e[24..120]);
    DecodeImageLocal(e, 24, e[24..120]);
    assert Read64(c, 120) == Read64(e, 120) && Read32(c, 136) == Read32(e, 136);
  }

  /** The input: a version 1 record of a board whose second slot is empty, with one
      damaged unit, decodes to a snapshot that claims another size for it. */
  lemma ForgedDecodes(e: seq<byte>)
    requires EmptySlotB(e) && Decode(e).Some? && Read32(e, 4) == 1
    ensures var c := Forged(e);
            && |c| == RECORD && AllBytes(c) && Decode(c).Some? && Decode(c).value.sequence == Decode(e).value.sequence
            && Decode(c).value.b.size == 0xb8832080 != Decode(e).value.b.size
  {
    hide Crc32.Checksum, DecodeImage, Read32, Read64, Forged;
    ForgedBytes(e);
    var c: seq<byte> := Forged(e);
    ForgedReads(c, e);
    ForgedImage(c, e);
    ForgedImage(e, e);
    ForgedChecksum(e, 236);
    ForgedSizes(e);
  }

  lemma ForgedSizes(e: seq<byte>)
    requires EmptySlotB(e)
    ensures var c := Forged(e);
            |c| == RECORD && AllBytes(c) && Read32(c, 128) == 0xb8832080 && Read32(e, 128) == 0
  {
    ForgedBytes(e);
    var c: seq<byte> := Forged(e);
    assert e[128] == e[128..133][0] && e[129] == e[128..133][1] && e[130] == e[128..133][2] && e[131] == e[128..133][3];
    assert c[128] == 0x80 && c[129] == 0x20 && c[130] == 0x83 && c[131] == 0xb8;
  }

  // The unit at 128 is left as the forged record has it.
  function LeftForged(l: Layout, mem: seq<int>, n: nat, e: seq<int>): seq<int>
    requires Fits(l, mem) && n < 2 * Records(l) && |e| == RECORD
  {
    RecordsFit(l, mem, n);
    Splice(mem, At(l, n) + 128, Forged(e)[128..144])
  }

  lemma ForgedLeft(l: Layout, d: Device, n: nat, e: seq<int>)
    requires Fits(l, d.mem) && l.writeSize == 16 && ProgramsRecord(l, d, n, e, 128)
    ensures var after := LeftForged(l, d.mem, n, e);
            && Torn(l, d, after) && Fits(l, after) && Damaged(Rec(l, after, n), e, 144) == Forged(e)
  {
    RecordsFit(l, d.mem, n);
    var after := LeftForged(l, d.mem, n, e);
    FitsSame(l, d.mem, after);
    hide Fits, Valid, Records, ErasureEvident, At;
    var a, f, c := At(l, n), Forged(e), Damaged(Rec(l, after, n), e, 144);
    forall i | 0 <= i < RECORD ensures c[i] == f[i] {
      if i < 128 {
        assert c[i] == after[a + i] == d.mem[a + i] == Rec(l, d.mem, n)[i];
      } else if i < 144 {
        assert c[i] == after[a + i] == f[128..144][i - 128];
      }
    }
  }

  /** With the source's codec a swallowed failure can publish what nobody committed: when
      the write of the unit at 128 fails and the failure is reported to somebody else,
      a content of that unit exists with which load later returns a snapshot that is
      neither the old nor the new one. */
  lemma NobodyCommitted(l: Layout, j: Journal, d: Device, script: seq<Event>, s: Snapshot, t: Snapshot)
    returns (after: seq<int>, k: nat)
    requires Ready(l) && l.format == Standard(16) && l.writeSize == 16
    requires Inv(l, j, d, s, t) && j.status == Busy && j.state == WriteWait && !j.timedOut && !j.checkpoint
      && JP.Owned(j, d)
    requires j.offset == 128 && AllBytes(j.record) && EmptySlotB(j.record) && Decode(j.record) == Some(t)
      && Read32(j.record, 4) == 1
    requires t.sequence > s.sequence && s.b.size == 0 && Calm(l, j.started, script) && |script| > 2 * RECORD
    ensures Torn(l, d, after) && Fits(l, after) && Ok?(l, j) && k <= |script|
    ensures var (_, d1) := Ticks(l, j, Device(after, NoOp), script[..k]);
            exists x :: x != s && x != t && Recovers(l, d1.mem, x)
  {
    hide Fits, Valid, Records, Ok?, Cell, Working, Recovers, Torn, Ready, Calm, Forged, Ticks, LeftForged,
         ProgramsRecord, Decode, JP.Owned;
    JP.WriteFacts(l, j, d, s, t);
    InvOk(l, j, d, s, t);
    after := LeftForged(l, d.mem, j.target, j.record);
    ForgedLeft(l, d, j.target, j.record);
    ForgedDecodes(j.record);
    k := SwallowedFailure(l, j, d, after, script, s, t);
    var x := Decode(Forged(j.record)).value;
    assert l.format.decode(Forged(j.record)) == Some(x);
  }
}
