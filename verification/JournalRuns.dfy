/** Every step of the journal machine, and every run of it, keeps the cell. */
module JournalRuns {
  import opened Record
  import opened TornRecord
  import opened Layouts
  import opened Flash
  import opened JournalSpec
  import opened JournalLoad
  import opened JournalSafety

  // ---- What the machine is doing ----

  // The fields of the journal that say what the work is, not how far it got.
  datatype Job = Job(record: seq<int>, pendingRecord: seq<int>, target: nat, pendingTarget: nat,
                     checkpoint: bool, eraseOnly: bool)

  function JobOf(j: Journal): Job {
    Job(j.record, j.pendingRecord, j.target, j.pendingTarget, j.checkpoint, j.eraseOnly)
  }

  // The target sector may be erased: s is also stored in the other one.
  ghost predicate MayErase(l: Layout, target: nat, mem: seq<int>, s: Snapshot)
    requires Fits(l, mem)
  {
    exists b :: 0 <= b < 2 && target == First(l, b) && Elsewhere(l, mem, b, s)
  }

  // What the requested work is for: an erase alone, a record that publishes t, or
  // a checkpoint of s before the sector of that record is erased.
  ghost predicate Purpose(l: Layout, w: Job, mem: seq<int>, s: Snapshot, t: Snapshot)
    requires Fits(l, mem)
  {
    if w.checkpoint then
      && !w.eraseOnly && Copy(l, mem, w.record, s) && Successor(l, w.pendingRecord, s, t)
      && exists b :: 0 <= b < 2 && w.pendingTarget == First(l, b) && Bank(l, w.target) != b
    else if w.eraseOnly then s == t
    else Publishes(l, mem, w.record, s, t) && l.format.decode(w.record) == Some(t)
  }

  ghost predicate ErasePhase(l: Layout, w: Job, mem: seq<int>, s: Snapshot, t: Snapshot)
    requires Fits(l, mem)
  {
    !w.checkpoint && Purpose(l, w, mem, s, t) && MayErase(l, w.target, mem, s)
  }

  // The first k bytes of the record are in place and the rest is blank.
  ghost predicate WritePhase(l: Layout, w: Job, mem: seq<int>, k: nat, s: Snapshot, t: Snapshot)
    requires Fits(l, mem)
  {
    && !w.eraseOnly && Purpose(l, w, mem, s, t)
    && w.target < 2 * Records(l) && Partial(l, mem, w.target, w.record, k)
  }

  // The target record is complete, and t is durable unless it is a checkpoint.
  ghost predicate WrittenPhase(l: Layout, w: Job, mem: seq<int>, s: Snapshot, t: Snapshot)
    requires Fits(l, mem)
  {
    && !w.eraseOnly && w.target < 2 * Records(l) && Rec(l, mem, w.target) == w.record
    && l.format.decode(w.record).Some?
    && if w.checkpoint then Purpose(l, w, mem, s, t) else s == t
  }

  ghost predicate Working(l: Layout, j: Journal, d: Device, s: Snapshot, t: Snapshot)
    requires Fits(l, d.mem) && Ok?(l, j)
  {
    var w := JobOf(j);
    match j.state
    case Idle | Done | Failed =>
      && d.op.NoOp? && j.offset == 0
      && if j.eraseNeeded then ErasePhase(l, w, d.mem, s, t) else WritePhase(l, w, d.mem, 0, s, t)
    case Erase => d.op.NoOp? && j.offset == 0 && ErasePhase(l, w, d.mem, s, t)
    case EraseWait =>
      j.offset == 0 && if d.op.NoOp? then ErasedPhase(l, w, d.mem, s, t) else
        d.op == EraseOp(At(l, j.target), l.sectorSize) && ErasePhase(l, w, d.mem, s, t)
    case Write => d.op.NoOp? && WritePhase(l, w, d.mem, j.offset, s, t)
    case WriteWait =>
      if d.op.NoOp? then AdvancedPhase(l, w, d.mem, j.offset + l.writeSize, s, t) else
        && WritePhase(l, w, d.mem, j.offset, s, t)
        && d.op == ProgramOp(At(l, j.target) + j.offset, j.record[j.offset..j.offset + l.writeSize])
    case Verify => d.op.NoOp? && WrittenPhase(l, w, d.mem, s, t)
  }

  ghost predicate ErasedPhase(l: Layout, w: Job, mem: seq<int>, s: Snapshot, t: Snapshot)
    requires Fits(l, mem)
  {
    if w.eraseOnly then s == t && !w.checkpoint && w.target < 2 * Records(l) && BankBlank(l, mem, Bank(l, w.target))
    else WritePhase(l, w, mem, 0, s, t)
  }

  ghost predicate AdvancedPhase(l: Layout, w: Job, mem: seq<int>, k: nat, s: Snapshot, t: Snapshot)
    requires Fits(l, mem)
  {
    if k == RECORD then WrittenPhase(l, w, mem, s, t) else WritePhase(l, w, mem, k, s, t)
  }

  ghost predicate Inv(l: Layout, j: Journal, d: Device, s: Snapshot, t: Snapshot) {
    && Cell(l, d, s, t) && Ok?(l, j)
    && (j.status == Busy ==> Working(l, j, d, s, t))
  }

  // ---- The slots stay out of it ----

  ghost predicate OffSlots(l: Layout, op: Op)
    requires Valid(l)
  {
    op.NoOp? || (Disjoint(l.slots[0], l.slotSize, Start(op), Size(op))
                 && Disjoint(l.slots[1], l.slotSize, Start(op), Size(op)))
  }

  ghost predicate SameSlots(l: Layout, mem: seq<int>, after: seq<int>) {
    && Fits(l, mem) && |after| == |mem|
    && Slot(l, after, 0) == Slot(l, mem, 0) && Slot(l, after, 1) == Slot(l, mem, 1)
  }

  lemma TornSlots(l: Layout, d: Device, after: seq<int>)
    requires Fits(l, d.mem) && OffSlots(l, d.op) && Torn(l, d, after)
    ensures SameSlots(l, d.mem, after)
  {
    if d.op.NoOp? {
      assert after == d.mem;
    } else {
      SameSlice(d.mem, after, Start(d.op), Size(d.op), l.slots[0], l.slotSize);
      SameSlice(d.mem, after, Start(d.op), Size(d.op), l.slots[1], l.slotSize);
    }
  }

  lemma EraseOffSlots(l: Layout, target: nat, mem: seq<int>, s: Snapshot)
    requires Fits(l, mem) && target < 2 * Records(l) && MayErase(l, target, mem, s)
    ensures OffSlots(l, EraseOp(At(l, target), l.sectorSize)) && At(l, target) + l.sectorSize <= |mem|
    ensures exists b ::
      ErasesBank(l, EraseOp(At(l, target), l.sectorSize), b) && Elsewhere(l, mem, b, s) && b == Bank(l, target)
  {
    var b :| 0 <= b < 2 && target == First(l, b) && Elsewhere(l, mem, b, s);
    SlotsApart(l, target, 0);
    SlotsApart(l, target, 1);
    assert ErasesBank(l, EraseOp(At(l, target), l.sectorSize), b);
  }

  // ---- Steps ----

  lemma StepEraseSafe(l: Layout, j: Journal, d: Device, e: Event, s: Snapshot, t: Snapshot)
    requires Ready(l) && Inv(l, j, d, s, t) && j.state == Erase
    ensures var (j1, d1) := StepErase(l, j, d, e);
            Inv(l, j1, d1, s, t) && d1.mem == d.mem && OffSlots(l, d1.op) && j1.status != Ok
  {
    hide Fits, Valid, Records, OffSlots, Fail, Inv, Cell, Ready, Ok?;
    InvBasics(l, j, d, s, t);
    IdleOffSlots(l, d);
    EraseStarted(l, j, d, s, t);
    var failure := if j.timedOut then Timeout else StartErase(d, At(l, j.target), l.sectorSize, e.refuse).1;
    FailInv(l, j, d, failure, s, t);
    FailOk(l, j, failure);
  }

  lemma EraseStarted(l: Layout, j: Journal, d: Device, s: Snapshot, t: Snapshot)
    requires Ready(l) && Inv(l, j, d, s, t) && j.state == Erase
    ensures var d1 := d.(op := EraseOp(At(l, j.target), l.sectorSize));
            Inv(l, j.(state := EraseWait), d1, s, t) && OffSlots(l, d1.op) && j.status != Ok
  {
    EraseOffSlots(l, j.target, d.mem, s);
    hide Fits, Holds, Purpose, MayErase, Elsewhere, OffSlots;
    assert Valid(l);
  }

  // ---- Completed operations ----

  // Erasing keeps the purpose of the work: records only disappear.
  lemma PurposeKept(l: Layout, w: Job, mem: seq<int>, after: seq<int>, s: Snapshot, t: Snapshot)
    requires Fits(l, mem) && Fits(l, after) && Purpose(l, w, mem, s, t)
    requires forall n :: 0 <= n < 2 * Records(l) ==>
      Rec(l, after, n) == Rec(l, mem, n) || Rec(l, after, n) == w.record || Dec(l, after, n).None?
    ensures Purpose(l, w, after, s, t)
  {
    hide Fits;
    if Copy(l, mem, w.record, s) {
      assert Copy(l, after, w.record, s);
    }
  }

  lemma EraseFinished(l: Layout, w: Job, d: Device, s: Snapshot, t: Snapshot)
    requires Ready(l) && Fits(l, d.mem) && Holds(l, d.mem, s) && w.target < 2 * Records(l)
    requires ErasePhase(l, w, d.mem, s, t) && d.op == EraseOp(At(l, w.target), l.sectorSize)
    requires |w.record| == RECORD
    ensures var after := Apply(d.mem, d.op);
            && Holds(l, after, s) && ErasedPhase(l, w, after, s, t) && SameSlots(l, d.mem, after)
  {
    var after := Apply(d.mem, d.op);
    FitsSame(l, d.mem, after);
    EraseOffSlots(l, w.target, d.mem, s);
    var b :| ErasesBank(l, d.op, b) && Elsewhere(l, d.mem, b, s) && b == Bank(l, w.target);
    assert OpSafe(l, d, s, t);
    hide Fits, Valid, Apply, Holds, OffSlots, OpSafe, Elsewhere, Torn, Purpose, SameSlots, MayErase, Bank, BankBlank,
         ErasedPhase;
    ApplyTorn(l, d, s, t);
    TornSlots(l, d, after);
    TornErase(l, d, b, s, after);
    ErasedRecords(l, d, b, s, t);
    PurposeKept(l, w, d.mem, after, s, t);
    ErasedStart(l, w, after, s, t);
  }

  lemma ErasedStart(l: Layout, w: Job, mem: seq<int>, s: Snapshot, t: Snapshot)
    requires Fits(l, mem) && Purpose(l, w, mem, s, t) && !w.checkpoint && |w.record| == RECORD
    requires w.target < 2 * Records(l) && BankBlank(l, mem, Bank(l, w.target))
    ensures ErasedPhase(l, w, mem, s, t)
  {
    hide Fits, Publishes;
    assert IsBlank(l, mem, w.target);
  }

  lemma ErasedRecords(l: Layout, d: Device, b: nat, s: Snapshot, t: Snapshot)
    requires Ready(l) && Fits(l, d.mem) && ErasesBank(l, d.op, b) && OpSafe(l, d, s, t)
    ensures Fits(l, Apply(d.mem, d.op)) && BankBlank(l, Apply(d.mem, d.op), b)
    ensures forall n :: 0 <= n < 2 * Records(l) ==>
      Rec(l, Apply(d.mem, d.op), n) == Rec(l, d.mem, n) || Dec(l, Apply(d.mem, d.op), n).None?
  {
    var after := Apply(d.mem, d.op);
    FitsSame(l, d.mem, after);
    hide Fits, Apply, OpSafe;
    forall n | 0 <= n < 2 * Records(l)
      ensures Rec(l, after, n) == Rec(l, d.mem, n) || Dec(l, after, n).None?
      ensures Bank(l, n) == b ==> IsBlank(l, after, n)
    {
      ApplyEvident(l, d, s, t, n);
      if Bank(l, n) == b {
        ErasedBank(l, d, b, n);
      }
    }
  }

  lemma WriteFinished(l: Layout, w: Job, d: Device, k: nat, s: Snapshot, t: Snapshot)
    requires Ready(l) && Fits(l, d.mem) && Holds(l, d.mem, s) && w.target < 2 * Records(l)
    requires WritePhase(l, w, d.mem, k, s, t) && k + l.writeSize <= RECORD && Aligned(k, l.writeSize)
    requires d.op == ProgramOp(At(l, w.target) + k, w.record[k..k + l.writeSize])
    ensures var after := Apply(d.mem, d.op);
            var s1 := if k + l.writeSize == RECORD && !w.checkpoint then t else s;
            && Holds(l, after, s1) && AdvancedPhase(l, w, after, k + l.writeSize, s1, t)
  {
    var after := Apply(d.mem, d.op);
    WriteOffSlots(l, w, d, k, s, t);
    WriteAdvanced(l, w, d, k);
    FitsSame(l, d.mem, after);
    hide Fits, Valid, Apply, Holds, OpSafe, Torn, OffSlots, ProgramsRecord;
    ApplyTorn(l, d, s, t);
    TornWrite(l, d, w.target, w.record, k, s, t, after);
    forall n | 0 <= n < 2 * Records(l) && n != w.target ensures Rec(l, after, n) == Rec(l, d.mem, n) {
      ApplyOutside(d.mem, d.op);
      OtherRecords(l, d, w.target, w.record, k, after, n);
    }
    PurposeKept(l, w, d.mem, after, s, t);
    if k + l.writeSize < RECORD {
      PartialRefused(l, after, w.target, w.record, k + l.writeSize);
    } else {
      assert Rec(l, after, w.target) == w.record;
    }
  }

  lemma WriteAdvanced(l: Layout, w: Job, d: Device, k: nat)
    requires Fits(l, d.mem) && ProgramsRecord(l, d, w.target, w.record, k)
    ensures Fits(l, Apply(d.mem, d.op)) && Partial(l, Apply(d.mem, d.op), w.target, w.record, k + l.writeSize)
  {
    var after := Apply(d.mem, d.op);
    RecordsFit(l, d.mem, w.target);
    var a := At(l, w.target);
    var c := Rec(l, after, w.target);
    forall i | 0 <= i < RECORD
      ensures c[i] == if k <= i < k + l.writeSize then w.record[i] else Rec(l, d.mem, w.target)[i]
    {
      assert c[i] == after[a + i] && Rec(l, d.mem, w.target)[i] == d.mem[a + i];
      if k <= i < k + l.writeSize {
        assert after[a + i] == w.record[k..k + l.writeSize][i - k];
      }
    }
  }

  // ---- Waiting ----

  // Ending a wait by failing leaves one of the two snapshots durable.
  lemma FailSafe(l: Layout, j: Journal, d: Device, o: Outcome, status: Status, s: Snapshot, t: Snapshot)
    returns (s1: Snapshot)
    requires Ready(l) && Inv(l, j, d, s, t) && OffSlots(l, d.op) && Active(j.state)
    ensures var d1 := Poll(l, d, o).0;
            && (s1 == s || s1 == t) && Inv(l, Fail(j, status), d1, s1, t)
            && OffSlots(l, d1.op) && SameSlots(l, d.mem, d1.mem)
  {
    FailOk(l, j, status);
    CellValid(l, d, s, t);
    hide Fits, Valid, Holds, Working, Torn, OffSlots, SameSlots, Cell, Ok?, Fail;
    var (d1, polled) := Poll(l, d, o);
    PollCell(l, d, s, t, o);
    s1 := s;
    if polled == Busy {
      TornSlotsIdle(l, d);
    } else {
      TornSlots(l, d, d1.mem);
      if !Holds(l, d1.mem, s) {
        s1 := t;
      }
      IdleOffSlots(l, d1);
      IdleCell(l, d1, s1, t);
    }
  }

  lemma FailOk(l: Layout, j: Journal, status: Status)
    requires Ok?(l, j) && Active(j.state)
    ensures Ok?(l, Fail(j, status)) && Fail(j, status).status != Busy && (status != Ok ==> Fail(j, status).status != Ok)
  {}

  lemma FailInv(l: Layout, j: Journal, d: Device, status: Status, s: Snapshot, t: Snapshot)
    requires Inv(l, j, d, s, t) && Active(j.state)
    ensures Inv(l, Fail(j, status), d, s, t)
  {
    hide Cell, Working, Ok?;
    FailOk(l, j, status);
  }

  lemma InvBasics(l: Layout, j: Journal, d: Device, s: Snapshot, t: Snapshot)
    requires Inv(l, j, d, s, t)
    ensures Cell(l, d, s, t) && Ok?(l, j) && Fits(l, d.mem) && Valid(l) && Holds(l, d.mem, s)
    ensures |l.metadata| == 2 && j.target < 2 * Records(l) && |j.record| == RECORD
    ensures j.state in {Erase, Write, Verify} ==> d.op.NoOp?
  {
    CellValid(l, d, s, t);
    hide Cell, Fits, Holds, Valid;
  }

  lemma CellValid(l: Layout, d: Device, s: Snapshot, t: Snapshot)
    requires Cell(l, d, s, t)
    ensures Valid(l) && Fits(l, d.mem) && Holds(l, d.mem, s)
  {}

  lemma IdleCell(l: Layout, d: Device, s: Snapshot, t: Snapshot)
    requires Holds(l, d.mem, s) && d.op.NoOp?
    ensures Cell(l, d, s, t)
  {}

  lemma TornSlotsIdle(l: Layout, d: Device)
    requires Fits(l, d.mem)
    ensures SameSlots(l, d.mem, d.mem)
  {}

  lemma IdleOffSlots(l: Layout, d: Device)
    requires Valid(l) && d.op.NoOp?
    ensures OffSlots(l, d.op)
  {}

  lemma EraseWaitDone(l: Layout, j: Journal, d: Device, e: Event, s: Snapshot, t: Snapshot)
    requires Ready(l) && Inv(l, j, d, s, t) && OffSlots(l, d.op) && j.state == EraseWait && !d.op.NoOp?
    requires Waited(l, j, d, e.outcome).0.None?
    ensures var (j1, d1) := StepEraseWait(l, j, d, e);
            && Inv(l, j1, d1, s, t) && OffSlots(l, d1.op) && SameSlots(l, d.mem, d1.mem)
            && (j1.status == Ok ==> s == t && d1.op.NoOp? && Achieved(l, j1, d1.mem))
  {
    EraseFinished(l, JobOf(j), d, s, t);
    var d1 := Device(Apply(d.mem, d.op), NoOp);
    FitsSame(l, d.mem, d1.mem);
    hide Fits, Holds, Apply, OffSlots, SameSlots, ErasePhase, ErasedPhase, Torn, Cell;
    IdleOffSlots(l, d1);
    ErasedWorks(l, j, d1, s, t);
  }

  lemma StepEraseWaitSafe(l: Layout, j: Journal, d: Device, e: Event, s: Snapshot, t: Snapshot) returns (s1: Snapshot)
    requires Ready(l) && Inv(l, j, d, s, t) && OffSlots(l, d.op) && j.state == EraseWait
    ensures var (j1, d1) := StepEraseWait(l, j, d, e);
            && (s1 == s || s1 == t) && Inv(l, j1, d1, s1, t) && OffSlots(l, d1.op) && SameSlots(l, d.mem, d1.mem)
            && (j1.status == Ok ==> s1 == t && d1.op.NoOp? && Achieved(l, j1, d1.mem))
  {
    hide Fits, Valid, Records, Holds, OffSlots, SameSlots, Cell, ErasePhase, Torn, Fail, Apply;
    CellValid(l, d, s, t);
    TornSlotsIdle(l, d);
    var (ended, d1) := Waited(l, j, d, e.outcome);
    var (d2, status) := Poll(l, d, e.outcome);
    s1 := s;
    if ended.Some? {
      if status == Busy && !j.timedOut {
        PollCell(l, d, s, t, e.outcome);
      } else {
        var failure := if j.timedOut then Timeout else status;
        s1 := FailSafe(l, j, d, e.outcome, failure, s, t);
        FailOk(l, j, failure);
      }
    } else if d.op.NoOp? {
      ErasedWorks(l, j, d, s, t);
    } else {
      EraseWaitDone(l, j, d, e, s, t);
    }
  }

  // An erase that has finished allows the next state.
  lemma ErasedWorks(l: Layout, j: Journal, d: Device, s: Snapshot, t: Snapshot)
    requires Ready(l) && Fits(l, d.mem) && Holds(l, d.mem, s) && Ok?(l, j) && d.op.NoOp?
    requires j.state == EraseWait && j.offset == 0 && ErasedPhase(l, JobOf(j), d.mem, s, t)
    ensures j.eraseOnly ==>
      Inv(l, j.(status := Ok, state := Done), d, s, t) && s == t && BankBlank(l, d.mem, Bank(l, j.target))
    ensures !j.eraseOnly ==> Inv(l, j.(state := Write), d, s, t)
  {}

  lemma StepWriteSafe(l: Layout, j: Journal, d: Device, e: Event, s: Snapshot, t: Snapshot)
    requires Ready(l) && Inv(l, j, d, s, t) && j.state == Write
    ensures var (j1, d1) := StepWrite(l, j, d, e);
            Inv(l, j1, d1, s, t) && d1.mem == d.mem && OffSlots(l, d1.op) && j1.status != Ok
  {
    hide Fits, Valid, Records, OffSlots, StartProgram, Fail, Aligned, Inv, Cell, Ready, Ok?;
    InvBasics(l, j, d, s, t);
    IdleOffSlots(l, d);
    UnitFits(l, j);
    WriteStarted(l, j, d, s, t);
    var data := j.record[j.offset..j.offset + l.writeSize];
    StartProgramCases(d, At(l, j.target) + j.offset, data, e.refuse);
    var failure := if j.timedOut then Timeout else StartProgram(d, At(l, j.target) + j.offset, data, e.refuse).1;
    FailInv(l, j, d, failure, s, t);
    FailOk(l, j, failure);
  }

  lemma WriteStarted(l: Layout, j: Journal, d: Device, s: Snapshot, t: Snapshot)
    requires Ready(l) && Inv(l, j, d, s, t) && j.state == Write
    ensures var k := NextUnit(j.offset, l.writeSize);
            var d1 := d.(op := ProgramOp(At(l, j.target) + j.offset, j.record[j.offset..k]));
            Inv(l, j.(state := WriteWait), d1, s, t) && OffSlots(l, d1.op) && j.status != Ok
  {
    hide Fits, Valid, Aligned, Holds, OffSlots, OpSafe, WritePhase, ProgramsRecord, Publishes, Partial;
    UnitFits(l, j);
    WriteOffSlots(l, JobOf(j), d, j.offset, s, t);
  }

  // The program that the machine starts stays inside its record.
  lemma WriteOffSlots(l: Layout, w: Job, d: Device, k: nat, s: Snapshot, t: Snapshot)
    requires Fits(l, d.mem) && WritePhase(l, w, d.mem, k, s, t) && k + l.writeSize <= RECORD && Aligned(k, l.writeSize)
    ensures var d1 := d.(op := ProgramOp(At(l, w.target) + k, w.record[k..k + l.writeSize]));
            && OffSlots(l, d1.op) && OpSafe(l, d1, s, t)
            && ProgramsRecord(l, d1, w.target, w.record, k) && Publishes(l, d.mem, w.record, s, t)
  {
    var d1 := d.(op := ProgramOp(At(l, w.target) + k, w.record[k..k + l.writeSize]));
    SlotsApart(l, w.target, 0);
    SlotsApart(l, w.target, 1);
    hide Fits, Partial, Copy, Successor;
    assert ProgramsRecord(l, d1, w.target, w.record, k);
    assert Publishes(l, d.mem, w.record, s, t);
  }

  lemma StepWriteWaitSafe(l: Layout, j: Journal, d: Device, e: Event, s: Snapshot, t: Snapshot) returns (s1: Snapshot)
    requires Ready(l) && Inv(l, j, d, s, t) && OffSlots(l, d.op) && j.state == WriteWait
    ensures var (j1, d1) := StepWriteWait(l, j, d, e);
            && (s1 == s || s1 == t) && Inv(l, j1, d1, s1, t) && OffSlots(l, d1.op) && SameSlots(l, d.mem, d1.mem)
            && j1.status != Ok
  {
    CellValid(l, d, s, t);
    var next := NextUnit(j.offset, l.writeSize);
    var (d1, status) := Poll(l, d, e.outcome);
    TornSlotsIdle(l, d);
    PollCell(l, d, s, t, e.outcome);
    if status == Busy && !j.timedOut {
      s1 := s;
    } else if status != Ok || j.timedOut {
      var failure := if j.timedOut then Timeout else status;
      hide Fits, Valid, Holds, Working, Torn, OffSlots, SameSlots, Cell, Ok?, Fail, Poll;
      s1 := FailSafe(l, j, d, e.outcome, failure, s, t);
      FailOk(l, j, failure);
    } else if d.op.NoOp? {
      s1 := s;
      hide Fits, Valid, Holds, OffSlots, SameSlots, Cell, WritePhase, WrittenPhase, Torn;
      AdvancedWorks(l, j, d, s1, t);
    } else {
      s1 := WriteWaitDone(l, j, d, e, s, t);
    }
  }

  lemma WriteWaitDone(l: Layout, j: Journal, d: Device, e: Event, s: Snapshot, t: Snapshot) returns (s1: Snapshot)
    requires Ready(l) && Inv(l, j, d, s, t) && OffSlots(l, d.op) && j.state == WriteWait && !d.op.NoOp?
    requires Waited(l, j, d, e.outcome).0.None?
    ensures var (j1, d1) := StepWriteWait(l, j, d, e);
            && (s1 == s || s1 == t) && Inv(l, j1, d1, s1, t) && OffSlots(l, d1.op) && SameSlots(l, d.mem, d1.mem)
            && j1.status != Ok
  {
    var d1 := Device(Apply(d.mem, d.op), NoOp);
    s1 := WriteApplied(l, j, d, s, t);
    hide Fits, Holds, Apply, OffSlots, SameSlots, OpSafe, WritePhase, AdvancedPhase, Torn, Cell, Working;
    IdleOffSlots(l, d1);
    AdvancedWorks(l, j, d1, s1, t);
  }

  lemma UnitFits(l: Layout, j: Journal)
    requires Ok?(l, j) && j.state in {Write, WriteWait}
    ensures j.offset + l.writeSize <= RECORD && Aligned(j.offset, l.writeSize)
      && NextUnit(j.offset, l.writeSize) == j.offset + l.writeSize
  {
    var next := NextUnit(j.offset, l.writeSize);
  }

  lemma WriteApplied(l: Layout, j: Journal, d: Device, s: Snapshot, t: Snapshot) returns (s1: Snapshot)
    requires Ready(l) && Inv(l, j, d, s, t) && OffSlots(l, d.op) && j.state == WriteWait && !d.op.NoOp?
    ensures var d1 := Device(Apply(d.mem, d.op), NoOp);
            && (s1 == s || s1 == t) && Cell(l, d1, s1, t) && SameSlots(l, d.mem, d1.mem)
            && AdvancedPhase(l, JobOf(j), d1.mem, j.offset + l.writeSize, s1, t)
  {
    hide Fits, Valid, Holds, Apply, OffSlots, SameSlots, OpSafe, WritePhase, AdvancedPhase, Torn, Aligned;
    CellValid(l, d, s, t);
    UnitFits(l, j);
    var d1 := Device(Apply(d.mem, d.op), NoOp);
    FitsSame(l, d.mem, d1.mem);
    ApplyTorn(l, d, s, t);
    TornSlots(l, d, d1.mem);
    WriteFinished(l, JobOf(j), d, j.offset, s, t);
    s1 := if j.offset + l.writeSize == RECORD && !j.checkpoint then t else s;
    IdleCell(l, d1, s1, t);
  }

  // A finished program allows the next state.
  lemma AdvancedWorks(l: Layout, j: Journal, d: Device, s: Snapshot, t: Snapshot)
    requires Ready(l) && Cell(l, d, s, t) && Ok?(l, j) && d.op.NoOp? && j.state == WriteWait
    requires AdvancedPhase(l, JobOf(j), d.mem, j.offset + l.writeSize, s, t)
    ensures var k := NextUnit(j.offset, l.writeSize);
            Inv(l, j.(offset := k, state := if k == RECORD then Verify else Write), d, s, t)
  {
    hide Fits, Holds, OpSafe, WritePhase, WrittenPhase;
  }

  lemma StepVerifySafe(l: Layout, j: Journal, d: Device, s: Snapshot, t: Snapshot)
    requires Ready(l) && Inv(l, j, d, s, t) && j.state == Verify
    ensures var (j1, d1) := StepVerify(l, j, d);
            && Inv(l, j1, d1, s, t) && d1 == d && (j1.status == Ok ==> s == t && Achieved(l, j1, d1.mem))
  {
    hide Fits, Valid, Records, Read, Fail, Inv, Cell, Ready, Ok?;
    InvBasics(l, j, d, s, t);
    var status := Read(d, At(l, j.target), RECORD);
    var failure := if status == Ok then ChecksumError else status;
    FailInv(l, j, d, failure, s, t);
    FailOk(l, j, failure);
    VerifyWorks(l, j, d, s, t);
  }

  // A record read back as written ends the work or starts the pending record.
  lemma VerifyWorks(l: Layout, j: Journal, d: Device, s: Snapshot, t: Snapshot)
    requires Ready(l) && Inv(l, j, d, s, t) && j.state == Verify
    ensures Fits(l, d.mem) && j.target < 2 * Records(l) && j.status != Ok
    ensures !j.checkpoint && Rec(l, d.mem, j.target) == j.record ==>
      s == t && Inv(l, j.(status := Ok, state := Done), d, s, t) && Achieved(l, j.(status := Ok, state := Done), d.mem)
    ensures j.checkpoint ==>
      Inv(l, j.(record := j.pendingRecord, target := j.pendingTarget, offset := 0, checkpoint := false, state := Erase),
          d, s, t)
  {
    CellValid(l, d, s, t);
    if j.checkpoint {
      CheckpointDone(l, j, d, s, t);
    }
    hide Fits, Holds, OpSafe, WritePhase, Purpose, ErasePhase;
  }

  // After a verified checkpoint the sector of the pending record may be erased.
  lemma CheckpointDone(l: Layout, j: Journal, d: Device, s: Snapshot, t: Snapshot)
    requires Ready(l) && Inv(l, j, d, s, t) && j.state == Verify && j.checkpoint
    ensures ErasePhase(l, JobOf(j.(record := j.pendingRecord, target := j.pendingTarget, checkpoint := false)), d.mem,
                       s, t)
  {
    hide Fits, Holds, OpSafe;
    var b :| 0 <= b < 2 && j.pendingTarget == First(l, b) && Bank(l, j.target) != b;
    assert Dec(l, d.mem, j.target) == Some(s);
    assert Elsewhere(l, d.mem, b, s);
    assert MayErase(l, j.pendingTarget, d.mem, s);
  }

  // What an ok result says about the target.
  ghost predicate Achieved(l: Layout, j: Journal, mem: seq<int>)
    requires Fits(l, mem) && Ok?(l, j)
  {
    if j.eraseOnly then BankBlank(l, mem, Bank(l, j.target)) else Rec(l, mem, j.target) == j.record
  }

  /** One tick keeps the invariant; success means that t is durable. */
  lemma TickSafe(l: Layout, j: Journal, d: Device, e: Event, s: Snapshot, t: Snapshot) returns (s1: Snapshot)
    requires Ready(l) && Inv(l, j, d, s, t) && OffSlots(l, d.op)
    ensures var (j1, d1) := Tick(l, j, d, e);
            && (s1 == s || s1 == t) && Inv(l, j1, d1, s1, t) && OffSlots(l, d1.op) && SameSlots(l, d.mem, d1.mem)
            && (j.status == Busy && j1.status == Ok ==> s1 == t && d1.op.NoOp? && Achieved(l, j1, d1.mem))
  {
    var j0 :=
      if j.requested then j.(started := e.now)
      else if j.status == Busy && Elapsed(e.now, j.started) >= l.operationTimeout then j.(timedOut := true)
      else j;
    hide Fits, Valid, Holds, OffSlots, SameSlots, Cell, WritePhase, WrittenPhase, ErasePhase, ErasedPhase;
    TimingKept(l, j, j0, d, s, t);
    CellValid(l, d, s, t);
    TornSlotsIdle(l, d);
    s1 := s;
    match j0.state {
      case Idle | Done | Failed =>
        if j0.requested {
          RequestTaken(l, j0, d, s, t);
        }
      case Erase => StepEraseSafe(l, j0, d, e, s, t);
      case EraseWait => s1 := StepEraseWaitSafe(l, j0, d, e, s, t);
      case Write => StepWriteSafe(l, j0, d, e, s, t);
      case WriteWait => s1 := StepWriteWaitSafe(l, j0, d, e, s, t);
      case Verify => StepVerifySafe(l, j0, d, s, t);
    }
  }

  lemma TimingKept(l: Layout, j: Journal, j0: Journal, d: Device, s: Snapshot, t: Snapshot)
    requires Inv(l, j, d, s, t) && j0 == j.(started := j0.started, timedOut := j0.timedOut)
    ensures Inv(l, j0, d, s, t)
  {
    hide Fits, Holds, OpSafe, WritePhase, WrittenPhase, ErasePhase, ErasedPhase;
  }

  lemma RequestTaken(l: Layout, j: Journal, d: Device, s: Snapshot, t: Snapshot)
    requires Inv(l, j, d, s, t) && j.requested && !Active(j.state)
    ensures Inv(l, j.(requested := false, state := if j.eraseNeeded then Erase else Write), d, s, t)
  {
    hide Fits, Holds, OpSafe, WritePhase, WrittenPhase, ErasePhase, ErasedPhase;
  }
}
