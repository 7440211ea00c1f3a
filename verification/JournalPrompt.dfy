/** Runs of the journal machine without a fault: every operation starts, none
    breaks, and no timeout passes, however long each takes. They succeed, and what
    they leave in every record is known in advance. */
module JournalPrompt {
  import opened Bytes
  import opened Record
  import opened Formats
  import opened Layouts
  import opened Flash
  import opened JournalSpec
  import opened JournalLoad
  import opened JournalSafety
  import opened JournalRuns

  const WIPED: seq<int> := Fill(RECORD, BLANK)

  // What record n holds once the job is done.
  function Want(l: Layout, w: Job, erase: bool, mem: seq<int>, n: nat): seq<int>
    requires Fits(l, mem) && n < 2 * Records(l)
  {
    if w.checkpoint then
      if n == w.pendingTarget then w.pendingRecord
      else if Bank(l, n) == Bank(l, w.pendingTarget) then WIPED
      else if n == w.target then w.record else Rec(l, mem, n)
    else if n == w.target && !w.eraseOnly then w.record
    else if erase && Bank(l, n) == Bank(l, w.target) then WIPED
    else Rec(l, mem, n)
  }

  predicate Erasing(j: Journal) {
    j.state in {Erase, EraseWait} || (j.requested && j.eraseNeeded)
  }

  // An upper bound of the ticks still needed.
  function Cost(j: Journal): int {
    var later := if j.checkpoint then 2 * RECORD + 4 else 0;
    later + match j.state
            case Idle | Done | Failed => 2 * RECORD + (if j.eraseNeeded then 5 else 3)
            case Erase => 2 * RECORD + 4
            case EraseWait => 2 * RECORD + 3
            case Write => 2 * (RECORD - j.offset) + 2
            case WriteWait => 2 * (RECORD - j.offset) + 1
            case Verify => 1
  }

  // The operation waited for is still this machine's own.
  predicate Owned(j: Journal, d: Device) {
    j.state in {EraseWait, WriteWait} ==> !d.op.NoOp?
  }

  predicate Busying(j: Journal) { j.status == Busy && !j.requested }

  // The same outcome is in prospect.
  ghost predicate Prospect(l: Layout, j: Journal, mem: seq<int>, j1: Journal, after: seq<int>)
    requires Fits(l, mem) && Fits(l, after)
  {
    forall n :: 0 <= n < 2 * Records(l) ==>
      Want(l, JobOf(j1), Erasing(j1), after, n) == Want(l, JobOf(j), Erasing(j), mem, n)
  }

  ghost predicate Fulfilled(l: Layout, j: Journal, mem: seq<int>, after: seq<int>)
    requires Fits(l, mem) && Fits(l, after)
  {
    forall n :: 0 <= n < 2 * Records(l) ==> Rec(l, after, n) == Want(l, JobOf(j), Erasing(j), mem, n)
  }

  predicate Undisturbed(j: Journal, e: Event) {
    !j.timedOut && !e.refuse && !e.outcome.Broken?
  }

  // The step went towards the outcome, or reached it; a poll that finds the
  // operation still running may leave everything as it was.
  ghost predicate Nearer(l: Layout, j: Journal, d: Device, j1: Journal, d1: Device, finished: bool)
    requires Fits(l, d.mem) && Fits(l, d1.mem)
  {
    && Owned(j1, d1) && j1.started == j.started && !j1.timedOut
    && if j1.status == Busy then
         !j1.requested && Cost(j1) + (if finished then 1 else 0) <= Cost(j) && Prospect(l, j, d.mem, j1, d1.mem)
       else j1.status == Ok && d1.op.NoOp? && Fulfilled(l, j, d.mem, d1.mem)
  }

  // ---- One step ----

  lemma PromptErase(l: Layout, j: Journal, d: Device, e: Event, s: Snapshot, t: Snapshot)
    requires Ready(l) && Inv(l, j, d, s, t) && j.state == Erase && Undisturbed(j, e)
    ensures var (j1, d1) := StepErase(l, j, d, e);
            d1.mem == d.mem && Nearer(l, j, d, j1, d1, true)
  {
    EraseOffSlots(l, j.target, d.mem, s);
    hide Fits, Valid, Holds, Purpose, MayErase, Records, Want;
  }

  lemma BankOfFirst(l: Layout, target: nat, mem: seq<int>, s: Snapshot)
    requires Fits(l, mem) && target < 2 * Records(l) && MayErase(l, target, mem, s)
    ensures ErasesBank(l, EraseOp(At(l, target), l.sectorSize), Bank(l, target))
    ensures Elsewhere(l, mem, Bank(l, target), s)
  {
    EraseOffSlots(l, target, mem, s);
  }

  lemma EraseFacts(l: Layout, j: Journal, d: Device, s: Snapshot, t: Snapshot)
    requires Ready(l) && Inv(l, j, d, s, t) && j.state == EraseWait && Owned(j, d)
    ensures Fits(l, d.mem) && j.target < 2 * Records(l) && !j.checkpoint && j.offset == 0 && Busying(j)
    ensures ErasesBank(l, d.op, Bank(l, j.target)) && Fits(l, Apply(d.mem, d.op))
  {
    BankOfFirst(l, j.target, d.mem, s);
    FitsSame(l, d.mem, Apply(d.mem, d.op));
  }

  lemma ErasedRecord(l: Layout, d: Device, b: nat, n: nat)
    requires Fits(l, d.mem) && ErasesBank(l, d.op, b) && n < 2 * Records(l)
    ensures Fits(l, Apply(d.mem, d.op))
    ensures Rec(l, Apply(d.mem, d.op), n) == if Bank(l, n) == b then WIPED else Rec(l, d.mem, n)
  {
    hide Valid, Records, Apply;
    var after := Apply(d.mem, d.op);
    ApplyOutside(d.mem, d.op);
    if Bank(l, n) == b {
      ErasedBank(l, d, b, n);
      assert Rec(l, after, n) == WIPED;
    } else {
      OtherBank(l, d, b, after, n);
    }
  }

  lemma PromptEraseWait(l: Layout, j: Journal, d: Device, e: Event, s: Snapshot, t: Snapshot)
    requires Ready(l) && Inv(l, j, d, s, t) && j.state == EraseWait && Undisturbed(j, e) && Owned(j, d)
      && e.outcome.Finished?
    ensures var (j1, d1) := StepEraseWait(l, j, d, e);
            Fits(l, d1.mem) && Nearer(l, j, d, j1, d1, true)
  {
    hide Fits, Valid, Cell, Working, Records, Apply, ErasesBank, Lawful, Ok?;
    EraseFacts(l, j, d, s, t);
    var after := Apply(d.mem, d.op);
    forall n | 0 <= n < 2 * Records(l)
      ensures Rec(l, after, n) == if Bank(l, n) == Bank(l, j.target) then WIPED else Rec(l, d.mem, n)
    {
      ErasedRecord(l, d, Bank(l, j.target), n);
    }
  }

  lemma PromptWrite(l: Layout, j: Journal, d: Device, e: Event, s: Snapshot, t: Snapshot)
    requires Ready(l) && Inv(l, j, d, s, t) && j.state == Write && Undisturbed(j, e)
    ensures var (j1, d1) := StepWrite(l, j, d, e);
            d1.mem == d.mem && Nearer(l, j, d, j1, d1, true)
  {
    hide Fits, Valid, Cell, Working, Records, Want, StartProgram, Lawful;
    UnitFits(l, j);
    UnitBlank(l, j, d, s, t);
    BlankStarts(d, At(l, j.target) + j.offset, j.record[j.offset..j.offset + l.writeSize]);
  }

  // The unit about to be programmed is blank, and its data are bytes.
  lemma UnitBlank(l: Layout, j: Journal, d: Device, s: Snapshot, t: Snapshot)
    requires Ready(l) && Inv(l, j, d, s, t) && j.state == Write && j.offset + l.writeSize <= RECORD
    ensures Fits(l, d.mem) && d.op.NoOp? && j.target < 2 * Records(l) && |l.metadata| == 2 && Busying(j)
    ensures var a := At(l, j.target) + j.offset;
            && a + l.writeSize <= |d.mem| && AllBytes(j.record[j.offset..j.offset + l.writeSize])
            && forall i :: a <= i < a + l.writeSize ==> d.mem[i] == BLANK
  {
    assert AllBytes(j.record) by { RecordBytes(l, j, d, s, t); }
    RecordsFit(l, d.mem, j.target);
    var a := At(l, j.target);
    hide Fits, Valid, Holds, Purpose, Records, At;
    forall i | a + j.offset <= i < a + j.offset + l.writeSize ensures d.mem[i] == BLANK {
      assert d.mem[i] == Rec(l, d.mem, j.target)[i - a];
    }
  }

  lemma RecordBytes(l: Layout, j: Journal, d: Device, s: Snapshot, t: Snapshot)
    requires Ready(l) && Inv(l, j, d, s, t) && j.state == Write
    ensures AllBytes(j.record)
  {
    hide Fits, Valid, Holds, Records;
    assert l.format.decode(j.record).Some?;
  }

  lemma WriteFacts(l: Layout, j: Journal, d: Device, s: Snapshot, t: Snapshot)
    requires Ready(l) && Inv(l, j, d, s, t) && j.state == WriteWait && Owned(j, d)
    ensures Fits(l, d.mem) && j.target < 2 * Records(l) && !j.eraseOnly && Busying(j)
    ensures ProgramsRecord(l, d, j.target, j.record, j.offset) && Fits(l, Apply(d.mem, d.op))
  {
    CellValid(l, d, s, t);
    UnitFits(l, j);
    WriteOffSlots(l, JobOf(j), d, j.offset, s, t);
    FitsSame(l, d.mem, Apply(d.mem, d.op));
  }

  lemma PromptWriteWait(l: Layout, j: Journal, d: Device, e: Event, s: Snapshot, t: Snapshot)
    requires Ready(l) && Inv(l, j, d, s, t) && j.state == WriteWait && Undisturbed(j, e) && Owned(j, d)
      && e.outcome.Finished?
    ensures var (j1, d1) := StepWriteWait(l, j, d, e);
            Fits(l, d1.mem) && Nearer(l, j, d, j1, d1, true)
  {
    hide Fits, Valid, Cell, Working, Records, Apply, ProgramsRecord, Lawful;
    WriteFacts(l, j, d, s, t);
    UnitFits(l, j);
    var after := Apply(d.mem, d.op);
    ApplyOutside(d.mem, d.op);
    forall n | 0 <= n < 2 * Records(l) && n != j.target ensures Rec(l, after, n) == Rec(l, d.mem, n) {
      OtherRecords(l, d, j.target, j.record, j.offset, after, n);
    }
  }

  lemma PromptVerify(l: Layout, j: Journal, d: Device, s: Snapshot, t: Snapshot)
    requires Ready(l) && Inv(l, j, d, s, t) && j.state == Verify && !j.timedOut
    ensures var (j1, d1) := StepVerify(l, j, d);
            d1 == d && Nearer(l, j, d, j1, d1, true)
  {
    hide Fits, Valid, Cell, Working, Records, Read, Lawful, Ok?, Prospect, Fulfilled;
    VerifyReads(l, j, d, s, t);
    VerifyOutcome(l, j, d);
  }

  // A record read back as written is the end, or the start of the pending one.
  lemma VerifyOutcome(l: Layout, j: Journal, d: Device)
    requires Fits(l, d.mem) && j.target < 2 * Records(l) && Rec(l, d.mem, j.target) == j.record && !j.eraseOnly
      && Busying(j) && j.state == Verify
    requires j.checkpoint ==> j.pendingTarget < 2 * Records(l) && Bank(l, j.target) != Bank(l, j.pendingTarget)
    ensures !j.checkpoint ==> Fulfilled(l, j, d.mem, d.mem)
    ensures j.checkpoint ==>
      Prospect(l, j, d.mem, j.(record := j.pendingRecord, target := j.pendingTarget, offset := 0, checkpoint := false,
                               state := Erase), d.mem)
  {
    hide Fits, Valid, Records, Bank;
  }

  lemma VerifyReads(l: Layout, j: Journal, d: Device, s: Snapshot, t: Snapshot)
    requires Ready(l) && Inv(l, j, d, s, t) && j.state == Verify
    ensures Fits(l, d.mem) && |l.metadata| == 2 && j.target < 2 * Records(l) && Busying(j) && d.op.NoOp?
    ensures Read(d, At(l, j.target), RECORD) == Ok && Rec(l, d.mem, j.target) == j.record && !j.eraseOnly
    ensures j.checkpoint ==> j.pendingTarget < 2 * Records(l) && Bank(l, j.target) != Bank(l, j.pendingTarget)
  {
    hide Fits, Valid, Records, Cell, Lawful;
    CellValid(l, d, s, t);
    DecodedBytes(l, j.record);
    RecordReads(l, d, j.target, j.record);
  }

  lemma DecodedBytes(l: Layout, record: seq<int>)
    requires Ready(l) && l.format.decode(record).Some?
    ensures AllBytes(record)
  {}

  lemma RecordReads(l: Layout, d: Device, n: nat, record: seq<int>)
    requires Fits(l, d.mem) && n < 2 * Records(l) && Rec(l, d.mem, n) == record && AllBytes(record) && d.op.NoOp?
    ensures |l.metadata| == 2 && Read(d, At(l, n), RECORD) == Ok
  {
    RecordsFit(l, d.mem, n);
  }

  /** An undisturbed tick brings the machine nearer to its outcome. */
  lemma PromptTick(l: Layout, j: Journal, d: Device, e: Event, s: Snapshot, t: Snapshot) returns (s1: Snapshot)
    requires Ready(l) && Inv(l, j, d, s, t) && OffSlots(l, d.op) && j.status == Busy && Owned(j, d)
    requires Undisturbed(j, e) && (j.requested || Elapsed(e.now, j.started) < l.operationTimeout)
    ensures var (j1, d1) := Tick(l, j, d, e);
            && Fits(l, d1.mem) && (s1 == s || s1 == t) && Inv(l, j1, d1, s1, t) && OffSlots(l, d1.op)
            && Nearer(l, j.(started := j1.started), d, j1, d1, e.outcome.Finished?)
            && j1.started == (if j.requested then e.now else j.started)
            && (j1.status == Ok ==> s1 == t)
  {
    hide Fits, Valid, Records, Cell, Lawful, OffSlots, Working, Nearer, Ok?, SameSlots, Achieved;
    CellValid(l, d, s, t);
    var j0 := if j.requested then j.(started := e.now) else j;
    TimingKept(l, j, j0, d, s, t);
    s1 := TickSafe(l, j, d, e, s, t);
    var (j1, d1) := Tick(l, j, d, e);
    CellValid(l, d1, s1, t);
    StateActive(l, j0);
    if j0.state in {EraseWait, WriteWait} && e.outcome.Running? {
      StillWaiting(l, j0, d, e);
    } else {
      match j0.state {
        case Idle | Done | Failed => PromptRequest(l, j0, d);
        case Erase => PromptErase(l, j0, d, e, s, t);
        case EraseWait => PromptEraseWait(l, j0, d, e, s, t);
        case Write => PromptWrite(l, j0, d, e, s, t);
        case WriteWait => PromptWriteWait(l, j0, d, e, s, t);
        case Verify => PromptVerify(l, j0, d, s, t);
      }
      NearerAnyway(l, j0, d, j1, d1, e.outcome.Finished?);
    }
    NearerStarted(l, j0, d, j1, d1, e.outcome.Finished?);
  }

  // An operation still running costs nothing and changes nothing.
  lemma StillWaiting(l: Layout, j: Journal, d: Device, e: Event)
    requires Fits(l, d.mem) && Ok?(l, j) && j.state in {EraseWait, WriteWait} && e.outcome.Running? && !j.timedOut
      && Owned(j, d)
    ensures Step(l, j, d, e) == (j, d) && Nearer(l, j, d, j, d, false)
  {
    hide Fits, Valid, Records, Want;
  }

  lemma NearerAnyway(l: Layout, j: Journal, d: Device, j1: Journal, d1: Device, finished: bool)
    requires Fits(l, d.mem) && Fits(l, d1.mem) && Nearer(l, j, d, j1, d1, true)
    ensures Nearer(l, j, d, j1, d1, finished)
  {
    hide Prospect, Fulfilled, Cost;
  }

  lemma StateActive(l: Layout, j: Journal)
    requires Ok?(l, j) && j.status == Busy
    ensures j.requested <==> !Active(j.state)
  {}

  lemma NearerStarted(l: Layout, j: Journal, d: Device, j1: Journal, d1: Device, finished: bool)
    requires Fits(l, d.mem) && Fits(l, d1.mem) && Nearer(l, j, d, j1, d1, finished)
    ensures j1.started == j.started
  {}

  lemma PromptRequest(l: Layout, j: Journal, d: Device)
    requires Fits(l, d.mem) && j.requested && !Active(j.state) && j.status == Busy && !j.timedOut
    ensures Nearer(l, j, d, j.(requested := false, state := if j.eraseNeeded then Erase else Write), d, true)
  {
    hide Fits, Valid, Records;
  }

  // ---- Whole runs ----

  // No tick of the run finds a timeout passed: the caller's, or the machine's own.
  ghost predicate InTime(l: Layout, j: Journal, d: Device, start: nat, timeout: nat, script: seq<Event>)
    requires Fits(l, d.mem) && Ok?(l, j)
    decreases |script|
  {
    j.status == Busy && script != [] ==>
      && Elapsed(script[0].caller, start) < timeout
      && (!j.requested ==> Elapsed(script[0].now, j.started) < l.operationTimeout)
      && var (j1, d1) := Tick(l, j.(timedOut := Elapsed(script[0].caller, start) >= timeout), d, script[0]);
         FitsSame(l, d.mem, d1.mem);
         InTime(l, j1, d1, start, timeout, script[1..])
  }

  ghost predicate AllFaultFree(script: seq<Event>) { forall i :: 0 <= i < |script| ==> FaultFree(script[i]) }

  /** A run without a fault succeeds, however many polls each operation takes, as
      long as the operations it needs finish; it leaves exactly the records in
      prospect, and all but what it needed of the events. */
  lemma {:induction false} PromptRun(l: Layout, j: Journal, d: Device, start: nat, timeout: nat, script: seq<Event>,
                                     s: Snapshot, t: Snapshot)
    requires Ready(l) && Inv(l, j, d, s, t) && OffSlots(l, d.op) && j.status == Busy && Owned(j, d)
    requires Fits(l, d.mem) && Ok?(l, j) && AllFaultFree(script) && InTime(l, j, d, start, timeout, script)
      && Cost(j) <= Finishes(script)
    ensures var r := Run(l, j, d, start, timeout, script);
            && Fits(l, d.mem) && r.j.status == Ok && r.d.op.NoOp? && Holds(l, r.d.mem, t) && Fits(l, r.d.mem)
            && Fulfilled(l, j, d.mem, r.d.mem)
            && |r.rest| <= |script| && r.rest == script[|script| - |r.rest|..]
            && Finishes(r.rest) + Cost(j) >= Finishes(script)
    decreases |script|
  {
    hide Fits, Valid, Records, Cell, Lawful, OffSlots, Working, Holds, Tick, Ok?, Prospect, Fulfilled, InTime, Inv,
         Cost, Owned, Ready;
    InvFits(l, j, d, s, t);
    var s1 := PromptStep(l, j, d, start, timeout, script, s, t);
    var (j1, d1) := Tick(l, j.(timedOut := Elapsed(script[0].caller, start) >= timeout), d, script[0]);
    if j1.status == Busy {
      PromptRun(l, j1, d1, start, timeout, script[1..], s1, t);
      var r := Run(l, j1, d1, start, timeout, script[1..]);
      ProspectMet(l, j, d.mem, j1, d1.mem, r.d.mem);
      assert r.rest == script[|script| - |r.rest|..];
    }
  }

  lemma InvFits(l: Layout, j: Journal, d: Device, s: Snapshot, t: Snapshot)
    requires Inv(l, j, d, s, t)
    ensures Fits(l, d.mem) && Ok?(l, j) && Valid(l) && Holds(l, d.mem, s)
  {
    hide Working, OpSafe;
  }

  // The first tick of a run without a fault.
  lemma PromptStep(l: Layout, j: Journal, d: Device, start: nat, timeout: nat, script: seq<Event>, s: Snapshot,
                   t: Snapshot)
    returns (s1: Snapshot)
    requires Ready(l) && Inv(l, j, d, s, t) && OffSlots(l, d.op) && j.status == Busy && Owned(j, d)
    requires Fits(l, d.mem) && Ok?(l, j) && AllFaultFree(script) && InTime(l, j, d, start, timeout, script)
      && Cost(j) <= Finishes(script)
    ensures script != [] && Fits(l, d.mem) && Ok?(l, j.(timedOut := Elapsed(script[0].caller, start) >= timeout))
    ensures var (j1, d1) := Tick(l, j.(timedOut := Elapsed(script[0].caller, start) >= timeout), d, script[0]);
            && Fits(l, d1.mem) && Inv(l, j1, d1, s1, t) && OffSlots(l, d1.op)
            && if j1.status == Busy then
                 && Owned(j1, d1) && AllFaultFree(script[1..]) && Ok?(l, j1)
                 && InTime(l, j1, d1, start, timeout, script[1..])
                 && Cost(j1) + Finishes(script) <= Cost(j) + Finishes(script[1..]) && Prospect(l, j, d.mem, j1, d1.mem)
               else
                 && j1.status == Ok && s1 == t && d1.op.NoOp? && Holds(l, d1.mem, t) && Fulfilled(l, j, d.mem, d1.mem)
                 && Finishes(script[1..]) + Cost(j) >= Finishes(script)
  {
    hide Fits, Valid, Records, Cell, Lawful, OffSlots, Working, Holds, Tick, Ok?, Prospect, Fulfilled, Ready;
    CellValid(l, d, s, t);
    CostPositive(l, j);
    var e := script[0];
    var j0 := j.(timedOut := Elapsed(e.caller, start) >= timeout);
    TimingKept(l, j, j0, d, s, t);
    s1 := PromptTick(l, j0, d, e, s, t);
    var (j1, d1) := Tick(l, j0, d, e);
    CellValid(l, d1, s1, t);
    var j2 := j0.(started := j1.started);
    if j1.status == Busy {
      ProspectSame(l, j, j2, d.mem, j1, d1.mem);
    } else {
      FulfilledSame(l, j, j2, d.mem, d1.mem);
    }
  }

  lemma CostPositive(l: Layout, j: Journal)
    requires Ok?(l, j)
    ensures Cost(j) > 0
  {}

  lemma FulfilledSame(l: Layout, j: Journal, j0: Journal, mem: seq<int>, after: seq<int>)
    requires Fits(l, mem) && Fits(l, after) && j0 == j.(started := j0.started, timedOut := j0.timedOut)
    requires Fulfilled(l, j0, mem, after)
    ensures Fulfilled(l, j, mem, after)
  {
    hide Fits, Records;
  }

  lemma ProspectSame(l: Layout, j: Journal, j0: Journal, mem: seq<int>, j1: Journal, after: seq<int>)
    requires Fits(l, mem) && Fits(l, after) && j0 == j.(started := j0.started, timedOut := j0.timedOut)
    requires Prospect(l, j0, mem, j1, after)
    ensures Prospect(l, j, mem, j1, after)
  {
    hide Fits, Records, Want;
    assert JobOf(j0) == JobOf(j) && Erasing(j0) == Erasing(j);
  }

  lemma ProspectMet(l: Layout, j: Journal, mem: seq<int>, j1: Journal, between: seq<int>, after: seq<int>)
    requires Fits(l, mem) && Fits(l, between) && Fits(l, after)
    requires Prospect(l, j, mem, j1, between) && Fulfilled(l, j1, between, after)
    ensures Fulfilled(l, j, mem, after)
  {
    hide Fits, Records, Want;
  }
}
