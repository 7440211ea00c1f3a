/** The first commit of a journal in which nothing decodes: wherever it is cut,
    nothing decodes or the new snapshot is durable. */
module JournalInitial {
  import opened Bytes
  import opened Record
  import opened TornRecord
  import opened Formats
  import opened Layouts
  import opened Flash
  import opened JournalSpec
  import opened JournalLoad
  import opened JournalSafety
  import opened JournalRuns
  import opened JournalCommit
  import opened JournalPrompt

  ghost predicate Vacant(l: Layout, mem: seq<int>) {
    Fits(l, mem) && forall n :: 0 <= n < 2 * Records(l) ==> Dec(l, mem, n).None?
  }

  // Nothing but record n decodes.
  ghost predicate Only(l: Layout, mem: seq<int>, n: nat) {
    Fits(l, mem) && forall m :: 0 <= m < 2 * Records(l) && m != n ==> Dec(l, mem, m).None?
  }

  // Whatever an interruption now leaves, nothing decodes or t is durable.
  ghost predicate EmptyOr(l: Layout, d: Device, t: Snapshot) {
    forall after :: Torn(l, d, after) ==> Vacant(l, after) || Holds(l, after, t)
  }

  ghost predicate Writes(l: Layout, j: Journal, t: Snapshot) {
    && !j.checkpoint && !j.eraseOnly && |j.record| == RECORD && j.target < 2 * Records(l)
    && l.format.native(j.record) && l.format.decode(j.record) == Some(t)
  }

  ghost predicate Edge(l: Layout, target: nat) { target == First(l, 0) || target == First(l, 1) }

  // How far the work has come.
  ghost predicate Stage(l: Layout, j: Journal, d: Device)
    requires Fits(l, d.mem) && j.target < 2 * Records(l)
  {
    match j.state
    case Idle | Done | Failed =>
      && d.op.NoOp? && Vacant(l, d.mem) && j.offset == 0
      && if j.eraseNeeded then Edge(l, j.target) else Partial(l, d.mem, j.target, j.record, 0)
    case Erase => d.op.NoOp? && Vacant(l, d.mem) && j.offset == 0 && Edge(l, j.target)
    case EraseWait => Vacant(l, d.mem) && j.offset == 0 && Edge(l, j.target) && ErasesBank(l, d.op, Bank(l, j.target))
    case Write => d.op.NoOp? && Vacant(l, d.mem) && Partial(l, d.mem, j.target, j.record, j.offset)
    case WriteWait => Vacant(l, d.mem) && ProgramsRecord(l, d, j.target, j.record, j.offset)
    case Verify => d.op.NoOp? && Only(l, d.mem, j.target) && Rec(l, d.mem, j.target) == j.record
  }

  ghost predicate Initial(l: Layout, j: Journal, d: Device, t: Snapshot) {
    && Fits(l, d.mem) && Ok?(l, j) && OffSlots(l, d.op) && EmptyOr(l, d, t)
    && (j.status == Busy ==> Writes(l, j, t) && Stage(l, j, d))
  }

  // ---- What an interruption leaves ----

  lemma OnlyHolds(l: Layout, mem: seq<int>, n: nat, e: seq<int>, t: Snapshot)
    requires Only(l, mem, n) && n < 2 * Records(l) && Rec(l, mem, n) == e && l.format.native(e)
      && l.format.decode(e) == Some(t)
    ensures Holds(l, mem, t)
  {
    hide Fits;
    assert Dec(l, mem, n) == Some(t);
    forall m | 0 <= m < 2 * Records(l) ensures AtMost(l, mem, m, t) {
      if m != n { assert Dec(l, mem, m).None?; }
    }
    forall a: nat, b: nat ensures !Conflicting(l, mem, a, b) {
      if a < 2 * Records(l) && a != n { assert Dec(l, mem, a).None?; }
      if b < 2 * Records(l) && b != n { assert Dec(l, mem, b).None?; }
    }
  }

  lemma IdleEmptyOr(l: Layout, d: Device, t: Snapshot)
    requires d.op.NoOp? && (Vacant(l, d.mem) || Holds(l, d.mem, t))
    ensures EmptyOr(l, d, t)
  {
    hide Vacant, Holds;
    IdleTorn(l, d);
  }

  lemma EraseEmptyOr(l: Layout, d: Device, t: Snapshot)
    requires Vacant(l, d.mem) && d.op.EraseOp?
    ensures EmptyOr(l, d, t)
  {
    forall after | Torn(l, d, after) ensures Vacant(l, after) {
      FitsSame(l, d.mem, after);
      forall n | 0 <= n < 2 * Records(l) ensures Dec(l, after, n).None? {
        assert Dec(l, d.mem, n).None?;
      }
    }
  }

  lemma ProgramEmptyOr(l: Layout, d: Device, n: nat, e: seq<int>, k: nat, t: Snapshot)
    requires Ready(l) && Vacant(l, d.mem) && ProgramsRecord(l, d, n, e, k) && l.format.native(e)
      && l.format.decode(e) == Some(t)
    ensures EmptyOr(l, d, t)
  {
    hide Torn, Holds;
    forall after | Torn(l, d, after) ensures Vacant(l, after) || Holds(l, after, t) {
      TornProgramLeaves(l, d, n, e, k, t, after);
    }
  }

  lemma TornProgramLeaves(l: Layout, d: Device, n: nat, e: seq<int>, k: nat, t: Snapshot, after: seq<int>)
    requires Ready(l) && Vacant(l, d.mem) && ProgramsRecord(l, d, n, e, k) && l.format.native(e)
      && l.format.decode(e) == Some(t)
    requires Torn(l, d, after)
    ensures Vacant(l, after) || Holds(l, after, t)
  {
    hide Fits, Valid, Holds;
    InnerCells(l, d, n, e, k, after);
    forall m | 0 <= m < 2 * Records(l) && m != n ensures Dec(l, after, m).None? {
      OtherRecords(l, d, n, e, k, after, m);
      assert Dec(l, d.mem, m).None?;
    }
    if Dec(l, after, n).Some? {
      assert Rec(l, after, n) == e;
      OnlyHolds(l, after, n, e, t);
    }
  }

  // A completed operation is one of the things an interruption can leave.
  lemma ErasedTorn(l: Layout, d: Device, b: nat)
    requires Ready(l) && Fits(l, d.mem) && ErasesBank(l, d.op, b)
    ensures Torn(l, d, Apply(d.mem, d.op))
  {
    var after := Apply(d.mem, d.op);
    ApplyOutside(d.mem, d.op);
    FitsSame(l, d.mem, after);
    hide Fits, Valid, Apply;
    forall n | 0 <= n < 2 * Records(l) ensures Rec(l, after, n) == Rec(l, d.mem, n) || Dec(l, after, n).None? {
      ErasedRecord(l, d, b, n);
      assert WIPED[RECORD - 1] == BLANK;
    }
  }

  // A poll ends the operation as an interruption could, or not at all.
  lemma PollLeaves(l: Layout, d: Device, o: Outcome, t: Snapshot)
    requires Fits(l, d.mem) && EmptyOr(l, d, t) && OffSlots(l, d.op)
    requires o.Finished? && !d.op.NoOp? ==> Torn(l, d, Apply(d.mem, d.op))
    ensures var (d1, status) := Poll(l, d, o);
            && EmptyOr(l, d1, t) && OffSlots(l, d1.op) && SameSlots(l, d.mem, d1.mem)
            && (status == Busy ==> d1 == d)
            && (status == Ok && !d.op.NoOp? ==> o.Finished? && d1 == Device(Apply(d.mem, d.op), NoOp))
  {
    hide Fits, Valid, Torn, Vacant, Holds, SameSlots, OffSlots, EmptyOr, Apply;
    var (d1, status) := Poll(l, d, o);
    FitsValid(l, d.mem);
    TornSlotsIdle(l, d);
    if d1 != d {
      TornSlots(l, d, d1.mem);
      Left(l, d, d1.mem, t);
      IdleEmptyOr(l, d1, t);
      IdleOffSlots(l, d1);
    }
  }

  lemma Left(l: Layout, d: Device, after: seq<int>, t: Snapshot)
    requires EmptyOr(l, d, t) && Torn(l, d, after)
    ensures Vacant(l, after) || Holds(l, after, t)
  {}

  // ---- Steps ----

  lemma EdgeErases(l: Layout, target: nat, mem: seq<int>)
    requires Fits(l, mem) && target < 2 * Records(l) && Edge(l, target)
    ensures var op := EraseOp(At(l, target), l.sectorSize);
            ErasesBank(l, op, Bank(l, target)) && OffSlots(l, op)
  {
    SlotsApart(l, target, 0);
    SlotsApart(l, target, 1);
  }

  lemma FailInitial(l: Layout, j: Journal, d: Device, status: Status, t: Snapshot)
    requires Fits(l, d.mem) && Ok?(l, j) && Active(j.state) && OffSlots(l, d.op) && EmptyOr(l, d, t)
    ensures Initial(l, Fail(j, status), d, t)
  {
    hide Fits, Valid, OffSlots, EmptyOr, Ok?;
    FailOk(l, j, status);
  }

  lemma EraseInitial(l: Layout, j: Journal, d: Device, e: Event, t: Snapshot)
    requires Ready(l) && Initial(l, j, d, t) && j.state == Erase && j.status == Busy
    ensures var (j1, d1) := StepErase(l, j, d, e);
            Initial(l, j1, d1, t) && d1.mem == d.mem && j1.status != Ok
  {
    hide Fits, Valid, OffSlots, EmptyOr, Vacant, Fail, Torn;
    var failure := if j.timedOut then Timeout else StartErase(d, At(l, j.target), l.sectorSize, e.refuse).1;
    FailInitial(l, j, d, failure, t);
    FailOk(l, j, failure);
    EdgeErases(l, j.target, d.mem);
    EraseEmptyOr(l, d.(op := EraseOp(At(l, j.target), l.sectorSize)), t);
  }

  lemma ErasedInitial(l: Layout, j: Journal, d: Device)
    requires Ready(l) && Vacant(l, d.mem) && Ok?(l, j) && ErasesBank(l, d.op, Bank(l, j.target))
    ensures var after := Apply(d.mem, d.op);
            Vacant(l, after) && Partial(l, after, j.target, j.record, 0)
  {
    hide Fits, Valid, Apply;
    var after := Apply(d.mem, d.op);
    forall n | 0 <= n < 2 * Records(l) ensures Fits(l, after) && Dec(l, after, n).None? {
      ErasedRecord(l, d, Bank(l, j.target), n);
      assert Dec(l, d.mem, n).None?;
      assert WIPED[RECORD - 1] == BLANK;
    }
    ErasedRecord(l, d, Bank(l, j.target), j.target);
  }

  lemma EraseWaitInitial(l: Layout, j: Journal, d: Device, e: Event, t: Snapshot)
    requires Ready(l) && Initial(l, j, d, t) && j.state == EraseWait && j.status == Busy
    ensures var (j1, d1) := StepEraseWait(l, j, d, e);
            Initial(l, j1, d1, t) && SameSlots(l, d.mem, d1.mem) && j1.status != Ok
  {
    hide Fits, Valid, OffSlots, EmptyOr, Vacant, Fail, Torn, SameSlots, ErasesBank, Apply, Partial;
    ErasedTorn(l, d, Bank(l, j.target));
    PollLeaves(l, d, e.outcome, t);
    var (d1, status) := Poll(l, d, e.outcome);
    FitsSame(l, d.mem, d1.mem);
    if status != Busy || j.timedOut {
      var failure := if j.timedOut then Timeout else status;
      FailInitial(l, j, d1, failure, t);
      FailOk(l, j, failure);
    }
    ErasedInitial(l, j, d);
    EraseOpBusy(l, d, Bank(l, j.target));
  }

  lemma EraseOpBusy(l: Layout, d: Device, b: nat)
    requires Valid(l) && ErasesBank(l, d.op, b)
    ensures !d.op.NoOp?
  {}

  lemma WriteInitial(l: Layout, j: Journal, d: Device, e: Event, t: Snapshot)
    requires Ready(l) && Initial(l, j, d, t) && j.state == Write && j.status == Busy
    ensures var (j1, d1) := StepWrite(l, j, d, e);
            Initial(l, j1, d1, t) && d1.mem == d.mem && j1.status != Ok
  {
    hide Fits, Valid, OffSlots, EmptyOr, Vacant, Fail, Torn, StartProgram, Aligned, Partial;
    UnitFits(l, j);
    var data := j.record[j.offset..j.offset + l.writeSize];
    StartProgramCases(d, At(l, j.target) + j.offset, data, e.refuse);
    var failure := if j.timedOut then Timeout else StartProgram(d, At(l, j.target) + j.offset, data, e.refuse).1;
    FailInitial(l, j, d, failure, t);
    FailOk(l, j, failure);
    var d1 := d.(op := ProgramOp(At(l, j.target) + j.offset, data));
    ProgramOff(l, d1, j.target, j.record, j.offset);
    ProgramEmptyOr(l, d1, j.target, j.record, j.offset, t);
  }

  lemma ProgramOff(l: Layout, d: Device, n: nat, e: seq<int>, k: nat)
    requires Fits(l, d.mem) && ProgramsRecord(l, d, n, e, k)
    ensures OffSlots(l, d.op)
  {
    SlotsApart(l, n, 0);
    SlotsApart(l, n, 1);
  }

  lemma ProgrammedTorn(l: Layout, d: Device)
    requires d.op.ProgramOp?
    ensures Torn(l, d, Apply(d.mem, d.op))
  {
    ApplyOutside(d.mem, d.op);
  }

  // A unit more is in place.
  lemma ProgrammedInitial(l: Layout, j: Journal, d: Device, t: Snapshot)
    requires Ready(l) && Vacant(l, d.mem) && Ok?(l, j) && ProgramsRecord(l, d, j.target, j.record, j.offset)
    ensures var after := Apply(d.mem, d.op);
            var k := j.offset + l.writeSize;
            && Partial(l, after, j.target, j.record, k) && Only(l, after, j.target)
            && (k < RECORD ==> Vacant(l, after)) && (k == RECORD ==> Rec(l, after, j.target) == j.record)
  {
    var after := Apply(d.mem, d.op);
    WriteAdvanced(l, JobOf(j), d, j.offset);
    ApplyOutside(d.mem, d.op);
    hide Fits, Valid, Apply;
    forall m | 0 <= m < 2 * Records(l) && m != j.target ensures Dec(l, after, m).None? {
      OtherRecords(l, d, j.target, j.record, j.offset, after, m);
      assert Dec(l, d.mem, m).None?;
    }
    if j.offset + l.writeSize < RECORD {
      PartialRefused(l, after, j.target, j.record, j.offset + l.writeSize);
    }
  }

  lemma WriteWaitInitial(l: Layout, j: Journal, d: Device, e: Event, t: Snapshot)
    requires Ready(l) && Initial(l, j, d, t) && j.state == WriteWait && j.status == Busy
    ensures var (j1, d1) := StepWriteWait(l, j, d, e);
            Initial(l, j1, d1, t) && SameSlots(l, d.mem, d1.mem) && j1.status != Ok
  {
    hide Fits, Valid, OffSlots, EmptyOr, Vacant, Only, Fail, Torn, SameSlots, Apply, Partial, Aligned;
    UnitFits(l, j);
    ProgrammedTorn(l, d);
    PollLeaves(l, d, e.outcome, t);
    var (d1, status) := Poll(l, d, e.outcome);
    FitsSame(l, d.mem, d1.mem);
    if status != Busy || j.timedOut {
      var failure := if j.timedOut then Timeout else status;
      FailInitial(l, j, d1, failure, t);
      FailOk(l, j, failure);
    }
    ProgrammedInitial(l, j, d, t);
  }

  lemma VerifyInitial(l: Layout, j: Journal, d: Device, t: Snapshot)
    requires Ready(l) && Initial(l, j, d, t) && j.state == Verify && j.status == Busy
    ensures var (j1, d1) := StepVerify(l, j, d);
            Initial(l, j1, d1, t) && d1 == d && (j1.status == Ok ==> d.op.NoOp? && Holds(l, d.mem, t))
  {
    hide Fits, Valid, OffSlots, EmptyOr, Only, Fail, Read, Holds;
    var status := Read(d, At(l, j.target), RECORD);
    var failure := if status == Ok then ChecksumError else status;
    FailInitial(l, j, d, failure, t);
    FailOk(l, j, failure);
    OnlyHolds(l, d.mem, j.target, j.record, t);
  }

  lemma TimedInitial(l: Layout, j: Journal, j0: Journal, d: Device, t: Snapshot)
    requires Initial(l, j, d, t) && j0 == j.(started := j0.started, timedOut := j0.timedOut)
    ensures Initial(l, j0, d, t)
  {
    hide Fits, Valid, OffSlots, EmptyOr, Vacant, Only, Partial;
  }

  lemma TickInitial(l: Layout, j: Journal, d: Device, e: Event, t: Snapshot)
    requires Ready(l) && Initial(l, j, d, t)
    ensures var (j1, d1) := Tick(l, j, d, e);
            && Initial(l, j1, d1, t) && SameSlots(l, d.mem, d1.mem)
            && (j.status == Busy && j1.status == Ok ==> d1.op.NoOp? && Holds(l, d1.mem, t))
  {
    hide Fits, Valid, OffSlots, EmptyOr, Vacant, Only, Partial, Holds, SameSlots, StepErase, StepEraseWait, StepWrite,
         StepWriteWait, StepVerify, Ready;
    var j0 := if j.requested then j.(started := e.now)
              else if j.status == Busy && Elapsed(e.now, j.started) >= l.operationTimeout then j.(timedOut := true)
              else j;
    TimedInitial(l, j, j0, d, t);
    TornSlotsIdle(l, d);
    match j0.state {
      case Idle | Done | Failed =>
      case Erase => EraseInitial(l, j0, d, e, t);
      case EraseWait => EraseWaitInitial(l, j0, d, e, t);
      case Write => WriteInitial(l, j0, d, e, t);
      case WriteWait => WriteWaitInitial(l, j0, d, e, t);
      case Verify => VerifyInitial(l, j0, d, t);
    }
  }

  lemma {:induction false} RunInitial(l: Layout, j: Journal, d: Device, start: nat, timeout: nat, script: seq<Event>,
                                      t: Snapshot)
    requires Ready(l) && Initial(l, j, d, t) && j.status == Busy
    ensures Fits(l, d.mem) && Ok?(l, j)
    ensures var r := Run(l, j, d, start, timeout, script);
            && EmptyOr(l, r.d, t) && OffSlots(l, r.d.op) && SameSlots(l, d.mem, r.d.mem)
            && (r.j.status == Ok ==> r.d.op.NoOp? && Holds(l, r.d.mem, t))
    decreases |script|
  {
    hide Fits, Valid, OffSlots, EmptyOr, Holds, SameSlots, Ready, Tick, Writes, Stage, Ok?;
    TornSlotsIdle(l, d);
    if script != [] {
      var e := script[0];
      var j0 := j.(timedOut := Elapsed(e.caller, start) >= timeout);
      TimedInitial(l, j, j0, d, t);
      TickInitial(l, j0, d, e, t);
      var (j1, d1) := Tick(l, j0, d, e);
      if j1.status == Busy {
        RunInitial(l, j1, d1, start, timeout, script[1..], t);
        SameSlotsChain(l, d.mem, d1.mem, Run(l, j1, d1, start, timeout, script[1..]).d.mem);
      }
    }
  }

  // ---- The whole commit ----

  lemma PlanInitial(l: Layout, executing: nat, j: Journal, d: Device, snapshot: Snapshot)
    requires Ready(l) && Vacant(l, d.mem) && d.op.NoOp? && Ok?(l, j) && j.status != Busy
    ensures var (j1, status) := Plan(l, executing, j, d.mem, None, snapshot);
            var t := snapshot.(sequence := 1);
            status == Ok ==> Committable(t) && Initial(l, Request(j1), d, t)
  {
    hide Fits, Valid, FirstBlank, IsBlank, Holds, EmptyOr, OffSlots, Torn, Vacant, Lawful, Committable;
    FitsOf(l, d.mem);
    var t := snapshot.(sequence := 1);
    var record := l.format.encode(t);
    IdleEmptyOr(l, d, t);
    IdleOffSlots(l, d);
    if |record| == RECORD && l.format.decode(record).Some? {
      EncodedFirst(l, t);
      PlaceInitial(l, executing, d.mem, record);
    }
  }

  lemma FitsOf(l: Layout, mem: seq<int>)
    requires Vacant(l, mem)
    ensures Fits(l, mem) && Valid(l)
  {}

  lemma EncodedFirst(l: Layout, t: Snapshot)
    requires Ready(l) && l.format.decode(l.format.encode(t)).Some?
    ensures Committable(t) && l.format.native(l.format.encode(t)) && l.format.decode(l.format.encode(t)) == Some(t)
  {}

  // The blank places found are blank.
  lemma PlaceInitial(l: Layout, executing: nat, mem: seq<int>, record: seq<int>)
    requires Fits(l, mem) && |record| == RECORD
    ensures executing < 2 ==>
      First(l, 1 - executing) + Records(l) <= 2 * Records(l)
      && var free := FirstBlank(l, mem, First(l, 1 - executing), First(l, 1 - executing) + Records(l));
         free.Some? ==> free.value < 2 * Records(l) && Partial(l, mem, free.value, record, 0)
  {
    hide Fits, Valid, FirstBlank, IsBlank, Partial;
    if executing < 2 {
      var first := First(l, 1 - executing);
      FirstBlankExact(l, mem, first, first + Records(l));
      var free := FirstBlank(l, mem, first, first + Records(l));
      if free.Some? {
        BlankPartial(l, mem, free.value, record);
      }
    }
  }

  /** The first commit of a journal in which nothing decodes is atomic. However many of
      its steps run, and wherever the power goes, nothing decodes or load returns exactly
      the new snapshot with sequence number one; an ok result means that it does. */
  lemma FirstCommitAtomic(l: Layout, executing: nat, j: Journal, d: Device, snapshot: Snapshot, timeout: nat,
                          start: nat, o: Outcome, script: seq<Event>)
    requires Ready(l) && Ok?(l, j) && j.status != Busy && d.op.NoOp? && Vacant(l, d.mem)
    ensures var r := Commit(l, executing, j, d, snapshot, timeout, true, start, o, script);
            var t := snapshot.(sequence := 1);
            && SameSlots(l, d.mem, r.d.mem) && OffSlots(l, r.d.op)
            && (forall after :: Torn(l, r.d, after) ==> Vacant(l, after) || Recovers(l, after, t))
            && (r.status == Ok ==> r.d.op.NoOp? && Recovers(l, r.d.mem, t) && Committable(t))
  {
    hide Fits, Valid, Torn, Vacant, Holds, EmptyOr, OffSlots, SameSlots, Plan, Run, Initial, Recovers, Committable,
         Ready, Ok?;
    FitsOf(l, d.mem);
    var t := snapshot.(sequence := 1);
    var loaded := Load(l, j, d, o);
    VacantLoads(l, j, d, o);
    var r := Commit(l, executing, j, d, snapshot, timeout, true, start, o, script);
    IdleEmptyOr(l, d, t);
    IdleOffSlots(l, d);
    TornSlotsIdle(l, d);
    if loaded.status == NotFound {
      var (j1, status) := Plan(l, executing, j, d.mem, None, snapshot);
      PlanInitial(l, executing, j, d, snapshot);
      if status == Ok {
        RunInitial(l, Request(j1), d, start, if timeout == 0 then l.operationTimeout else timeout, script, t);
      }
    }
    forall after | Torn(l, r.d, after) ensures Vacant(l, after) || Recovers(l, after, t) {
      Left(l, r.d, after, t);
      if Holds(l, after, t) { HoldsRecovers(l, after, t); }
    }
    if r.status == Ok { HoldsRecovers(l, r.d.mem, t); }
  }

  // Load finds nothing, or cannot read.
  lemma VacantLoads(l: Layout, j: Journal, d: Device, o: Outcome)
    requires Ready(l) && Ok?(l, j) && d.op.NoOp? && Vacant(l, d.mem)
    ensures Fits(l, d.mem)
    ensures var loaded := Load(l, j, d, o);
            loaded.d == d && loaded.j == j && loaded.status in {NotFound, IoError}
  {
    hide Fits, Valid, ScanTo, Lawful;
    LoadExact(l, d.mem);
    var p := ScanTo(l, d.mem, 2 * Records(l));
    if CaughtBefore(l, d.mem, 2 * Records(l)) {
      CaughtDisagrees(l, d.mem, 2 * Records(l));
    }
  }
}
