/** What the journal does to the bank that an application executes from: it never
    erases it. */
module JournalBound {
  import opened Record
  import opened Layouts
  import opened Flash
  import opened JournalSpec
  import opened JournalRuns
  import opened JournalCommit

  // ---- The executing bank is never erased ----

  // Every erase that the machine may still start is of the other bank.
  ghost predicate Spares(l: Layout, executing: nat, j: Journal)
    requires Valid(l) && executing < 2
  {
    && !j.eraseOnly
    && (j.checkpoint ==> j.pendingTarget == First(l, 1 - executing))
    && (j.state in {Erase, EraseWait} || (j.requested && j.eraseNeeded) ==> j.target == First(l, 1 - executing))
  }

  function OtherErase(l: Layout, executing: nat): Op
    requires Valid(l) && executing < 2
  {
    EraseOp(l.metadata[1 - executing], l.sectorSize)
  }

  // The operation in flight went on or ended, or is a program, or erases the other
  // bank.
  predicate Spared(l: Layout, executing: nat, before: Op, op: Op)
    requires Valid(l) && executing < 2
  {
    op == before || !op.EraseOp? || op == OtherErase(l, executing)
  }

  lemma FirstAt(l: Layout, bank: nat)
    requires Valid(l) && bank < 2 && First(l, bank) < 2 * Records(l)
    ensures At(l, First(l, bank)) == l.metadata[bank]
  {}

  lemma PollOp(l: Layout, d: Device, o: Outcome)
    ensures Poll(l, d, o).0.op == d.op || Poll(l, d, o).0.op == NoOp
  {}

  lemma EraseStarted(l: Layout, executing: nat, j: Journal, d: Device, e: Event)
    requires Fits(l, d.mem) && Ok?(l, j) && executing < 2 && j.state == Erase && Spares(l, executing, j)
    ensures var (j1, d1) := StepErase(l, j, d, e);
            Spares(l, executing, j1) && Spared(l, executing, d.op, d1.op)
  {
    FirstAt(l, 1 - executing);
    hide Fits, Valid, Records;
  }

  lemma WriteSpares(l: Layout, executing: nat, j: Journal, d: Device, e: Event)
    requires Fits(l, d.mem) && Ok?(l, j) && executing < 2 && j.state == Write && Spares(l, executing, j)
    ensures var (j1, d1) := StepWrite(l, j, d, e);
            Spares(l, executing, j1) && Spared(l, executing, d.op, d1.op)
  {
    UnitFits(l, j);
    hide Fits, Valid, Records, StartProgram;
    StartProgramCases(d, At(l, j.target) + j.offset, j.record[j.offset..j.offset + l.writeSize], e.refuse);
  }

  lemma StepSpares(l: Layout, executing: nat, j: Journal, d: Device, e: Event)
    requires Fits(l, d.mem) && Ok?(l, j) && executing < 2 && Spares(l, executing, j)
    ensures Valid(l)
    ensures var (j1, d1) := Step(l, j, d, e);
            Spares(l, executing, j1) && Spared(l, executing, d.op, d1.op)
  {
    hide Fits, Valid, Records, Ok?, Poll, StepWrite, StepErase, Read;
    OkValid(l, j);
    PollOp(l, d, e.outcome);
    match j.state {
      case Idle | Done | Failed =>
      case Erase => EraseStarted(l, executing, j, d, e);
      case EraseWait =>
      case Write =>
        WriteSpares(l, executing, j, d, e);
      case WriteWait =>
      case Verify =>
    }
  }

  lemma TickSpares(l: Layout, executing: nat, j: Journal, d: Device, e: Event)
    requires Fits(l, d.mem) && Ok?(l, j) && executing < 2 && Spares(l, executing, j)
    ensures var (j1, d1) := Tick(l, j, d, e);
            Fits(l, d1.mem) && Ok?(l, j1) && Spares(l, executing, j1) && Spared(l, executing, d.op, d1.op)
  {
    hide Fits, Valid, Records, Ok?, Step;
    var j1 :=
      if j.requested then j.(started := e.now)
      else if j.status == Busy && Elapsed(e.now, j.started) >= l.operationTimeout then j.(timedOut := true)
      else j;
    OkValid(l, j);
    TimedOk(l, j, j1);
    StepSpares(l, executing, j1, d, e);
    FitsSame(l, d.mem, Tick(l, j, d, e).1.mem);
  }

  lemma OkValid(l: Layout, j: Journal)
    requires Ok?(l, j)
    ensures Valid(l)
  {}

  // The operations in flight after each tick of the foreground loop.
  function Trace(l: Layout, j: Journal, d: Device, start: nat, timeout: nat, script: seq<Event>): seq<Op>
    requires Fits(l, d.mem) && Ok?(l, j)
    decreases |script|
  {
    if j.status != Busy || script == [] then []
    else
      var e := script[0];
      var (j1, d1) := Tick(l, j.(timedOut := Elapsed(e.caller, start) >= timeout), d, e);
      [d1.op] + Trace(l, j1, d1, start, timeout, script[1..])
  }

  lemma {:induction false} RunSpares(l: Layout, executing: nat, j: Journal, d: Device, start: nat, timeout: nat,
                                     script: seq<Event>)
    requires Fits(l, d.mem) && Ok?(l, j) && executing < 2 && Spares(l, executing, j)
    ensures Valid(l)
    ensures forall op :: op in Trace(l, j, d, start, timeout, script) ==> Spared(l, executing, d.op, op)
    ensures Spared(l, executing, d.op, Run(l, j, d, start, timeout, script).d.op)
    decreases |script|
  {
    hide Fits, Valid, Records, Ok?, Tick, Spares, OtherErase;
    OkValid(l, j);
    if j.status == Busy && script != [] {
      var e := script[0];
      var j0 := j.(timedOut := Elapsed(e.caller, start) >= timeout);
      TimedOk(l, j, j0);
      TimedSpares(l, executing, j, j0);
      TickSpares(l, executing, j0, d, e);
      var (j1, d1) := Tick(l, j0, d, e);
      RunSpares(l, executing, j1, d1, start, timeout, script[1..]);
    }
  }

  lemma TimedSpares(l: Layout, executing: nat, j: Journal, j0: Journal)
    requires Valid(l) && executing < 2 && Spares(l, executing, j) && j0 == j.(timedOut := j0.timedOut)
    ensures Spares(l, executing, j0)
  {}

  lemma PlanSpares(l: Layout, executing: nat, j: Journal, mem: seq<int>, latest: Option<nat>, s: Snapshot)
    requires Fits(l, mem) && Ok?(l, j) && j.status != Busy && executing < 2
    requires latest.Some? ==> latest.value < 2 * Records(l) && Dec(l, mem, latest.value).Some?
    ensures var (j1, status) := Plan(l, executing, j, mem, latest, s);
            status == Ok ==> Spares(l, executing, Request(j1))
  {
    hide Fits, Records, FirstBlank;
    OkValid(l, j);
  }

  // A commit that begins will spare the executing bank.
  lemma BeginSpares(l: Layout, executing: nat, j: Journal, d: Device, snapshot: Snapshot, initialize: bool, o: Outcome)
    requires Fits(l, d.mem) && Ok?(l, j) && executing < 2
    ensures Valid(l)
    ensures var begun := Begin(l, executing, j, d, snapshot, initialize, o);
            && Fits(l, begun.d.mem) && (begun.d.op == d.op || begun.d.op.NoOp?)
            && (begun.status == Ok ==> begun.d.op.NoOp? && Spares(l, executing, begun.j))
            && (begun.status != Ok ==> begun.j.status == j.status && (j.status == Busy ==> begun.j == j))
  {
    hide Fits, Valid, Records, Ok?, Plan, ScanTo, Dec, Spares, Load;
    OkValid(l, j);
    var begun := Begin(l, executing, j, d, snapshot, initialize, o);
    FitsSame(l, d.mem, begun.d.mem);
    LoadLatest(l, j, d, o);
    if j.status != Busy {
      var loaded := Load(l, j, d, o);
      if loaded.status == Ok || (initialize && loaded.status == NotFound) {
        FitsSame(l, d.mem, loaded.d.mem);
        var latest := if loaded.status == Ok then Some(loaded.j.latest) else None;
        PlanSpares(l, executing, loaded.j, loaded.d.mem, latest, snapshot);
      }
    }
  }

  lemma LoadLatest(l: Layout, j: Journal, d: Device, o: Outcome)
    requires Fits(l, d.mem) && Ok?(l, j)
    ensures var loaded := Load(l, j, d, o);
            && loaded.j == j.(latest := loaded.j.latest) && (loaded.d.op == d.op || loaded.d.op.NoOp?)
            && (loaded.status == Ok || loaded.status == NotFound ==> loaded.d.op.NoOp?)
            && (loaded.status == Ok ==>
                Fits(l, loaded.d.mem) && loaded.j.latest < 2 * Records(l)
                  && Dec(l, loaded.d.mem, loaded.j.latest).Some?)
  {
    hide Fits, Records;
    FitsSame(l, d.mem, Load(l, j, d, o).d.mem);
  }

  /** While an application executes from a bank, no commit, however it goes, has an
      erase of that bank in flight after any of its ticks. */
  lemma NeverErasesExecuting(l: Layout, executing: nat, j: Journal, d: Device, snapshot: Snapshot, initialize: bool,
                             start: nat, timeout: nat, o: Outcome, script: seq<Event>)
    requires Fits(l, d.mem) && Ok?(l, j) && executing < 2
    ensures var begun := Begin(l, executing, j, d, snapshot, initialize, o);
            begun.status == Ok ==>
              Fits(l, begun.d.mem) && Valid(l)
              && forall op :: op in Trace(l, begun.j, begun.d, start, timeout, script) && op.EraseOp? ==>
                   op == EraseOp(l.metadata[1 - executing], l.sectorSize)
  {
    hide Fits, Valid, Records, Ok?, Begin, Spares, Trace;
    BeginSpares(l, executing, j, d, snapshot, initialize, o);
    var begun := Begin(l, executing, j, d, snapshot, initialize, o);
    if begun.status == Ok {
      RunSpares(l, executing, begun.j, begun.d, start, timeout, script);
    }
  }
}
