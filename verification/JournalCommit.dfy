/** Whole commits and boot-time preparation, interrupted anywhere. */
module JournalCommit {
  import opened Bytes
  import opened Record
  import opened Formats
  import opened Layouts
  import opened Flash
  import opened JournalSpec
  import opened JournalLoad
  import opened JournalSafety
  import opened JournalRuns

  // ---- Choosing a place ----

  lemma {:induction false} FirstBlankExact(l: Layout, mem: seq<int>, lo: nat, hi: nat)
    requires Fits(l, mem) && lo <= hi <= 2 * Records(l)
    ensures var r := FirstBlank(l, mem, lo, hi);
            if r.Some? then IsBlank(l, mem, r.value) && forall n :: lo <= n < r.value ==> !IsBlank(l, mem, n)
            else forall n :: lo <= n < hi ==> !IsBlank(l, mem, n)
    decreases hi - lo
  {
    hide Fits, IsBlank;
    if lo < hi && !IsBlank(l, mem, lo) {
      FirstBlankExact(l, mem, lo + 1, hi);
    }
  }

  lemma BlankPartial(l: Layout, mem: seq<int>, n: nat, e: seq<int>)
    requires Fits(l, mem) && n < 2 * Records(l) && IsBlank(l, mem, n) && |e| == RECORD
    ensures Partial(l, mem, n, e, 0)
  {}

  lemma SafeToErase(l: Layout, mem: seq<int>, b: nat, n: nat, s: Snapshot)
    requires Fits(l, mem) && n < 2 * Records(l) && Dec(l, mem, n) == Some(s) && b < 2 && Bank(l, n) != b
    ensures MayErase(l, First(l, b), mem, s)
  {
    hide Fits;
    assert Elsewhere(l, mem, b, s);
  }

  // The request phase of Working, by fields.
  ghost predicate Planned(l: Layout, w: Job, eraseNeeded: bool, mem: seq<int>, s: Snapshot, t: Snapshot)
    requires Fits(l, mem)
  {
    if eraseNeeded then ErasePhase(l, w, mem, s, t) else WritePhase(l, w, mem, 0, s, t)
  }

  lemma BlankPlanned(l: Layout, mem: seq<int>, w: Job, s: Snapshot, t: Snapshot)
    requires Fits(l, mem) && w.target < 2 * Records(l) && IsBlank(l, mem, w.target) && |w.record| == RECORD
    requires !w.eraseOnly && Purpose(l, w, mem, s, t)
    ensures Planned(l, w, false, mem, s, t)
  {
    hide Fits, Purpose;
    BlankPartial(l, mem, w.target, w.record);
  }

  lemma ErasePlanned(l: Layout, mem: seq<int>, w: Job, b: nat, n: nat, s: Snapshot, t: Snapshot)
    requires Fits(l, mem) && n < 2 * Records(l) && Dec(l, mem, n) == Some(s) && b < 2 && Bank(l, n) != b
    requires !w.checkpoint && w.target == First(l, b) && Purpose(l, w, mem, s, t)
    ensures Planned(l, w, true, mem, s, t)
  {
    hide Fits, Purpose, MayErase;
    SafeToErase(l, mem, b, n, s);
  }

  lemma InBank(l: Layout, b: nat, n: nat)
    requires b < 2 && First(l, b) <= n < First(l, b) + Records(l)
    ensures Bank(l, n) == b
  {}

  lemma PlaceSafe(l: Layout, mem: seq<int>, w: Job, n: nat, s: Snapshot, t: Snapshot)
    requires Fits(l, mem) && n < 2 * Records(l) && Dec(l, mem, n) == Some(s)
    requires !w.checkpoint && !w.eraseOnly && |w.record| == RECORD && Purpose(l, w, mem, s, t)
    ensures var (target, eraseNeeded) := Place(l, mem, Some(n));
            Planned(l, w.(target := target), eraseNeeded, mem, s, t)
  {
    hide Fits, Records, FirstBlank, Planned, Purpose, IsBlank;
    var bank := Bank(l, n);
    var free := FirstBlank(l, mem, n + 1, First(l, bank) + Records(l));
    FirstBlankExact(l, mem, n + 1, First(l, bank) + Records(l));
    PurposeTarget(l, mem, w, Place(l, mem, Some(n)).0, s, t);
    if free.Some? {
      BlankPlanned(l, mem, w.(target := free.value), s, t);
    } else {
      ErasePlanned(l, mem, w.(target := First(l, 1 - bank)), 1 - bank, n, s, t);
    }
  }

  // Without a checkpoint the purpose does not depend on the place.
  lemma PurposeTarget(l: Layout, mem: seq<int>, w: Job, target: nat, s: Snapshot, t: Snapshot)
    requires Fits(l, mem) && !w.checkpoint && Purpose(l, w, mem, s, t)
    ensures Purpose(l, w.(target := target), mem, s, t)
  {}

  // A record of the newest sequence number is the only content that number has.
  lemma NewestCopy(l: Layout, mem: seq<int>, n: nat, s: Snapshot)
    requires Holds(l, mem, s) && n < 2 * Records(l) && Dec(l, mem, n) == Some(s)
    ensures Copy(l, mem, Rec(l, mem, n), s)
  {
    hide Fits;
    assert AtMost(l, mem, n, s);
    forall m | 0 <= m < 2 * Records(l) && Dec(l, mem, m).Some? && Dec(l, mem, m).value.sequence == s.sequence
      ensures Rec(l, mem, m) == Rec(l, mem, n)
    {
      assert !Conflicting(l, mem, m, n);
    }
  }

  lemma HoldsFits(l: Layout, mem: seq<int>, s: Snapshot)
    requires Holds(l, mem, s)
    ensures Fits(l, mem) && Valid(l)
  {}

  lemma RecSize(l: Layout, mem: seq<int>, n: nat)
    requires Fits(l, mem) && n < 2 * Records(l)
    ensures |Rec(l, mem, n)| == RECORD
  {}

  lemma RecordSizes(l: Layout, j: Journal)
    requires Ok?(l, j)
    ensures |j.record| == RECORD && j.latest < 2 * Records(l)
  {}

  lemma SuccessorPurpose(l: Layout, mem: seq<int>, w: Job, s: Snapshot, t: Snapshot)
    requires Fits(l, mem) && !w.checkpoint && !w.eraseOnly && Successor(l, w.record, s, t)
    ensures Purpose(l, w, mem, s, t)
  {}

  lemma PlaceRuntimeSafe(l: Layout, mem: seq<int>, j: Journal, executing: nat, n: nat, s: Snapshot, t: Snapshot)
    requires Holds(l, mem, s) && n < 2 * Records(l) && Dec(l, mem, n) == Some(s) && executing < 2 && Ok?(l, j)
    requires !j.checkpoint && !j.eraseOnly && Successor(l, j.record, s, t)
    ensures var (j1, status) := PlaceRuntime(l, mem, j, executing, Some(n));
            status == Ok ==> Planned(l, JobOf(j1), j1.eraseNeeded, mem, s, t)
  {
    hide Fits, Valid, Records, FirstBlank, Holds, Planned, IsBlank, Copy, Successor, Publishes, Ok?;
    var w := JobOf(j);
    HoldsFits(l, mem, s);
    RecordSizes(l, j);
    SuccessorPurpose(l, mem, w, s, t);
    var inactive := 1 - executing;
    var free := FirstBlank(l, mem, First(l, inactive), First(l, inactive) + Records(l));
    var spare := FirstBlank(l, mem, First(l, executing), First(l, executing) + Records(l));
    FirstBlankExact(l, mem, First(l, inactive), First(l, inactive) + Records(l));
    FirstBlankExact(l, mem, First(l, executing), First(l, executing) + Records(l));
    PurposeTarget(l, mem, w, if free.Some? then free.value else First(l, inactive), s, t);
    if free.Some? {
      BlankPlanned(l, mem, w.(target := free.value), s, t);
    } else if Bank(l, n) == inactive {
      if spare.Some? {
        NewestCopy(l, mem, n, s);
        InBank(l, executing, spare.value);
        var c := w.(pendingRecord := j.record, pendingTarget := First(l, inactive), record := Rec(l, mem, n),
                    target := spare.value, checkpoint := true);
        assert Purpose(l, c, mem, s, t);
        RecSize(l, mem, n);
        BlankPlanned(l, mem, c, s, t);
      }
    } else {
      ErasePlanned(l, mem, w.(target := First(l, inactive)), inactive, n, s, t);
    }
  }

  // The record that a commit writes publishes exactly the requested snapshot.
  lemma EncodedSuccessor(l: Layout, s: Snapshot, next: Snapshot)
    requires Ready(l) && next.sequence == s.sequence + 1 && next.counter >= s.counter
    requires l.format.decode(l.format.encode(next)).Some?
    ensures Successor(l, l.format.encode(next), s, next) && Committable(next)
  {}

  lemma PlanSafe(l: Layout, executing: nat, j: Journal, mem: seq<int>, n: nat, s: Snapshot, snapshot: Snapshot)
    requires Ready(l) && Holds(l, mem, s) && Ok?(l, j) && j.status != Busy
    requires n < 2 * Records(l) && Dec(l, mem, n) == Some(s)
    ensures var (j1, status) := Plan(l, executing, j, mem, Some(n), snapshot);
            status == Ok ==>
              && s.sequence + 1 < TWO_64 && Committable(snapshot.(sequence := s.sequence + 1))
              && snapshot.counter >= s.counter
              && Planned(l, JobOf(j1), j1.eraseNeeded, mem, s, snapshot.(sequence := s.sequence + 1))
  {
    hide Fits, Valid, Records, Holds, Place, PlaceRuntime, Planned, Committable, Lawful, Successor, Ok?;
    HoldsFits(l, mem, s);
    if s.sequence != TWO_64 - 1 && s.counter <= snapshot.counter {
      var next := snapshot.(sequence := s.sequence + 1);
      var record := l.format.encode(next);
      if |record| == RECORD && l.format.decode(record).Some? {
        PlannedPlace(l, executing, j, mem, n, s, next);
      }
    }
  }

  lemma PlannedPlace(l: Layout, executing: nat, j: Journal, mem: seq<int>, n: nat, s: Snapshot, next: Snapshot)
    requires Ready(l) && Holds(l, mem, s) && Ok?(l, j) && j.status != Busy && Fits(l, mem)
    requires n < 2 * Records(l) && Dec(l, mem, n) == Some(s) && s.sequence + 1 < TWO_64
    requires next.sequence == s.sequence + 1 && next.counter >= s.counter
    requires |l.format.encode(next)| == RECORD && l.format.decode(l.format.encode(next)).Some?
    ensures var (target, eraseNeeded) := Place(l, mem, Some(n));
            var j1 := j.(record := l.format.encode(next), checkpoint := false, eraseOnly := false, target := target,
                         eraseNeeded := eraseNeeded);
            && Ok?(l, j1) && Committable(next)
            && (executing >= 2 ==> Planned(l, JobOf(j1), eraseNeeded, mem, s, next))
            && (executing < 2 ==>
                  var (j2, status) := PlaceRuntime(l, mem, j1, executing, Some(n));
                  status == Ok ==> Planned(l, JobOf(j2), j2.eraseNeeded, mem, s, next))
  {
    hide Fits, Valid, Records, Holds, Place, PlaceRuntime, Planned, Committable, Lawful, Successor;
    EncodedSuccessor(l, s, next);
    var j0 := j.(record := l.format.encode(next), checkpoint := false, eraseOnly := false);
    SuccessorPurpose(l, mem, JobOf(j0), s, next);
    PlaceSafe(l, mem, JobOf(j0), n, s, next);
    if executing < 2 {
      var (target, eraseNeeded) := Place(l, mem, Some(n));
      PlaceRuntimeSafe(l, mem, j0.(target := target, eraseNeeded := eraseNeeded), executing, n, s, next);
    }
  }

  // ---- Loading and beginning ----

  /** Load leaves the device alone while it is busy, and otherwise returns the one
      durable snapshot. */
  lemma LoadSafe(l: Layout, j: Journal, d: Device, o: Outcome, s: Snapshot, t: Snapshot) returns (s1: Snapshot)
    requires Ready(l) && Ok?(l, j) && Cell(l, d, s, t)
    ensures var r := Load(l, j, d, o);
            && (s1 == s || s1 == t)
            && (r.status == Busy || r.status == Ok)
            && (r.status == Busy ==> r.d == d && r.j == j && !d.op.NoOp?)
            && (r.status == Ok ==>
                  && r.snapshot == Some(s1) && r.d.op.NoOp? && Holds(l, r.d.mem, s1) && Torn(l, d, r.d.mem)
                  && Fits(l, r.d.mem) && r.j == j.(latest := r.j.latest) && Dec(l, r.d.mem, r.j.latest) == Some(s1))
  {
    hide Fits, Valid, Records, Lawful, Holds, Torn, ScanTo, Cell, Poll;
    CellValid(l, d, s, t);
    PollCell(l, d, s, t, o);
    var (d1, polled) := Poll(l, d, o);
    FitsSame(l, d.mem, Load(l, j, d, o).d.mem);
    s1 := if polled != Busy && Holds(l, d1.mem, t) then t else s;
    if polled != Busy {
      LoadHolds(l, d1.mem, s1);
    }
  }

  /** A begun commit is set to publish the requested snapshot, one sequence number
      after the durable one; a refused one changes nothing durable. */
  lemma BeginSafe(l: Layout, executing: nat, j: Journal, d: Device, snapshot: Snapshot, initialize: bool, o: Outcome,
                  s: Snapshot, t: Snapshot) returns (s1: Snapshot)
    requires Ready(l) && Ok?(l, j) && Cell(l, d, s, t) && j.status != Busy
    ensures var r := Begin(l, executing, j, d, snapshot, initialize, o);
            && (s1 == s || s1 == t)
            && (r.d == d || (r.d.op.NoOp? && Holds(l, r.d.mem, s1) && Torn(l, d, r.d.mem)))
            && (if r.status == Ok then
                  && r.d.op.NoOp? && s1.sequence + 1 < TWO_64 && snapshot.counter >= s1.counter
                  && Committable(snapshot.(sequence := s1.sequence + 1))
                  && Inv(l, r.j, r.d, s1, snapshot.(sequence := s1.sequence + 1)) && r.j.status == Busy
                else r.j.status == j.status)
  {
    hide Fits, Holds, Torn, Load, Cell, Plan, Planned, Committable;
    CellValid(l, d, s, t);
    s1 := LoadSafe(l, j, d, o, s, t);
    var loaded := Load(l, j, d, o);
    if loaded.status == Ok {
      PlanSafe(l, executing, loaded.j, loaded.d.mem, loaded.j.latest, s1, snapshot);
      var (j1, status) := Plan(l, executing, loaded.j, loaded.d.mem, Some(loaded.j.latest), snapshot);
      if status == Ok {
        var next := snapshot.(sequence := s1.sequence + 1);
        IdleCell(l, loaded.d, s1, next);
        RequestSafe(l, j1, loaded.d, s1, next);
      }
    }
  }

  lemma RequestSafe(l: Layout, j: Journal, d: Device, s: Snapshot, t: Snapshot)
    requires Cell(l, d, s, t) && Ok?(l, j) && j.status != Busy && d.op.NoOp?
    requires Planned(l, JobOf(j), j.eraseNeeded, d.mem, s, t)
    ensures Inv(l, Request(j), d, s, t)
  {
    hide Fits, Holds, ErasePhase, WritePhase;
  }

  // ---- Whole runs of the machine ----

  lemma SameSlotsChain(l: Layout, a: seq<int>, b: seq<int>, c: seq<int>)
    requires SameSlots(l, a, b) && SameSlots(l, b, c)
    ensures SameSlots(l, a, c)
  {}

  lemma {:induction false} RunSafe(l: Layout, j: Journal, d: Device, start: nat, timeout: nat, script: seq<Event>,
                                   s: Snapshot, t: Snapshot) returns (s1: Snapshot)
    requires Ready(l) && Inv(l, j, d, s, t) && OffSlots(l, d.op)
    ensures var r := Run(l, j, d, start, timeout, script);
            && (s1 == s || s1 == t) && Inv(l, r.j, r.d, s1, t) && OffSlots(l, r.d.op) && SameSlots(l, d.mem, r.d.mem)
            && (j.status == Busy && r.j.status == Ok ==> s1 == t && r.d.op.NoOp? && Achieved(l, r.j, r.d.mem))
    decreases |script|
  {
    hide Fits, Valid, Holds, OffSlots, SameSlots, Cell, Working, Tick, Lawful, Achieved;
    CellValid(l, d, s, t);
    if j.status != Busy || script == [] {
      s1 := s;
      TornSlotsIdle(l, d);
    } else {
      var e := script[0];
      var j0 := j.(timedOut := Elapsed(e.caller, start) >= timeout);
      TimingKept(l, j, j0, d, s, t);
      var s0 := TickSafe(l, j0, d, e, s, t);
      var (j1, d1) := Tick(l, j0, d, e);
      CellValid(l, d1, s0, t);
      s1 := RunSafe(l, j1, d1, start, timeout, script[1..], s0, t);
      SameSlotsChain(l, d.mem, d1.mem, Run(l, j1, d1, start, timeout, script[1..]).d.mem);
    }
  }

  // Without a checkpoint the machine keeps its job.
  lemma {:induction false} RunKeepsJob(l: Layout, j: Journal, d: Device, start: nat, timeout: nat, script: seq<Event>)
    requires Fits(l, d.mem) && Ok?(l, j) && !j.checkpoint
    ensures var r := Run(l, j, d, start, timeout, script);
            JobOf(r.j) == JobOf(j)
    decreases |script|
  {
    hide Fits, Valid, Tick, Ok?;
    if j.status == Busy && script != [] {
      var e := script[0];
      var j0 := j.(timedOut := Elapsed(e.caller, start) >= timeout);
      TickKeepsJob(l, j, j0, d, e);
      var (j1, d1) := Tick(l, j0, d, e);
      RunKeepsJob(l, j1, d1, start, timeout, script[1..]);
    }
  }

  lemma FreshOk(l: Layout)
    requires Valid(l)
    ensures Ok?(l, FRESH) && FRESH.status != Busy
  {}

  lemma TimedOk(l: Layout, j: Journal, j0: Journal)
    requires Ok?(l, j) && j0 == j.(started := j0.started, timedOut := j0.timedOut)
    ensures Ok?(l, j0)
  {}

  lemma StepKeepsJob(l: Layout, j: Journal, d: Device, e: Event)
    requires Fits(l, d.mem) && Ok?(l, j) && !j.checkpoint
    ensures JobOf(Step(l, j, d, e).0) == JobOf(j)
  {
    hide Fits, Valid, Records, Ok?, Poll, StartProgram, StartErase, Read;
    match j.state {
      case Idle | Done | Failed =>
      case Erase =>
      case EraseWait =>
      case Write =>
      case WriteWait =>
      case Verify =>
    }
  }

  lemma TickKeepsJob(l: Layout, j: Journal, j0: Journal, d: Device, e: Event)
    requires Fits(l, d.mem) && Ok?(l, j) && !j.checkpoint && j0 == j.(timedOut := j0.timedOut)
    ensures Ok?(l, j0)
    ensures var (j1, d1) := Tick(l, j0, d, e);
            JobOf(j1) == JobOf(j) && Fits(l, d1.mem) && Ok?(l, j1)
  {
    hide Fits, Valid, Records, Ok?, Step;
    TimedOk(l, j, j0);
    FitsSame(l, d.mem, Tick(l, j0, d, e).1.mem);
    var j1 :=
      if j0.requested then j0.(started := e.now)
      else if j0.status == Busy && Elapsed(e.now, j0.started) >= l.operationTimeout then j0.(timedOut := true)
      else j0;
    TimedOk(l, j0, j1);
    StepKeepsJob(l, j1, d, e);
  }

  // load would return s.
  ghost predicate Recovers(l: Layout, mem: seq<int>, s: Snapshot) {
    && Fits(l, mem)
    && var p := ScanTo(l, mem, 2 * Records(l));
       LoadStatus(p) == Ok && Dec(l, mem, p.best.value) == Some(s)
  }

  // Whatever a power cut now leaves, load returns s or t.
  ghost predicate CutSafe(l: Layout, d: Device, s: Snapshot, t: Snapshot) {
    forall after :: Torn(l, d, after) ==> Recovers(l, after, s) || Recovers(l, after, t)
  }

  lemma CellCutSafe(l: Layout, d: Device, s: Snapshot, t: Snapshot)
    requires Ready(l) && Cell(l, d, s, t)
    ensures CutSafe(l, d, s, t)
  {
    hide Torn, Cell, Holds, Recovers;
    forall after | Torn(l, d, after) ensures Recovers(l, after, s) || Recovers(l, after, t) {
      TornCell(l, d, s, t, after);
      HoldsRecovers(l, after, if Holds(l, after, s) then s else t);
    }
  }

  // The snapshot that a commit over s would make durable.
  function Next(s: Snapshot, snapshot: Snapshot): Snapshot
    requires s.sequence + 1 < TWO_64
  {
    snapshot.(sequence := s.sequence + 1)
  }

  predicate Accepts(s: Snapshot, snapshot: Snapshot) {
    s.sequence + 1 < TWO_64 && snapshot.counter >= s.counter
  }

  /** However far a commit gets, the cell holds the old snapshot or the new one. */
  lemma CommitCell(l: Layout, executing: nat, j: Journal, d: Device, snapshot: Snapshot, timeout: nat, initialize: bool,
                   start: nat, o: Outcome, script: seq<Event>, s: Snapshot) returns (s1: Snapshot)
    requires Ready(l) && Ok?(l, j) && j.status != Busy && d.op.NoOp? && Holds(l, d.mem, s)
    ensures var r := Commit(l, executing, j, d, snapshot, timeout, initialize, start, o, script);
            && SameSlots(l, d.mem, r.d.mem) && OffSlots(l, r.d.op)
            && (if Accepts(s, snapshot) then (s1 == s || s1 == Next(s, snapshot)) && Cell(l, r.d, s1, Next(s, snapshot))
                else s1 == s && r.d == d && r.status != Ok)
            && (r.status == Ok ==>
                  r.d.op.NoOp? && s1 == Next(s, snapshot) && Committable(s1) && r.j.status != Busy && Fits(l, r.d.mem))
            && (r.status != Ok ==> Cell(l, r.d, s1, if Accepts(s, snapshot) then Next(s, snapshot) else s))
  {
    hide Fits, Valid, Records, Holds, Torn, Cell, Lawful, OffSlots, SameSlots, Begin, Run, Committable, Working;
    HoldsFits(l, d.mem, s);
    IdleCell(l, d, s, s);
    var s0 := BeginSafe(l, executing, j, d, snapshot, initialize, o, s, s);
    var begun := Begin(l, executing, j, d, snapshot, initialize, o);
    IdleTorn(l, d);
    IdleOffSlots(l, begun.d);
    TornSlotsIdle(l, d);
    if begun.status == Ok {
      var limit := if timeout == 0 then l.operationTimeout else timeout;
      s1 := RunSafe(l, begun.j, begun.d, start, limit, script, s, Next(s, snapshot));
      var ran := Run(l, begun.j, begun.d, start, limit, script);
      CellValid(l, ran.d, s1, Next(s, snapshot));
    } else {
      s1 := s;
      if Accepts(s, snapshot) {
        IdleCell(l, d, s, Next(s, snapshot));
      }
    }
  }

  /** A commit is atomic. However many of its steps run, and wherever the power
      goes, load then returns exactly the old snapshot or exactly the new one with
      the next sequence number; an ok result means that the new one is durable. */
  lemma CommitAtomic(l: Layout, executing: nat, j: Journal, d: Device, snapshot: Snapshot, timeout: nat,
                     initialize: bool, start: nat, o: Outcome, script: seq<Event>, s: Snapshot)
    requires Ready(l) && Ok?(l, j) && j.status != Busy && d.op.NoOp? && Holds(l, d.mem, s)
    ensures var r := Commit(l, executing, j, d, snapshot, timeout, initialize, start, o, script);
            && SameSlots(l, d.mem, r.d.mem) && OffSlots(l, r.d.op)
            && (if Accepts(s, snapshot) then CutSafe(l, r.d, s, Next(s, snapshot)) else CutSafe(l, r.d, s, s))
            && (r.status == Ok ==>
                  Accepts(s, snapshot) && r.d.op.NoOp? && Recovers(l, r.d.mem, Next(s, snapshot))
                    && Committable(Next(s, snapshot)))
  {
    hide Fits, Valid, Records, Holds, Torn, Cell, Lawful, CutSafe, OffSlots, SameSlots, Commit, Committable, Recovers;
    HoldsFits(l, d.mem, s);
    var s1 := CommitCell(l, executing, j, d, snapshot, timeout, initialize, start, o, script, s);
    var r := Commit(l, executing, j, d, snapshot, timeout, initialize, start, o, script);
    if Accepts(s, snapshot) {
      CellCutSafe(l, r.d, s1, Next(s, snapshot));
      CutSafeWider(l, r.d, s1, Next(s, snapshot), s);
      CellValid(l, r.d, s1, Next(s, snapshot));
      HoldsRecovers(l, r.d.mem, s1);
    } else {
      IdleCell(l, d, s, s);
      CellCutSafe(l, d, s, s);
    }
  }

  lemma HoldsRecovers(l: Layout, mem: seq<int>, s: Snapshot)
    requires Ready(l) && Holds(l, mem, s)
    ensures Recovers(l, mem, s)
  {
    hide Fits, Valid, Records, Holds, Lawful, ScanTo;
    HoldsFits(l, mem, s);
    LoadHolds(l, mem, s);
  }

  // An idle device loses nothing to a power cut.
  lemma IdleTorn(l: Layout, d: Device)
    requires d.op.NoOp?
    ensures forall after :: Torn(l, d, after) ==> after == d.mem
  {}

  lemma CutSafeWider(l: Layout, d: Device, s: Snapshot, t: Snapshot, u: Snapshot)
    requires CutSafe(l, d, s, t)
    ensures (s == t || s == u) ==> CutSafe(l, d, u, t) && CutSafe(l, d, t, u)
  {
    hide Recovers, Torn;
    forall after | Torn(l, d, after) && (s == t || s == u) ensures Recovers(l, after, u) || Recovers(l, after, t) {}
  }

  // ---- Preparing a bank for an application ----

  lemma PrepareCopySafe(l: Layout, bank: nat, j: Journal, d: Device, s: Snapshot)
    requires Ready(l) && Ok?(l, j) && j.status != Busy && d.op.NoOp? && Holds(l, d.mem, s) && bank < 2
    requires Dec(l, d.mem, j.latest) == Some(s) && Bank(l, j.latest) == bank
    ensures Inv(l, PrepareCopy(l, bank, j, d.mem), d, s, s) && PrepareCopy(l, bank, j, d.mem).status == Busy
  {
    hide Fits, Valid, Records, FirstBlank, Holds, Planned, IsBlank, Copy, Ok?, Cell;
    HoldsFits(l, d.mem, s);
    RecordSizes(l, j);
    NewestCopy(l, d.mem, j.latest, s);
    RecSize(l, d.mem, j.latest);
    var other := First(l, 1 - bank);
    var free := FirstBlank(l, d.mem, other, other + Records(l));
    FirstBlankExact(l, d.mem, other, other + Records(l));
    var j1 := j.(record := Rec(l, d.mem, j.latest), target := if free.Some? then free.value else other,
                 eraseNeeded := free.None?, eraseOnly := false, checkpoint := false);
    var w := JobOf(j1);
    assert Purpose(l, w, d.mem, s, s);
    if free.Some? {
      BlankPlanned(l, d.mem, w, s, s);
    } else {
      ErasePlanned(l, d.mem, w, 1 - bank, j.latest, s, s);
    }
    IdleCell(l, d, s, s);
    PrepareCopyOk(l, bank, j, d.mem, j1);
    RequestSafe(l, j1, d, s, s);
  }

  lemma PrepareCopyOk(l: Layout, bank: nat, j: Journal, mem: seq<int>, j1: Journal)
    requires Fits(l, mem) && Ok?(l, j) && bank < 2 && j.status != Busy && Dec(l, mem, j.latest).Some?
    requires Request(j1) == PrepareCopy(l, bank, j, mem) && j1.status == j.status && j1.state == j.state
    requires j1.offset == j.offset && j1.requested == j.requested
    ensures Ok?(l, j1)
  {}

  lemma PrepareEraseSafe(l: Layout, bank: nat, j: Journal, d: Device, start: nat, timeout: nat, script: seq<Event>,
                         s: Snapshot, n: nat)
    requires Ready(l) && Ok?(l, j) && j.status != Busy && d.op.NoOp? && Holds(l, d.mem, s) && bank < 2
    requires n < 2 * Records(l) && Dec(l, d.mem, n) == Some(s) && Bank(l, n) != bank
    ensures var r := PrepareErase(l, bank, j, d, start, timeout, script);
            && Cell(l, r.d, s, s) && SameSlots(l, d.mem, r.d.mem) && OffSlots(l, r.d.op)
            && (r.status == Ok ==> r.d.op.NoOp? && BankBlank(l, r.d.mem, bank))
  {
    hide Fits, Valid, Records, Holds, Planned, Cell, OffSlots, SameSlots, Run, BankBlank, Working;
    HoldsFits(l, d.mem, s);
    IdleOffSlots(l, d);
    TornSlotsIdle(l, d);
    IdleCell(l, d, s, s);
    if !BankBlank(l, d.mem, bank) {
      var j1 := j.(target := First(l, bank), eraseNeeded := true, eraseOnly := true, checkpoint := false);
      assert Purpose(l, JobOf(j1), d.mem, s, s);
      ErasePlanned(l, d.mem, JobOf(j1), bank, n, s, s);
      FirstInBank(l, bank, n);
      RequestSafe(l, j1, d, s, s);
      var s1 := RunSafe(l, Request(j1), d, start, timeout, script, s, s);
      RunKeepsJob(l, Request(j1), d, start, timeout, script);
    }
  }

  lemma FirstInBank(l: Layout, bank: nat, n: nat)
    requires bank < 2 && n < 2 * Records(l)
    ensures First(l, bank) < 2 * Records(l) && Bank(l, First(l, bank)) == bank
  {}

  lemma PrepareCell(l: Layout, executing: nat, bank: nat, j: Journal, d: Device, timeout: nat, start: nat, o: Outcome,
                    script: seq<Event>, s: Snapshot)
    requires Ready(l) && Ok?(l, j) && d.op.NoOp? && Holds(l, d.mem, s)
    ensures var r := PrepareRuntime(l, executing, bank, j, d, timeout, start, o, script);
            && Cell(l, r.d, s, s) && SameSlots(l, d.mem, r.d.mem) && OffSlots(l, r.d.op)
            && (r.status == Ok ==> r.d.op.NoOp? && bank < 2 && Fits(l, r.d.mem) && BankBlank(l, r.d.mem, bank))
  {
    hide Fits, Valid, Records, Holds, Cell, OffSlots, SameSlots, Run, BankBlank, Load, PrepareCopy, PrepareErase, Torn,
         Working;
    HoldsFits(l, d.mem, s);
    IdleCell(l, d, s, s);
    IdleOffSlots(l, d);
    TornSlotsIdle(l, d);
    if bank < 2 && executing >= 2 && j.status != Busy {
      var s0 := LoadSafe(l, j, d, o, s, s);
      IdleTorn(l, d);
      var loaded := Load(l, j, d, o);
      var r := PrepareRuntime(l, executing, bank, j, d, timeout, start, o, script);
      if Bank(l, loaded.j.latest) != bank {
        PrepareEraseSafe(l, bank, loaded.j, d, start, timeout, script, s, loaded.j.latest);
        CellValid(l, r.d, s, s);
      } else {
        PrepareCopySafe(l, bank, loaded.j, d, s);
        var copy := PrepareCopy(l, bank, loaded.j, d.mem);
        var ran := Run(l, copy, d, start, timeout, script);
        var s1 := RunSafe(l, copy, d, start, timeout, script, s, s);
        CellValid(l, ran.d, s, s);
        if ran.j.status == Ok {
          CopyElsewhere(l, bank, loaded.j, d, ran, start, timeout, script, s);
          PrepareEraseSafe(l, bank, ran.j, ran.d, Restart(start, ran.rest), timeout, ran.rest, s, ran.j.target);
          SameSlotsChain(l, d.mem, ran.d.mem, r.d.mem);
          CellValid(l, r.d, s, s);
        }
      }
    }
  }

  /** Preparing a bank never changes the durable snapshot, wherever the power goes,
      and on success leaves that bank blank. */
  lemma PrepareAtomic(l: Layout, executing: nat, bank: nat, j: Journal, d: Device, timeout: nat, start: nat, o: Outcome,
                      script: seq<Event>, s: Snapshot)
    requires Ready(l) && Ok?(l, j) && d.op.NoOp? && Holds(l, d.mem, s)
    ensures var r := PrepareRuntime(l, executing, bank, j, d, timeout, start, o, script);
            && CutSafe(l, r.d, s, s) && SameSlots(l, d.mem, r.d.mem) && OffSlots(l, r.d.op)
            && (r.status == Ok ==> r.d.op.NoOp? && bank < 2 && Fits(l, r.d.mem) && BankBlank(l, r.d.mem, bank))
  {
    hide Fits, Valid, Holds, Cell, OffSlots, SameSlots, BankBlank, CutSafe, PrepareRuntime;
    HoldsFits(l, d.mem, s);
    PrepareCell(l, executing, bank, j, d, timeout, start, o, script, s);
    CellCutSafe(l, PrepareRuntime(l, executing, bank, j, d, timeout, start, o, script).d, s, s);
  }

  // The copy that a successful first half wrote lies in the other bank.
  lemma CopyElsewhere(l: Layout, bank: nat, j: Journal, d: Device, ran: Ran, start: nat, timeout: nat,
                      script: seq<Event>, s: Snapshot)
    requires Ready(l) && Ok?(l, j) && j.status != Busy && bank < 2 && Fits(l, d.mem)
      && Dec(l, d.mem, j.latest) == Some(s)
    requires ran == Run(l, PrepareCopy(l, bank, j, d.mem), d, start, timeout, script)
    requires Fits(l, ran.d.mem) && Achieved(l, ran.j, ran.d.mem)
    ensures Dec(l, ran.d.mem, ran.j.target) == Some(s) && Bank(l, ran.j.target) != bank
  {
    hide Fits, Valid, Run, Ok?;
    var copy := PrepareCopy(l, bank, j, d.mem);
    RunKeepsJob(l, copy, d, start, timeout, script);
    TargetInBank(l, bank, j, d.mem);
  }

  lemma TargetInBank(l: Layout, bank: nat, j: Journal, mem: seq<int>)
    requires Fits(l, mem) && Ok?(l, j) && bank < 2 && j.status != Busy && Dec(l, mem, j.latest).Some?
    ensures Bank(l, PrepareCopy(l, bank, j, mem).target) != bank
  {
    hide Fits, FirstBlank;
  }
}
