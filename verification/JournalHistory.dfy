/** Whole histories of the journal: any number of loads, commits and preparations,
    with the power cut anywhere and failed calls left with an operation in flight.
    What is read never goes back in sequence number or counter. */
module JournalHistory {
  import opened Record
  import opened Formats
  import opened Layouts
  import opened Flash
  import opened JournalSpec
  import opened JournalLoad
  import opened JournalSafety
  import opened JournalRuns
  import opened JournalCommit

  datatype World = World(j: Journal, d: Device)

  datatype Call =
    | Loads
    | Commits(executing: nat, snapshot: Snapshot, initialize: bool)
    | Prepares(executing: nat, bank: nat)

  // cut is the memory that a power cut after the call's last tick leaves.
  datatype Act = Act(call: Call, timeout: nat, start: nat, outcome: Outcome, script: seq<Event>, cut: Option<seq<int>>)

  datatype Answer = Answer(j: Journal, d: Device, status: Status, snapshot: Option<Snapshot>)

  // What a call does, and the snapshot it answers ok with: the one loaded, or the
  // one made durable.
  function Perform(l: Layout, w: World, a: Act): (r: Answer)
    requires Fits(l, w.d.mem) && Ok?(l, w.j)
    ensures Ok?(l, r.j) && |r.d.mem| == |w.d.mem|
  {
    match a.call
    case Loads =>
      var r := Load(l, w.j, w.d, a.outcome);
      Answer(r.j, r.d, r.status, r.snapshot)
    case Commits(executing, snapshot, initialize) =>
      var r := Commit(l, executing, w.j, w.d, snapshot, a.timeout, initialize, a.start, a.outcome, a.script);
      Answer(r.j, r.d, r.status, if r.status == Ok then Durable(l, r.d.mem) else None)
    case Prepares(executing, bank) =>
      var r := PrepareRuntime(l, executing, bank, w.j, w.d, a.timeout, a.start, a.outcome, a.script);
      Answer(r.j, r.d, r.status, None)
  }

  // A call still busy when its events end has lost the power.
  function After(l: Layout, r: Answer, a: Act): World {
    if a.cut.Some? && Torn(l, r.d, a.cut.value) then World(FRESH, Device(a.cut.value, NoOp))
    else if r.j.status == Busy then World(FRESH, Device(r.d.mem, NoOp))
    else World(r.j, r.d)
  }

  // s is durable; an operation in flight may still publish t.
  ghost predicate Known(l: Layout, w: World, s: Snapshot, t: Snapshot) {
    && Ok?(l, w.j) && w.j.status != Busy && Cell(l, w.d, s, t) && Later(s, t)
  }

  predicate Later(s: Snapshot, t: Snapshot) {
    s == t || (t.sequence > s.sequence && t.counter >= s.counter)
  }

  lemma KnownFacts(l: Layout, w: World, s: Snapshot, t: Snapshot)
    requires Known(l, w, s, t)
    ensures Fits(l, w.d.mem) && Valid(l) && Ok?(l, w.j) && w.j.status != Busy && Holds(l, w.d.mem, s)
  {}

  // ---- A call on a device whose operation has ended is one on an idle device ----

  lemma PolledCommit(l: Layout, executing: nat, j: Journal, d: Device, snapshot: Snapshot, timeout: nat,
                     initialize: bool, start: nat, o: Outcome, script: seq<Event>)
    requires Fits(l, d.mem) && Ok?(l, j) && Poll(l, d, o).1 != Busy
    ensures var d1 := Poll(l, d, o).0;
            d1.op.NoOp? && Fits(l, d1.mem) && (j.status != Busy ==>
            Commit(l, executing, j, d, snapshot, timeout, initialize, start, o, script)
            == Commit(l, executing, j, d1, snapshot, timeout, initialize, start, o, script))
  {
    hide Fits, Valid, Records, Plan, Run, ScanTo, Ok?;
    PolledIdle(l, d, o);
  }

  lemma PolledIdle(l: Layout, d: Device, o: Outcome)
    requires Fits(l, d.mem) && Poll(l, d, o).1 != Busy
    ensures var d1 := Poll(l, d, o).0;
            d1.op.NoOp? && Fits(l, d1.mem) && Poll(l, d1, o) == (d1, Ok)
  {
    FitsSame(l, d.mem, Poll(l, d, o).0.mem);
  }

  lemma PolledPrepare(l: Layout, executing: nat, bank: nat, j: Journal, d: Device, timeout: nat, start: nat, o: Outcome,
                      script: seq<Event>)
    requires Fits(l, d.mem) && Ok?(l, j) && Poll(l, d, o).1 != Busy
    ensures var d1 := Poll(l, d, o).0;
            d1.op.NoOp? && Fits(l, d1.mem)
            && (bank < 2 && executing >= 2 && j.status != Busy ==>
            PrepareRuntime(l, executing, bank, j, d, timeout, start, o, script)
            == PrepareRuntime(l, executing, bank, j, d1, timeout, start, o, script))
  {
    hide Fits, Valid, Records, PrepareErase, PrepareCopy, Run, ScanTo, Ok?;
    PolledIdle(l, d, o);
  }

  lemma BusyCommit(l: Layout, executing: nat, j: Journal, d: Device, snapshot: Snapshot, timeout: nat, initialize: bool,
                   start: nat, o: Outcome, script: seq<Event>)
    requires Fits(l, d.mem) && Ok?(l, j) && j.status != Busy && Poll(l, d, o) == (d, Busy)
    ensures var r := Commit(l, executing, j, d, snapshot, timeout, initialize, start, o, script);
            r.j == j && r.d == d && r.status == Busy
  {
    hide Fits, Valid, Records, Plan, Run, ScanTo, Ok?;
  }

  // ---- One act ----

  // The answer and the world after a call that found s durable.
  ghost predicate Kept(l: Layout, r: Answer, s: Snapshot, s1: Snapshot, t1: Snapshot) {
    && Cell(l, r.d, s1, t1) && Later(s, s1) && Later(s1, t1)
    && (r.snapshot.Some? ==> r.snapshot == Some(s1) && s1 == t1)
  }

  lemma IdleCommitKept(l: Layout, w: World, a: Act, s: Snapshot) returns (s1: Snapshot, t1: Snapshot)
    requires Ready(l) && Ok?(l, w.j) && w.j.status != Busy && w.d.op.NoOp? && Holds(l, w.d.mem, s) && a.call.Commits?
    ensures Fits(l, w.d.mem)
    ensures var r := Perform(l, w, a);
            Kept(l, r, s, s1, t1) && (r.snapshot.Some? ==> s1.sequence == s.sequence + 1)
  {
    hide Fits, Valid, Records, Holds, Cell, Lawful, Commit, OffSlots, SameSlots, Committable, Ok?, ScanTo;
    HoldsFits(l, w.d.mem, s);
    var c := a.call;
    s1 := CommitCell(l, c.executing, w.j, w.d, c.snapshot, a.timeout, c.initialize, a.start, a.outcome, a.script, s);
    var r := Perform(l, w, a);
    t1 := if Accepts(s, c.snapshot) then JournalCommit.Next(s, c.snapshot) else s;
    CellValid(l, r.d, s1, t1);
    if r.status == Ok {
      HoldsRecovers(l, r.d.mem, s1);
    }
  }

  lemma PerformKept(l: Layout, w: World, a: Act, s: Snapshot, t: Snapshot) returns (s1: Snapshot, t1: Snapshot)
    requires Ready(l) && Known(l, w, s, t)
    ensures Fits(l, w.d.mem) && Ok?(l, w.j)
    ensures var r := Perform(l, w, a);
            Kept(l, r, s, s1, t1) && (r.snapshot.Some? && a.call.Commits? ==> s1.sequence > s.sequence)
  {
    hide Fits, Valid, Records, Holds, Cell, Lawful, Commit, PrepareRuntime, Load, OffSlots, SameSlots, Ok?, ScanTo,
         Torn, Poll;
    KnownFacts(l, w, s, t);
    PollCell(l, w.d, s, t, a.outcome);
    var (d1, polled) := Poll(l, w.d, a.outcome);
    var s0 := if polled != Busy && !Holds(l, d1.mem, s) then t else s;
    match a.call {
      case Loads =>
        var s2 := LoadSafe(l, w.j, w.d, a.outcome, s, t);
        var r := Load(l, w.j, w.d, a.outcome);
        LoadSnapshot(l, w.j, w.d, a.outcome);
        s1, t1 := s, t;
        if r.status == Ok {
          s1, t1 := s2, s2;
          IdleCell(l, r.d, s2, s2);
        }
      case Commits(executing, snapshot, initialize) =>
        if polled == Busy {
          BusyCommit(l, executing, w.j, w.d, snapshot, a.timeout, initialize, a.start, a.outcome, a.script);
          s1, t1 := s, t;
        } else {
          PolledCommit(l, executing, w.j, w.d, snapshot, a.timeout, initialize, a.start, a.outcome, a.script);
          s1, t1 := IdleCommitKept(l, w.(d := d1), a, s0);
        }
      case Prepares(executing, bank) =>
        if polled == Busy || bank >= 2 || executing < 2 {
          BusyPrepare(l, executing, bank, w.j, w.d, a.timeout, a.start, a.outcome, a.script);
          s1, t1 := s, t;
        } else {
          PolledPrepare(l, executing, bank, w.j, w.d, a.timeout, a.start, a.outcome, a.script);
          PrepareCell(l, executing, bank, w.j, d1, a.timeout, a.start, a.outcome, a.script, s0);
          s1, t1 := s0, s0;
        }
    }
  }

  lemma LoadSnapshot(l: Layout, j: Journal, d: Device, o: Outcome)
    requires Fits(l, d.mem) && Ok?(l, j)
    ensures var r := Load(l, j, d, o);
            (r.snapshot.Some? ==> r.status == Ok) && r.j.status == j.status
  {
    hide Fits, Valid, Records, Ok?;
  }

  lemma BusyPrepare(l: Layout, executing: nat, bank: nat, j: Journal, d: Device, timeout: nat, start: nat, o: Outcome,
                    script: seq<Event>)
    requires Fits(l, d.mem) && Ok?(l, j) && (Poll(l, d, o) == (d, Busy) || bank >= 2 || executing < 2)
    ensures PrepareRuntime(l, executing, bank, j, d, timeout, start, o, script).d == d
  {
    hide Fits, Valid, Records, PrepareErase, PrepareCopy, Run, ScanTo, Ok?;
  }

  lemma CutKept(l: Layout, r: Answer, a: Act, s: Snapshot, s1: Snapshot, t1: Snapshot)
    returns (s2: Snapshot, t2: Snapshot)
    requires Ready(l) && Ok?(l, r.j) && Kept(l, r, s, s1, t1)
    ensures Known(l, After(l, r, a), s2, t2) && Later(s1, s2)
  {
    hide Fits, Valid, Records, Holds, Lawful, Torn, Ok?;
    CellValid(l, r.d, s1, t1);
    var w := After(l, r, a);
    FreshOk(l);
    s2, t2 := s1, t1;
    if a.cut.Some? && Torn(l, r.d, a.cut.value) {
      TornCell(l, r.d, s1, t1, a.cut.value);
      s2 := if Holds(l, a.cut.value, s1) then s1 else t1;
      t2 := s2;
      IdleCell(l, w.d, s2, t2);
    } else if r.j.status == Busy {
      t2 := s1;
      IdleCell(l, w.d, s1, s1);
    }
  }

  // ---- Histories ----

  // The snapshots that the calls of a history answer with.
  function Answers(l: Layout, w: World, acts: seq<Act>): (r: seq<Option<Snapshot>>)
    requires Fits(l, w.d.mem) && Ok?(l, w.j)
    decreases |acts|
  {
    if acts == [] then []
    else
      var r := Perform(l, w, acts[0]);
      var next := After(l, r, acts[0]);
      AfterOk(l, w, r, acts[0]);
      [r.snapshot] + Answers(l, next, acts[1..])
  }

  lemma AfterOk(l: Layout, w: World, r: Answer, a: Act)
    requires Fits(l, w.d.mem) && Ok?(l, r.j) && |r.d.mem| == |w.d.mem|
    ensures Fits(l, After(l, r, a).d.mem) && Ok?(l, After(l, r, a).j)
  {
    FreshOk(l);
    FitsSame(l, w.d.mem, After(l, r, a).d.mem);
  }

  predicate NotBefore(s: Snapshot, x: Snapshot) { s.sequence <= x.sequence && s.counter <= x.counter }

  lemma {:induction false} AnswersLater(l: Layout, w: World, acts: seq<Act>, s: Snapshot, t: Snapshot)
    requires Ready(l) && Known(l, w, s, t)
    ensures Fits(l, w.d.mem) && Ok?(l, w.j)
    ensures var answers := Answers(l, w, acts);
            && |answers| == |acts|
            && forall i :: 0 <= i < |answers| && answers[i].Some? ==>
                 NotBefore(s, answers[i].value) && (acts[i].call.Commits? ==> s.sequence < answers[i].value.sequence)
    decreases |acts|
  {
    hide Fits, Valid, Records, Holds, Lawful, Torn, Ok?, Cell, Perform, Kept, After;
    KnownFacts(l, w, s, t);
    if acts != [] {
      var s1, t1 := PerformKept(l, w, acts[0], s, t);
      var r := Perform(l, w, acts[0]);
      KeptLater(l, r, s, s1, t1);
      var s2, t2 := CutKept(l, r, acts[0], s, s1, t1);
      AnswersLater(l, After(l, r, acts[0]), acts[1..], s2, t2);
    }
  }

  lemma KeptLater(l: Layout, r: Answer, s: Snapshot, s1: Snapshot, t1: Snapshot)
    requires Kept(l, r, s, s1, t1)
    ensures NotBefore(s, s1) && (r.snapshot.Some? ==> r.snapshot == Some(s1) && s1 == t1)
  {}

  /** Time never runs backwards: over every history of loads, commits and
      preparations, with power cuts anywhere, sequence number and counter of the
      snapshots read or made durable never decrease, and each successful commit
      has a larger sequence number than everything before it. */
  lemma {:induction false} HistoryMonotone(l: Layout, w: World, acts: seq<Act>, s: Snapshot, t: Snapshot, i: nat,
                                           k: nat)
    requires Ready(l) && Known(l, w, s, t) && i < k < |acts|
    ensures Fits(l, w.d.mem) && Ok?(l, w.j)
    ensures var answers := Answers(l, w, acts);
            |answers| == |acts| && (answers[i].Some? && answers[k].Some? ==>
              && NotBefore(answers[i].value, answers[k].value)
              && (acts[k].call.Commits? ==> answers[i].value.sequence < answers[k].value.sequence))
    decreases |acts|
  {
    hide Fits, Valid, Records, Holds, Lawful, Torn, Ok?, Cell, Perform, Kept, After;
    KnownFacts(l, w, s, t);
    var s1, t1 := PerformKept(l, w, acts[0], s, t);
    var r := Perform(l, w, acts[0]);
    KeptLater(l, r, s, s1, t1);
    var s2, t2 := CutKept(l, r, acts[0], s, s1, t1);
    AnswersLater(l, After(l, r, acts[0]), acts[1..], s2, t2);
    if i > 0 {
      HistoryMonotone(l, After(l, r, acts[0]), acts[1..], s2, t2, i - 1, k - 1);
    }
  }
}
