/** Every step and every run of the board. */
module BoardSafety {
  import opened Bytes
  import opened Record
  import opened Layouts
  import opened Flash
  import opened JournalSpec
  import opened JournalLoad
  import opened JournalSafety
  import opened JournalRuns
  import opened JournalCommit
  import opened JournalPrompt
  import opened JournalBudget
  import opened ControlSpec
  import opened ControlSafety
  import opened ControlPrompt
  import opened WriterSafety
  import opened EngineSafety
  import opened EngineTicks
  import opened SystemSafety
  import E = EngineSpec
  import S = SystemSpec

  // ---- Engine ticks and requests ----

  lemma MovesHistory(running: nat, s: Snapshot, t: Snapshot, s1: Snapshot, t1: Snapshot, log: seq<S.Choice>,
                     attempted: set<int>)
    requires Moves(running, s, t, s1, t1) && History(s, log, attempted) && History(t, log, attempted)
    ensures History(s1, log, attempted) && History(t1, log, attempted)
  {
    hide History;
    if t1 != s1 && t1 != t {
      HistoryFollows(s1, t1, log, attempted);
    }
  }

  lemma MovesDescends(running: nat, s: Snapshot, t: Snapshot, s1: Snapshot, t1: Snapshot)
    requires Moves(running, s, t, s1, t1) && Descends(s, t)
    ensures Descends(s, s1) && Descends(s1, t1)
  {
    if t1 != s1 && t1 != t {
      assert SlotFrom(s1, t1, 0) && SlotFrom(s1, t1, 1);
    }
  }

  lemma MovesRunning(l: Layout, p: S.App, d: Device, d1: Device, g1: E.Engine, s: Snapshot, t: Snapshot, s1: Snapshot,
                     t1: Snapshot)
    requires AppRuns(l, p, d, s, t) && EngineInv(l, g1, d1, s1, t1) && g1.running == p.engine.running
    requires Moves(p.engine.running, s, t, s1, t1) && p.slot < 2
    ensures AppRuns(l, p.(engine := g1), d1, s1, t1)
  {
    hide EngineInv, Ok?;
    if t1 != s1 && t1 != t {
      assert SlotFrom(s1, t1, 1 - p.slot);
    }
  }

  lemma BoardTick(l: Layout, b: S.Board, e: Event, s: Snapshot, t: Snapshot) returns (s1: Snapshot, t1: Snapshot)
    requires Ready(l) && Core(l, b, s, t) && b.app.Some?
    ensures S.Formed(l, b) && Core(l, S.Act(l, b, S.Tick(e)), s1, t1) && Descends(s, s1)
  {
    hide EngineInv, Fits, Valid, Ok?, Ready, History, TrialOnce, E.Tick, Moves, Descends, RanFirst, ChosenRuns;
    var p := b.app.value;
    RunningKept(l, p, b.d, s, t);
    s1, t1 := TickKept(l, p.executing, p.engine, b.d, e, s, t);
    var (g1, d1) := E.Tick(l, p.executing, p.engine, b.d, e);
    MovesHistory(p.engine.running, s, t, s1, t1, b.log, b.attempted);
    MovesDescends(p.engine.running, s, t, s1, t1);
    MovesRunning(l, p, b.d, d1, g1, s, t, s1, t1);
    MovesChosen(b, S.Act(l, b, S.Tick(e)), s, t, s1, t1);
  }

  lemma MovesChosen(b: S.Board, b1: S.Board, s: Snapshot, t: Snapshot, s1: Snapshot, t1: Snapshot)
    requires b.app.Some? && b1.app.Some? && b1.app.value.slot == b.app.value.slot && b1.log == b.log
    requires b1.attempted == b.attempted && b1.confirmed == b.confirmed && RanFirst(b)
    requires ChosenRuns(b, s, t) && Moves(b.app.value.slot, s, t, s1, t1)
    ensures ChosenRuns(b1, s1, t1) && RanFirst(b1)
  {
    hide Chosen, Follows;
  }

  lemma BoardRequest(l: Layout, b: S.Board, a: S.Action, s: Snapshot, t: Snapshot) returns (s1: Snapshot, t1: Snapshot)
    requires Ready(l) && Core(l, b, s, t) && b.app.Some?
    requires a.Install? || a.Chunk? || a.Abort? || a.Enable? || a.Reserve? || a.Release?
    ensures S.Formed(l, b) && Core(l, S.Act(l, b, a), s1, t1) && Descends(s, s1)
  {
    hide EngineInv, Fits, Valid, Ok?, Ready, History, TrialOnce, Chosen, E.Begin, E.Chunk, E.Abort, E.Enable, E.Reserve,
         E.Release;
    var p := b.app.value;
    RunningKept(l, p, b.d, s, t);
    s1, t1 := s, t;
    FlagsSafe(l, p.engine, b.d, a, s, t);
    FlagsRunning(l, p.engine, a);
    if a.Install? {
      s1, t1 := InstallSafe(l, p.engine, b.d, a.header, a.owner, a.outcome, s, t);
    }
  }

  lemma FlagsRunning(l: Layout, g: E.Engine, a: S.Action)
    ensures a.Chunk? ==> E.Chunk(l, g, a.offset, a.data, a.crc).0.running == g.running
    ensures a.Abort? ==> E.Abort(g, a.reason).running == g.running
    ensures a.Enable? ==> E.Enable(g, a.value).running == g.running
    ensures a.Reserve? ==> E.Reserve(g, a.owner).0.running == g.running
    ensures a.Release? ==> E.Release(g, a.owner).running == g.running
  {}

  // ---- Confirmation ----

  lemma ConfirmedSafe(l: Layout, mem: seq<int>, s: Snapshot, slot: nat)
    requires Safe(l, mem, s) && slot < 2 && s.Slot(slot).state == Trial
    ensures Safe(l, mem, WithState(s, slot, Confirmed))
  {
    hide Intact, Committable;
    CommittableSequence(s);
    SafeWeakened(l, mem, s, WithState(s, slot, Confirmed));
  }

  lemma ConfirmedHistory(s: Snapshot, slot: nat, sequence: u64, log: seq<S.Choice>, attempted: set<int>)
    requires History(s, log, attempted) && slot < 2
    ensures var more := attempted + {s.Slot(slot).installation};
            && History(s, log, more) && History(WithState(s, slot, Confirmed).(sequence := sequence), log, more)
  {
    var more := attempted + {s.Slot(slot).installation};
    var t := WithState(s, slot, Confirmed).(sequence := sequence);
    forall x | x == 0 || x == 1 ensures Recorded(s, log, more, x) && Recorded(t, log, more, x) {
      assert Recorded(s, log, attempted, x);
    }
  }

  // A resting engine does not notice a commit made beside it.
  lemma RestEngine(l: Layout, g: E.Engine, d: Device, d1: Device, s: Snapshot, t: Snapshot, s1: Snapshot, t1: Snapshot)
    requires EngineInv(l, g, d, s, t) && !E.Active(g)
    requires Cell(l, d1, s1, t1) && Safe(l, d1.mem, s1) && Safe(l, d1.mem, t1) && Valid(l) && OffSlots(l, d1.op)
    ensures EngineInv(l, g, d1, s1, t1)
  {
    hide Fits, Valid, Safe, Cell, Ok?, HeaderOk, OffSlots;
    CellValid(l, d1, s1, t1);
    RestWriter(l, g, d, d1, s, t);
  }

  lemma LoadPolls(l: Layout, j: Journal, d: Device, o: Outcome)
    requires Fits(l, d.mem) && Ok?(l, j)
    ensures Load(l, j, d, o).d == Poll(l, d, o).0
    ensures Load(l, j, d, o).status == Busy <==> Poll(l, d, o).1 == Busy
  {
    hide Fits, Ok?, Poll, ScanTo;
  }

  // The part of a confirmation that only looks.
  lemma ConfirmLooks(l: Layout, p: S.App, d: Device, o: Outcome, s: Snapshot, t: Snapshot)
    returns (s1: Snapshot, t1: Snapshot)
    requires Ready(l) && AppRuns(l, p, d, s, t) && (E.Active(p.engine) ==> !o.Broken?)
    ensures Fits(l, d.mem)
    ensures var r := Load(l, p.control, d, o);
            && (s1 == s || s1 == t) && (t1 == s1 || t1 == t)
            && AppRuns(l, p.(control := r.j), r.d, s1, t1)
            && (r.status == Busy || (r.status == Ok && r.d.op.NoOp? && Holds(l, r.d.mem, s1) && r.snapshot == Some(s1)))
  {
    hide EngineInv, Fits, Valid, Ok?, Ready, Holds, Load, Torn, Poll, Cell;
    RunningKept(l, p, d, s, t);
    KeptFacts(l, E.Destination(p.engine), d, s, t);
    s1, t1 := PolledEngine(l, p.engine, d, o, s, t);
    LoadPolls(l, p.control, d, o);
    var s0 := LoadSafe(l, p.control, d, o, s, t);
    var r := Load(l, p.control, d, o);
    if r.status == Ok {
      HoldsUnique(l, r.d.mem, s0, s1);
    }
  }

  // The part that commits: the running trial becomes confirmed, or stays a trial.
  lemma ConfirmCommits(l: Layout, p: S.App, d: Device, script: seq<Event>, start: nat, s: Snapshot, t: Snapshot,
                       log: seq<S.Choice>, attempted: set<int>) returns (s1: Snapshot, t1: Snapshot)
    requires Ready(l) && AppRuns(l, p, d, s, t) && d.op.NoOp? && Holds(l, d.mem, s) && s.Slot(p.slot).state == Trial
    requires History(s, log, attempted)
    ensures Fits(l, d.mem) && Ok?(l, p.control)
    ensures var c := Commit(l, p.executing, p.control, d, WithState(s, p.slot, Confirmed), 0, false, start, Running,
                            script);
            var more := attempted + {s.Slot(p.slot).installation};
            && Kept(l, 0, c.d, s1, t1) && OffSlots(l, c.d.op) && Valid(l)
            && (c.j.status != Busy ==> AppRuns(l, p.(control := c.j), c.d, s1, t1))
            && History(s1, log, more) && History(t1, log, more)
            && (s1 == s || s1 == t1) && (t1 == s || t1 == WithState(s, p.slot, Confirmed).(sequence := t1.sequence))
  {
    hide EngineInv, Fits, Valid, Ok?, Ready, Holds, Commit, Cell, Safe, History, OffSlots, SameSlots, Confirm;
    RunningKept(l, p, d, s, t);
    KeptFacts(l, E.Destination(p.engine), d, s, t);
    TrialRests(l, p, d, s, t);
    var w := WithState(s, p.slot, Confirmed);
    ConfirmedSafe(l, d.mem, s, p.slot);
    s1, t1 := CommitSafe(l, p.executing, p.control, d, w, start, Running, script, s);
    var c := Commit(l, p.executing, p.control, d, w, 0, false, start, Running, script);
    ConfirmedHistory(s, p.slot, t1.sequence, log, attempted);
    RestEngine(l, p.engine, d, c.d, s, t, s1, t1);
    IdleKeptOff(l, c.d, s1, t1);
  }

  lemma ConfirmedDescends(s: Snapshot, slot: nat, s1: Snapshot, t1: Snapshot)
    requires slot < 2 && (s1 == s || s1 == t1)
      && (t1 == s || t1 == WithState(s, slot, Confirmed).(sequence := t1.sequence))
    ensures Descends(s, s1) && Descends(s1, t1)
    ensures s1.Slot(slot).installation == s.Slot(slot).installation
      && t1.Slot(slot).installation == s.Slot(slot).installation
  {}

  lemma IdleKeptOff(l: Layout, d: Device, s: Snapshot, t: Snapshot)
    requires Cell(l, d, s, t) && Safe(l, d.mem, s) && Safe(l, d.mem, t) && Valid(l) && OffSlots(l, d.op)
    ensures Kept(l, 0, d, s, t)
  {
    hide Cell, Safe, Valid;
  }

  // The engine refuses to work until the running image is confirmed.
  lemma TrialRests(l: Layout, p: S.App, d: Device, s: Snapshot, t: Snapshot)
    requires AppRuns(l, p, d, s, t) && s.Slot(p.slot).state == Trial
    ensures !E.Active(p.engine)
  {
    hide Fits, Valid, Kept, WriterInv, HeaderOk, Ok?, Phase;
  }

  lemma BoardConfirm(l: Layout, b: S.Board, a: S.Action, s: Snapshot, t: Snapshot) returns (s1: Snapshot, t1: Snapshot)
    requires Ready(l) && Core(l, b, s, t) && b.app.Some? && a.Confirm?
    ensures S.Formed(l, b) && Core(l, S.Act(l, b, a), s1, t1) && Descends(s, s1)
  {
    hide EngineInv, Fits, Valid, Ok?, Ready, Holds, Load, Commit, Kept, History, TrialOnce, AppRuns, OffSlots, Chosen;
    var p := b.app.value;
    RunningKept(l, p, b.d, s, t);
    s1, t1 := s, t;
    if !(a.outcome.Broken? && E.Active(p.engine)) {
      s1, t1 := ConfirmLooks(l, p, b.d, a.outcome, s, t);
      var r := Load(l, p.control, b.d, a.outcome);
      AppFacts(l, p, b.d, s, t);
      AppFacts(l, p.(control := r.j), r.d, s1, t1);
      if r.status == Ok && s1.Slot(p.slot).state == Trial {
        var s2, t2 := ConfirmCommits(l, p.(control := r.j), r.d, a.script, a.start, s1, t1, b.log, b.attempted);
        ConfirmedDescends(s1, p.slot, s2, t2);
        s1, t1 := s2, t2;
      }
    }
  }

  lemma AppFacts(l: Layout, p: S.App, d: Device, s: Snapshot, t: Snapshot)
    requires AppRuns(l, p, d, s, t)
    ensures Valid(l) && p.slot < 2 && p.control.status != Busy && Ok?(l, p.control) && Fits(l, d.mem)
      && Ok?(l, p.engine.journal)
    ensures s.Slot(p.slot).state in {Trial, Confirmed}
  {}

  // ---- Booting ----

  lemma CreatedEngine(l: Layout, d: Device, slot: nat, inactivity: nat, s: Snapshot)
    requires Valid(l) && slot < 2 && d.op.NoOp? && Holds(l, d.mem, s) && Safe(l, d.mem, s)
    ensures EngineInv(l, E.Create(slot, inactivity), d, s, s)
  {
    hide Fits, Valid, Holds, Safe, Cell;
    FreshOk(l);
    HoldsFits(l, d.mem, s);
    IdleKept(l, 1 - slot, d, s, s);
  }

  // A selection may be logged.
  lemma SelectionLogged(b: S.Board, s: Snapshot, q: Snapshot, s1: Snapshot, slot: nat, trial: bool, image: Image)
    requires History(s, b.log, b.attempted) && Proved(s, b.log, b.confirmed) && TrialOnce(b.log) && RanFirst(b)
    requires Booted(s1, slot, trial, image)
    requires q == RejectTrials(s).(sequence := q.sequence) && SelectedFrom(q, s1, slot, trial)
    requires s.a.installation != s.b.installation && Committable(s1)
    ensures var log := b.log + [S.Choice(image.installation, trial, s1.Slot(slot).state,
                                         image.installation in b.confirmed)];
            History(s1, log, b.attempted) && TrialOnce(log) && RanFirst(b.(log := log))
              && Chosen(log, s1.Slot(slot).installation)
  {
    var c := S.Choice(image.installation, trial, s1.Slot(slot).state, image.installation in b.confirmed);
    assert Recorded(s, b.log, b.attempted, slot) && Recorded(s, b.log, b.attempted, 1 - slot);
    assert image.installation == s.Slot(slot).installation;
    LoggedTrials(b.log, c);
    forall x | x == 0 || x == 1 ensures Recorded(s1, b.log + [c], b.attempted, x) {
      assert Recorded(s, b.log, b.attempted, x);
    }
    TrialsLogged(b.log, c);
  }

  lemma TrialsLogged(log: seq<S.Choice>, c: S.Choice)
    requires TrialOnce(log) && Told(c)
    requires c.trial ==> !Chosen(log, c.installation)
    requires Tried(log, c.installation) ==> c.confirmed
    ensures TrialOnce(log + [c])
  {
    var more := log + [c];
    forall i, j | 0 <= i < j < |more| && more[i].installation == more[j].installation
      ensures !more[j].trial && (more[i].trial ==> more[j].confirmed)
    {
      if j == |log| {
        assert Chosen(log, c.installation);
        assert more[i].trial ==> Tried(log, c.installation);
      }
    }
  }

  lemma LoggedTrials(log: seq<S.Choice>, c: S.Choice)
    ensures forall x :: Chosen(log + [c], x) <==> Chosen(log, x) || x == c.installation
    ensures forall x :: Tried(log + [c], x) <==> Tried(log, x) || (c.trial && x == c.installation)
  {
    var more := log + [c];
    forall x ensures Chosen(more, x) <==> Chosen(log, x) || x == c.installation {
      if Chosen(log, x) {
        var i :| 0 <= i < |log| && log[i].installation == x;
        assert more[i].installation == x;
      }
      assert more[|log|] == c;
    }
    forall x ensures Tried(more, x) <==> Tried(log, x) || (c.trial && x == c.installation) {
      if Tried(log, x) {
        var i :| 0 <= i < |log| && log[i].installation == x && log[i].trial;
        assert more[i].installation == x && more[i].trial;
      }
      assert more[|log|] == c;
    }
  }

  lemma HistoryFades(s: Snapshot, t: Snapshot, log: seq<S.Choice>, attempted: set<int>)
    requires History(s, log, attempted) && Fades(s, t)
    ensures History(t, log, attempted)
  {
    forall x | x == 0 || x == 1 ensures Recorded(t, log, attempted, x) {
      assert Recorded(s, log, attempted, x);
    }
  }

  lemma SafeCommittable(l: Layout, mem: seq<int>, s: Snapshot)
    requires Safe(l, mem, s)
    ensures Committable(s) && s.a.installation != s.b.installation
  {
    hide Intact, Committable;
  }

  lemma FadesDescends(s: Snapshot, s1: Snapshot, t1: Snapshot)
    requires Fades(s, s1) && Fades(s, t1)
    ensures Descends(s, s1) && Descends(s1, t1)
  {}

  // The log after a selection from b.
  function Logged(l: Layout, b: S.Board, r: Boot): seq<S.Choice> {
    var installation := r.selection.image.installation;
    b.log + [S.Choice(installation, r.selection.trial, S.RecordedState(l, r.d.mem, r.selection.slot),
                      installation in b.confirmed)]
  }

  lemma DurableHeld(l: Layout, mem: seq<int>, s: Snapshot)
    requires Ready(l) && Holds(l, mem, s)
    ensures Durable(l, mem) == Some(s)
  {
    hide Fits, Valid, Holds, Records, ScanTo, Ready;
    HoldsRecovers(l, mem, s);
  }

  // Select from a board that is off.
  lemma BoardSelect(l: Layout, b: S.Board, a: S.Action, s: Snapshot, t: Snapshot) returns (s1: Snapshot, t1: Snapshot)
    requires Ready(l) && BoardInv(l, b, s, t) && b.app.None? && a.Boot? && b.d.op.NoOp?
    ensures Fits(l, b.d.mem) && Ok?(l, FRESH) && Descends(s, s1) && Descends(s1, t1)
    ensures var r := Select(l, 2, FRESH, b.d, a.start, a.outcome, a.script);
            && Kept(l, 0, r.d, s1, t1) && OffSlots(l, r.d.op)
            && (r.stage != Selected ==> History(s1, b.log, b.attempted) && History(t1, b.log, b.attempted))
            && (r.stage == Selected ==>
                  && r.d.op.NoOp? && s1 == t1 && Holds(l, r.d.mem, s1) && Safe(l, r.d.mem, s1)
                  && Booted(s1, r.selection.slot, r.selection.trial, r.selection.image)
                  && History(s1, Logged(l, b, r), b.attempted) && TrialOnce(Logged(l, b, r))
                  && RanFirst(b.(log := Logged(l, b, r)))
                  && Chosen(Logged(l, b, r), s1.Slot(r.selection.slot).installation))
  {
    hide Fits, Valid, Ok?, Ready, Holds, Select, Cell, Safe, History, TrialOnce, RanFirst, Chosen, Proved, Durable,
         OffSlots, SameSlots, Intact, Fades, Booted, SelectedFrom;
    KeptFacts(l, 0, b.d, s, t);
    FreshOk(l);
    s1, t1 := SelectSafe(l, 2, FRESH, b.d, a.start, a.outcome, a.script, s);
    var r := Select(l, 2, FRESH, b.d, a.start, a.outcome, a.script);
    FadesDescends(s, s1, t1);
    IdleKeptOff(l, r.d, s1, t1);
    if r.stage == Selected {
      var q: Snapshot :| q == RejectTrials(s).(sequence := q.sequence) && SelectedFrom(q, s1, r.selection.slot,
        r.selection.trial);
      SafeCommittable(l, b.d.mem, s);
      SafeCommittable(l, r.d.mem, s1);
      DurableHeld(l, r.d.mem, s1);
      SelectionLogged(b, s, q, s1, r.selection.slot, r.selection.trial, r.selection.image);
    } else {
      HistoryFades(s, s1, b.log, b.attempted);
      HistoryFades(s, t1, b.log, b.attempted);
    }
  }

  // The selected image starts with a fresh engine.
  lemma AppStarts(l: Layout, a: S.Action, d: Device, s: Snapshot, slot: nat, trial: bool, image: Image)
    requires Valid(l) && a.Boot? && d.op.NoOp? && Holds(l, d.mem, s) && Safe(l, d.mem, s)
      && Booted(s, slot, trial, image)
    ensures AppRuns(l, S.App(slot, a.executing, E.Create(slot, a.inactivity), FRESH), d, s, s)
  {
    hide Fits, Valid, Holds, Safe, EngineInv, Ok?;
    FreshOk(l);
    CreatedEngine(l, d, slot, a.inactivity, s);
  }

  lemma PreparedSafe(l: Layout, d: Device, slot: nat, a: S.Action, s: Snapshot)
    requires Ready(l) && a.Boot? && d.op.NoOp? && Holds(l, d.mem, s) && Safe(l, d.mem, s)
    ensures Fits(l, d.mem) && Ok?(l, FRESH)
    ensures var p := PrepareRuntime(l, 2, slot, FRESH, d, a.timeout, a.start, Running, a.rest);
            && Kept(l, 0, p.d, s, s) && OffSlots(l, p.d.op)
            && (p.status == Ok ==> p.d.op.NoOp? && Holds(l, p.d.mem, s) && Safe(l, p.d.mem, s))
  {
    hide Fits, Valid, Holds, Safe, Ok?, Ready, PrepareRuntime, SameSlots, OffSlots, CutSafe, Cell, BankBlank;
    HoldsFits(l, d.mem, s);
    FreshOk(l);
    PrepareCell(l, 2, slot, FRESH, d, a.timeout, a.start, Running, a.rest, s);
    var p := PrepareRuntime(l, 2, slot, FRESH, d, a.timeout, a.start, Running, a.rest);
    SafeSame(l, d.mem, p.d.mem, s);
    IdleKeptOff(l, p.d, s, s);
    CellValid(l, p.d, s, s);
  }

  lemma BoardBoot(l: Layout, b: S.Board, a: S.Action, s: Snapshot, t: Snapshot) returns (s1: Snapshot, t1: Snapshot)
    requires Ready(l) && BoardInv(l, b, s, t) && a.Boot?
    ensures S.Formed(l, b) && Core(l, S.Act(l, b, a), s1, t1) && Descends(s, s1)
  {
    hide EngineInv, Fits, Valid, Ok?, Ready, Holds, Safe, Select, PrepareRuntime, Kept, History, TrialOnce, AppRuns,
         OffSlots, Booted, Chosen, Descends, Proved, S.RecordedState;
    s1, t1 := s, t;
    BoardFormed(l, b, s, t);
    DescendsSelf(s);
    if b.app.None? && b.d.op.NoOp? {
      s1, t1 := BoardSelect(l, b, a, s, t);
      var r := Select(l, 2, FRESH, b.d, a.start, a.outcome, a.script);
      if r.stage == Selected {
        AppStarts(l, a, r.d, s1, r.selection.slot, r.selection.trial, r.selection.image);
        if a.prepare {
          PreparedSafe(l, r.d, r.selection.slot, a, s1);
          var p := PrepareRuntime(l, 2, r.selection.slot, FRESH, r.d, a.timeout, a.start, Running, a.rest);
          if p.status == Ok {
            AppStarts(l, a, p.d, s1, r.selection.slot, r.selection.trial, r.selection.image);
          }
        }
      }
    }
  }

  lemma DescendsSelf(s: Snapshot)
    ensures Descends(s, s)
  {}

  lemma BoardFormed(l: Layout, b: S.Board, s: Snapshot, t: Snapshot)
    requires Core(l, b, s, t)
    ensures S.Formed(l, b)
  {
    hide Fits, Valid, Ok?, EngineInv, History, TrialOnce, OffSlots, Kept;
    if b.app.Some? {
      RunningKept(l, b.app.value, b.d, s, t);
    } else {
      KeptFacts(l, 0, b.d, s, t);
    }
  }

  // Noting the published confirmations restores the whole invariant.
  lemma WitnessInv(l: Layout, b: S.Board, s: Snapshot, t: Snapshot)
    requires Ready(l) && Core(l, b, s, t)
    ensures BoardInv(l, S.Witness(l, b), s, t)
  {
    hide Fits, Valid, Ready, Holds, AppRuns, Kept, OffSlots, TrialOnce, Chosen, Tried, Descends, Durable;
    CoreHolds(l, b, s, t);
    DurableHeld(l, b.d.mem, s);
    assert Recorded(s, b.log, b.attempted, 0) && Recorded(s, b.log, b.attempted, 1);
  }

  lemma CoreHolds(l: Layout, b: S.Board, s: Snapshot, t: Snapshot)
    requires Core(l, b, s, t)
    ensures Holds(l, b.d.mem, s) && Safe(l, b.d.mem, s) && Descends(s, t)
  {
    hide Fits, Valid, Holds, Safe, EngineInv, OffSlots, History, TrialOnce, Cell, Ok?, RanFirst, ChosenRuns, Descends;
    if b.app.Some? {
      RunningKept(l, b.app.value, b.d, s, t);
      KeptFacts(l, E.Destination(b.app.value.engine), b.d, s, t);
    } else {
      KeptFacts(l, 0, b.d, s, t);
    }
  }

  /** Every action keeps the board invariant, and what becomes durable descends from
      what was. */
  lemma BoardStep(l: Layout, b: S.Board, a: S.Action, s: Snapshot, t: Snapshot) returns (s1: Snapshot, t1: Snapshot)
    requires Ready(l) && BoardInv(l, b, s, t)
    ensures BoardInv(l, S.Step(l, b, a), s1, t1) && Descends(s, s1)
  {
    hide Core, Ready, Torn, Proved, Descends, S.Witness, S.Start, S.Acknowledge, E.Tick, E.Begin, E.Chunk, E.Abort,
         E.Enable, E.Reserve, E.Release;
    s1, t1 := s, t;
    BoardFormed(l, b, s, t);
    CoreHolds(l, b, s, t);
    DescendsSelf(s);
    if a.Cut? {
      if Torn(l, b.d, a.after) {
        s1 := BoardCut(l, b, s, t, a.after);
        t1 := s1;
      }
    } else if a.Boot? {
      s1, t1 := BoardBoot(l, b, a, s, t);
    } else if b.app.Some? {
      if a.Tick? {
        s1, t1 := BoardTick(l, b, a.event, s, t);
      } else if a.Confirm? {
        s1, t1 := BoardConfirm(l, b, a, s, t);
      } else {
        s1, t1 := BoardRequest(l, b, a, s, t);
      }
    }
    WitnessInv(l, S.Act(l, b, a), s1, t1);
  }

  // ---- Whole runs ----

  function Run(l: Layout, b: S.Board, actions: seq<S.Action>): S.Board
    decreases |actions|
  {
    if actions == [] then b else Run(l, S.Step(l, b, actions[0]), actions[1..])
  }

  // A board as it leaves the factory: idle, off, one intact confirmed image.
  ghost predicate Factory(l: Layout, b: S.Board, s: Snapshot) {
    && b.app.None? && b.d.op.NoOp? && b.log == [] && b.attempted == {} && b.confirmed == {}
    && Holds(l, b.d.mem, s) && Safe(l, b.d.mem, s)
  }

  lemma FactoryInv(l: Layout, b: S.Board, s: Snapshot)
    requires Factory(l, b, s)
    ensures BoardInv(l, b, s, s)
  {
    hide Fits, Valid, Holds, Safe, Kept, OffSlots;
    HoldsFits(l, b.d.mem, s);
    IdleKept(l, 0, b.d, s, s);
    IdleOffSlots(l, b.d);
  }

  lemma {:induction false} RunInv(l: Layout, b: S.Board, actions: seq<S.Action>, s: Snapshot, t: Snapshot)
    returns (s1: Snapshot, t1: Snapshot)
    requires Ready(l) && BoardInv(l, b, s, t)
    ensures BoardInv(l, Run(l, b, actions), s1, t1) && Descends(s, s1)
    decreases |actions|
  {
    hide BoardInv, Ready, S.Step, Descends;
    s1, t1 := s, t;
    DescendsSelf(s);
    if actions != [] {
      var s2, t2 := BoardStep(l, b, actions[0], s, t);
      s1, t1 := RunInv(l, S.Step(l, b, actions[0]), actions[1..], s2, t2);
      DescendsChain(s, s2, s1);
    }
  }

  lemma DescendsChain(s: Snapshot, t: Snapshot, u: Snapshot)
    requires Descends(s, t) && Descends(t, u)
    ensures Descends(s, u)
  {}

  // A boot script without a fault: operations start, none breaks, those that two
  // commits need finish, and no timeout passes.
  ghost predicate Smooth(l: Layout, after: seq<int>, start: nat, o: Outcome, script: seq<Event>)
    requires Fits(l, after) && Ok?(l, FRESH)
  {
    AllFaultFree(script) && Finishes(script) >= 2 * TICKS
      && SelectInTime(l, FRESH, Device(after, NoOp), start, o, script)
  }

  // How a board boots whose durable snapshot is s. Whatever happens, only a commit
  // stops a selection, and what it returns verifies. Without a fault it returns.
  ghost predicate Boots(l: Layout, after: seq<int>, s: Snapshot) {
    && Fits(l, after) && Ok?(l, FRESH)
    && forall start, o, script ::
         var r := Select(l, 2, FRESH, Device(after, NoOp), start, o, script);
         && r.stage in {Rejecting, Trying, Selected}
         && (r.stage == Selected ==>
             r.selection.status == Ok && Intact(l, r.d.mem, r.selection.slot, r.selection.image))
         && (s.sequence + 2 < TWO_64 && Smooth(l, after, start, o, script) ==> r.stage == Selected)
  }

  /** No run bricks the board. After any sequence of boots, requests, ticks,
      confirmations and cuts, and whatever a further cut leaves: load returns a
      snapshot with a confirmed intact image and no claim about a damaged one, and
      a boot without a fault selects a slot whose image verifies, as long as two
      sequence numbers are left. */
  lemma NoBrick(l: Layout, b: S.Board, actions: seq<S.Action>, s: Snapshot, after: seq<int>)
    requires Ready(l) && Factory(l, b, s) && Torn(l, Run(l, b, actions).d, after)
    ensures exists r :: Recovers(l, after, r) && Safe(l, after, r) && Boots(l, after, r)
  {
    hide Core, Ready, Factory, Torn, Recovers, Safe, Boots, Run, Holds;
    FactoryInv(l, b, s);
    var s1, t1 := RunInv(l, b, actions, s, s);
    var r := BoardCut(l, Run(l, b, actions), s1, t1, after);
    HoldsRecovers(l, after, r);
    SafeBoots(l, after, r);
  }

  lemma SafeBoots(l: Layout, after: seq<int>, s: Snapshot)
    requires Ready(l) && Holds(l, after, s) && Safe(l, after, s)
    ensures Boots(l, after, s)
  {
    hide Fits, Valid, Ready, Holds, Safe, Select, Intact, Ok?, Cell, SameSlots, OffSlots, Booted, SelectInTime;
    HoldsFits(l, after, s);
    FreshOk(l);
    forall start, o, script
      ensures var r := Select(l, 2, FRESH, Device(after, NoOp), start, o, script);
              && r.stage in {Rejecting, Trying, Selected}
              && (r.stage == Selected ==>
                  r.selection.status == Ok && Intact(l, r.d.mem, r.selection.slot, r.selection.image))
              && (s.sequence + 2 < TWO_64 && Smooth(l, after, start, o, script) ==> r.stage == Selected)
    {
      var s1, t1 := SelectSafe(l, 2, FRESH, Device(after, NoOp), start, o, script, s);
      if s.sequence + 2 < TWO_64 && Smooth(l, after, start, o, script) {
        SelectSucceeds(l, FRESH, Device(after, NoOp), start, o, script, s);
      }
    }
  }

  /** In every run, select returns an installation as a trial at most once, before
      any other selection of it, and returns it again only when flash holds it as
      confirmed and a confirmation of it was published after the trial. */
  lemma TrialsGivenOnce(l: Layout, b: S.Board, actions: seq<S.Action>, s: Snapshot)
    requires Ready(l) && Factory(l, b, s)
    ensures TrialOnce(Run(l, b, actions).log)
  {
    hide Ready, Factory, Run, TrialOnce, Kept, AppRuns, OffSlots, History, Valid;
    FactoryInv(l, b, s);
    var s1, t1 := RunInv(l, b, actions, s, s);
  }

  lemma {:induction false} RunConcat(l: Layout, b: S.Board, actions: seq<S.Action>, more: seq<S.Action>)
    ensures Run(l, b, actions + more) == Run(l, Run(l, b, actions), more)
    decreases |actions|
  {
    hide S.Step;
    if actions == [] {
      assert [] + more == more;
    } else {
      assert (actions + more)[1..] == actions[1..] + more;
      RunConcat(l, S.Step(l, b, actions[0]), actions[1..], more);
    }
  }

  /** Installation numbers name images. Two snapshots durable at any two moments of
      one run that carry the same number carry it in the same slot and for the same
      image: only its state may differ. */
  lemma InstallationsUnique(l: Layout, b: S.Board, actions: seq<S.Action>, more: seq<S.Action>, s: Snapshot, x: nat,
                            y: nat)
    requires Ready(l) && Factory(l, b, s) && x < 2 && y < 2
    ensures var u := Durable(l, Run(l, b, actions).d.mem);
            var v := Durable(l, Run(l, b, actions + more).d.mem);
            && u.Some? && v.Some?
            && (u.value.Slot(x).installation == v.value.Slot(y).installation ==>
                  x == y && v.value.Slot(y) == u.value.Slot(x).(state := v.value.Slot(y).state))
  {
    hide Ready, Factory, Run, Core, Durable, Safe, Holds, Descends;
    FactoryInv(l, b, s);
    var s1, t1 := RunInv(l, b, actions, s, s);
    var b1 := Run(l, b, actions);
    CoreHolds(l, b1, s1, t1);
    var s2, t2 := RunInv(l, b1, more, s1, t1);
    RunConcat(l, b, actions, more);
    CoreHolds(l, Run(l, b1, more), s2, t2);
    DurableHeld(l, b1.d.mem, s1);
    DurableHeld(l, Run(l, b1, more).d.mem, s2);
    SafeCommittable(l, b1.d.mem, s1);
    if s1.Slot(x).installation == s2.Slot(y).installation {
      SameImage(s1, s2, x, y);
    }
  }

  lemma SameImage(u: Snapshot, v: Snapshot, x: nat, y: nat)
    requires Descends(u, v) && Committable(u) && u.a.installation != u.b.installation && x < 2 && y < 2
    requires u.Slot(x).installation == v.Slot(y).installation
    ensures x == y && v.Slot(y) == u.Slot(x).(state := v.Slot(y).state)
  {}
}
