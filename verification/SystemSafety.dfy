/** No sequence of events bricks the board, and a trial is given once. */
module SystemSafety {
  import opened Bytes
  import opened Record
  import opened Layouts
  import opened Flash
  import opened JournalSpec
  import opened JournalLoad
  import opened JournalSafety
  import opened JournalRuns
  import opened JournalCommit
  import opened ControlSafety
  import opened WriterSafety
  import opened EngineSafety
  import P = PackageSpec
  import E = EngineSpec
  import S = SystemSpec

  // ---- A poll made by somebody else ----

  lemma JournalPolled(l: Layout, j: Journal, d: Device, s: Snapshot, t: Snapshot) returns (s1: Snapshot)
    requires Ready(l) && Inv(l, j, d, s, t) && j.status == Busy && OffSlots(l, d.op) && !d.op.NoOp?
    ensures var d1 := Device(Apply(d.mem, d.op), NoOp);
            (s1 == s || s1 == t) && Inv(l, j, d1, s1, t) && SameSlots(l, d.mem, d1.mem)
  {
    hide Fits, Valid, Holds, Apply, OffSlots, SameSlots, OpSafe, WritePhase, WrittenPhase, ErasePhase, ErasedPhase,
         Purpose, Ready;
    CellValid(l, d, s, t);
    var d1 := Device(Apply(d.mem, d.op), NoOp);
    FitsSame(l, d.mem, d1.mem);
    if j.state == EraseWait {
      s1 := s;
      EraseFinished(l, JobOf(j), d, s, t);
      IdleCell(l, d1, s1, t);
    } else {
      s1 := WriteApplied(l, j, d, s, t);
    }
  }

  lemma PolledJournal(l: Layout, g: E.Engine, d: Device, o: Outcome, s: Snapshot, t: Snapshot) returns (s1: Snapshot)
    requires Ready(l) && EngineInv(l, g, d, s, t) && !o.Broken? && JournalBusy(l, g, d, s, t)
    ensures var d1 := Poll(l, d, o).0;
            && (s1 == s || s1 == t) && Kept(l, E.Destination(g), d1, s1, t) && Fits(l, d1.mem)
            && JournalBusy(l, g, d1, s1, t) && WriterInv(l, g.writer, d1, E.Destination(g))
  {
    hide Fits, Records, Holds, Cell, Ready, Safe, Ok?, HeaderOk, Working, OffSlots, SameSlots, Phase, Apply, Torn,
         Bounded;
    KeptFacts(l, E.Destination(g), d, s, t);
    s1 := s;
    if !d.op.NoOp? && o.Finished? {
      s1 := JournalPolled(l, g.journal, d, s, t);
      var d1 := Device(Apply(d.mem, d.op), NoOp);
      IdleOffSlots(l, d1);
      FitsSame(l, d.mem, d1.mem);
      SafeSame(l, d.mem, d1.mem, s1);
      SafeSame(l, d.mem, d1.mem, t);
    }
  }

  lemma PolledWriter(l: Layout, g: E.Engine, d: Device, o: Outcome, s: Snapshot, t: Snapshot)
    requires Ready(l) && EngineInv(l, g, d, s, t) && WriterBusy(l, g, d, s, t)
    ensures var d1 := Poll(l, d, o).0;
            && Kept(l, E.Destination(g), d1, s, t) && WriterBusy(l, g, d1, s, t) && Fits(l, d1.mem)
            && WriterInv(l, g.writer, d1, E.Destination(g))
  {
    hide Fits, Records, Holds, Cell, Ready, Safe, Ok?, HeaderOk, SlotOp, Phase, Poll, Torn, Bounded, Kept;
    KeptFacts(l, E.Destination(g), d, s, t);
    var s1 := PollKept(l, E.Destination(g), d, s, t, o);
    PollIdle(l, d, o);
  }

  /** The engine invariant survives a poll that the engine did not make. */
  lemma PolledEngine(l: Layout, g: E.Engine, d: Device, o: Outcome, s: Snapshot, t: Snapshot)
    returns (s1: Snapshot, t1: Snapshot)
    requires Ready(l) && EngineInv(l, g, d, s, t) && (E.Active(g) ==> !o.Broken?)
    ensures var d1 := Poll(l, d, o).0;
            && EngineInv(l, g, d1, s1, t1) && (s1 == s || s1 == t) && (t1 == s1 || t1 == t)
            && (Poll(l, d, o).1 != Busy ==> Holds(l, d1.mem, s1) && d1.op.NoOp?)
  {
    hide Fits, Valid, Records, Holds, Cell, Ready, Safe, Kept, HeaderOk, Ok?, Poll, JournalBusy, WriterBusy, WriterInv,
         Verified;
    KeptFacts(l, E.Destination(g), d, s, t);
    PollIdle(l, d, o);
    s1, t1 := s, t;
    if JournalBusy(l, g, d, s, t) {
      JournalBusyFacts(l, g, d, s, t);
      if g.state == E.Writing {
        WriterBusyFacts(l, g, d, s, t);
      }
      s1 := PolledJournal(l, g, d, o, s, t);
      KeptFacts(l, E.Destination(g), Poll(l, d, o).0, s1, t);
    } else if WriterBusy(l, g, d, s, t) {
      WriterBusyFacts(l, g, d, s, t);
      PolledWriter(l, g, d, o, s, t);
      KeptFacts(l, E.Destination(g), Poll(l, d, o).0, s, t);
    } else if !d.op.NoOp? {
      s1 := PollKept(l, E.Destination(g), d, s, t, o);
      RestWriter(l, g, d, Poll(l, d, o).0, s, t);
      if Poll(l, d, o).1 != Busy {
        t1 := s1;
      }
    }
  }

  lemma JournalBusyFacts(l: Layout, g: E.Engine, d: Device, s: Snapshot, t: Snapshot)
    requires Valid(l) && JournalBusy(l, g, d, s, t)
    ensures g.journal.status == Busy && g.writer.status != Busy
  {}

  lemma WriterBusyFacts(l: Layout, g: E.Engine, d: Device, s: Snapshot, t: Snapshot)
    requires Valid(l) && WriterBusy(l, g, d, s, t)
    ensures g.journal.status != Busy && g.writer.status == Busy && s == t
  {}

  // A writer that is not busy does not care about the device.
  lemma RestWriter(l: Layout, g: E.Engine, d: Device, d1: Device, s: Snapshot, t: Snapshot)
    requires EngineInv(l, g, d, s, t) && d1 == Device(d1.mem, d1.op) && g.writer.status != Busy
    ensures Valid(l) && g.running < 2 && WriterInv(l, g.writer, d1, E.Destination(g))
  {
    hide Fits, Valid, Kept, HeaderOk, Ok?, Phase, Bounded;
  }

  // ---- Requests to the engine ----

  // A header may be remembered by an engine at rest.
  lemma HeaderKept(l: Layout, g: E.Engine, d: Device, header: P.Header, s: Snapshot, t: Snapshot)
    requires EngineInv(l, g, d, s, t) && !E.Active(g) && HeaderOk(l, header, E.Destination(g))
    ensures EngineInv(l, g.(header := Some(header)), d, s, t)
  {
    hide Fits, Valid, Kept, HeaderOk, Ok?, WriterInv;
  }

  // So may what was loaded.
  lemma LoadedKept(l: Layout, g: E.Engine, d: Device, j: Journal, d1: Device, s: Snapshot, t: Snapshot, s1: Snapshot)
    requires EngineInv(l, g, d, s, t) && !E.Active(g) && g.header.Some?
    requires Ok?(l, j) && j.status == g.journal.status
    requires d1.op.NoOp? && Fits(l, d1.mem) && Kept(l, E.Destination(g), d1, s1, s1)
    ensures EngineInv(l, g.(journal := j, snapshot := s1), d1, s1, s1)
  {
    RestWriter(l, g, d, d1, s, t);
    hide Fits, Valid, Kept, HeaderOk, Ok?, WriterInv;
  }

  // The engine once its request has been accepted.
  function Asked(g: E.Engine): E.Engine {
    g.(requested := true, abortRequested := false, received := 0, verifyOffset := 0, verifyCrc := 0, rx := [],
       rxAt := 0, status := Busy)
  }

  // And the request, if the running image is confirmed.
  lemma RequestKept(l: Layout, g: E.Engine, d: Device, s: Snapshot)
    requires EngineInv(l, g, d, s, s) && !E.Active(g) && g.header.Some? && g.snapshot == s && d.op.NoOp?
    requires s.Slot(g.running).state == Confirmed
    ensures EngineInv(l, Asked(g), d, s, s)
  {
    hide Fits, Valid, Kept, HeaderOk, Ok?, WriterInv;
  }

  // What loading finds for an engine at rest.
  lemma InstallLoads(l: Layout, g: E.Engine, d: Device, o: Outcome, s: Snapshot, t: Snapshot) returns (s1: Snapshot)
    requires Ready(l) && EngineInv(l, g, d, s, t) && !E.Active(g) && g.header.Some?
    ensures Fits(l, d.mem) && Ok?(l, g.journal)
    ensures var r := Load(l, g.journal, d, o);
            && (s1 == s || s1 == t)
            && (r.status == Ok ==>
                r.d.op.NoOp? && r.snapshot == Some(s1) && EngineInv(l, g.(journal := r.j, snapshot := s1), r.d, s1, s1))
            && (r.status != Ok ==> r.j == g.journal && r.d == d)
  {
    hide Fits, Valid, Records, Holds, Cell, Ready, Safe, HeaderOk, Ok?, Poll, WriterInv, Load, Torn, Phase, OffSlots;
    KeptFacts(l, E.Destination(g), d, s, t);
    s1 := LoadSafe(l, g.journal, d, o, s, t);
    var r := Load(l, g.journal, d, o);
    if r.status == Ok {
      var s0 := TornKept(l, E.Destination(g), d, s, t, r.d.mem);
      HoldsUnique(l, r.d.mem, s0, s1);
      IdleKept(l, E.Destination(g), r.d, s1, s1);
      LoadedKept(l, g, d, r.j, r.d, s, t, s1);
    }
  }

  /** Asking for an installation changes nothing durable. */
  lemma InstallSafe(l: Layout, g: E.Engine, d: Device, header: seq<byte>, owner: Option<nat>, o: Outcome, s: Snapshot,
                    t: Snapshot)
    returns (s1: Snapshot, t1: Snapshot)
    requires Ready(l) && EngineInv(l, g, d, s, t)
    ensures var r := E.Begin(l, g, d, header, owner, o);
            && EngineInv(l, r.g, r.d, s1, t1) && (s1 == s || s1 == t) && (t1 == s1 || t1 == t)
            && r.g.running == g.running
  {
    hide Fits, Valid, Ready, HeaderOk, Ok?, EngineInv, Load, P.DecodeHeader, E.Begin, Asked, E.Active;
    RestFacts(l, g, d, s, t);
    BeginCases(l, g, d, header, owner, o);
    s1, t1 := s, t;
    var r := E.Begin(l, g, d, header, owner, o);
    if r.g != g || r.d != d {
      HeaderDecoded(l, header, E.Destination(g));
      var h := P.DecodeHeader(header, l, E.Destination(g)).1;
      HeaderKept(l, g, d, h.value, s, t);
      var g1 := g.(header := h);
      RestSame(g, h);
      var s0 := InstallLoads(l, g1, d, o, s, t);
      var loaded := Load(l, g.journal, d, o);
      if loaded.status == Ok {
        s1, t1 := s0, s0;
        LoadedRest(g1, loaded.j, s1);
        if r.status == Ok {
          RequestKept(l, g1.(journal := loaded.j, snapshot := s1), loaded.d, s1);
        }
      }
    }
  }

  lemma RestSame(g: E.Engine, h: Option<P.Header>)
    ensures E.Active(g.(header := h)) == E.Active(g)
  {}

  lemma LoadedRest(g: E.Engine, j: Journal, s: Snapshot)
    ensures E.Active(g.(journal := j, snapshot := s)) == E.Active(g)
  {}

  // The outcomes of a request.
  lemma BeginCases(l: Layout, g: E.Engine, d: Device, header: seq<byte>, owner: Option<nat>, o: Outcome)
    requires Fits(l, d.mem) && Ok?(l, g.journal)
    ensures E.Begin(l, g, d, header, owner, o).g.running == g.running
    ensures var r := E.Begin(l, g, d, header, owner, o);
            var (decoded, h) := P.DecodeHeader(header, l, E.Destination(g));
            var loaded := Load(l, g.journal, d, o);
            || (r.g == g && r.d == d && r.status != Ok)
            || (&& decoded == Ok && h.Some? && !E.Active(g) && r.d == loaded.d
                && (if loaded.status != Ok then r.g == g.(header := h, journal := loaded.j) && r.status != Ok
                    else
                      var g1 := g.(header := h, journal := loaded.j, snapshot := loaded.snapshot.value);
                      if r.status == Ok then g1.snapshot.Slot(g.running).state == Confirmed && r.g == Asked(g1)
                        else r.g == g1))
  {
    hide Fits, Ok?, Load, P.DecodeHeader;
  }

  lemma RestFacts(l: Layout, g: E.Engine, d: Device, s: Snapshot, t: Snapshot)
    requires EngineInv(l, g, d, s, t)
    ensures Fits(l, d.mem) && Ok?(l, g.journal) && g.running < 2
  {}

  lemma HeaderDecoded(l: Layout, header: seq<byte>, slot: nat)
    ensures var r := P.DecodeHeader(header, l, slot);
            r.0 == Ok ==> r.1.Some? && HeaderOk(l, r.1.value, slot)
  {
    hide P.Suits;
  }

  /** The other requests only set flags and buffers. */
  lemma FlagsSafe(l: Layout, g: E.Engine, d: Device, a: S.Action, s: Snapshot, t: Snapshot)
    requires EngineInv(l, g, d, s, t)
    ensures a.Chunk? ==> EngineInv(l, E.Chunk(l, g, a.offset, a.data, a.crc).0, d, s, t)
    ensures a.Abort? ==> EngineInv(l, E.Abort(g, a.reason), d, s, t)
    ensures a.Enable? ==> EngineInv(l, E.Enable(g, a.value), d, s, t)
    ensures a.Reserve? ==> EngineInv(l, E.Reserve(g, a.owner).0, d, s, t)
    ensures a.Release? ==> EngineInv(l, E.Release(g, a.owner), d, s, t)
  {
    hide Fits, Valid, Kept, HeaderOk, Ok?, WriterInv, Inv, OffSlots, InSlot, Verified;
  }

  // ---- Board invariant ----

  // What a snapshot may say, given the selections and confirmations so far.
  ghost predicate Recorded(s: Snapshot, log: seq<S.Choice>, attempted: set<int>, slot: nat) {
    && (s.Slot(slot).state == Pending ==> !Chosen(log, s.Slot(slot).installation))
    && (s.Slot(slot).state == Confirmed && Tried(log, s.Slot(slot).installation) ==>
        s.Slot(slot).installation in attempted)
  }

  ghost predicate Chosen(log: seq<S.Choice>, installation: int) {
    exists i :: 0 <= i < |log| && log[i].installation == installation
  }

  ghost predicate Tried(log: seq<S.Choice>, installation: int) {
    exists i :: 0 <= i < |log| && log[i].installation == installation && log[i].trial
  }

  ghost predicate History(s: Snapshot, log: seq<S.Choice>, attempted: set<int>) {
    && Recorded(s, log, attempted, 0) && Recorded(s, log, attempted, 1)
    && forall i :: 0 <= i < |log| ==> log[i].installation <= s.counter
  }

  // A tried image that flash holds as confirmed has been seen confirmed.
  ghost predicate Proved(s: Snapshot, log: seq<S.Choice>, confirmed: set<int>) {
    && (s.a.state == Confirmed && Tried(log, s.a.installation) ==> s.a.installation in confirmed)
    && (s.b.state == Confirmed && Tried(log, s.b.installation) ==> s.b.installation in confirmed)
  }

  // Flash says of a selection what select said, and a trial is not yet confirmed.
  ghost predicate Told(c: S.Choice) {
    c.recorded == (if c.trial then Trial else Confirmed) && (c.trial ==> !c.confirmed)
  }

  /** A trial of an installation comes before every other selection of it, and
      another selection of it comes after a published confirmation of it. */
  ghost predicate TrialOnce(log: seq<S.Choice>) {
    && (forall i :: 0 <= i < |log| ==> Told(log[i]))
    && (forall i, j :: 0 <= i < j < |log| && log[i].installation == log[j].installation ==>
          !log[j].trial && (log[i].trial ==> log[j].confirmed))
  }

  // Only what ran can be confirmed.
  ghost predicate RanFirst(b: S.Board) {
    b.confirmed <= b.attempted && forall x :: x in b.attempted ==> Chosen(b.log, x)
  }

  // v comes after u: each slot has the same image, or an installation that is new.
  predicate Descends(u: Snapshot, v: Snapshot) {
    && u.counter <= v.counter
    && (v.a == u.a.(state := v.a.state) || v.a.installation > u.counter)
    && (v.b == u.b.(state := v.b.state) || v.b.installation > u.counter)
  }

  ghost predicate AppRuns(l: Layout, p: S.App, d: Device, s: Snapshot, t: Snapshot) {
    && EngineInv(l, p.engine, d, s, t) && p.slot == p.engine.running && Ok?(l, p.control) && p.control.status != Busy
    && s.Slot(p.slot).state in {Trial, Confirmed} && t.Slot(p.slot).state in {Trial, Confirmed}
    && s.Slot(1 - p.slot).state != Trial && t.Slot(1 - p.slot).state != Trial
  }

  // The invariant apart from the bookkeeping of confirmations.
  ghost predicate Core(l: Layout, b: S.Board, s: Snapshot, t: Snapshot) {
    && Valid(l)
    && (if b.app.Some? then AppRuns(l, b.app.value, b.d, s, t) && ChosenRuns(b, s, t)
        else Kept(l, 0, b.d, s, t) && OffSlots(l, b.d.op))
    && History(s, b.log, b.attempted) && History(t, b.log, b.attempted)
    && TrialOnce(b.log) && RanFirst(b) && Descends(s, t)
  }

  // The running installation was selected.
  ghost predicate ChosenRuns(b: S.Board, s: Snapshot, t: Snapshot)
    requires b.app.Some?
  {
    Chosen(b.log, s.Slot(b.app.value.slot).installation) && Chosen(b.log, t.Slot(b.app.value.slot).installation)
  }

  ghost predicate BoardInv(l: Layout, b: S.Board, s: Snapshot, t: Snapshot) {
    Core(l, b, s, t) && Proved(s, b.log, b.confirmed)
  }

  lemma HistoryFollows(s: Snapshot, t: Snapshot, log: seq<S.Choice>, attempted: set<int>)
    requires History(s, log, attempted) && Follows(s, t)
    ensures History(t, log, attempted)
  {
    forall slot | slot == 0 || slot == 1 ensures Recorded(t, log, attempted, slot) {
      assert Recorded(s, log, attempted, slot) && SlotFrom(s, t, slot);
    }
  }

  lemma BoardCut(l: Layout, b: S.Board, s: Snapshot, t: Snapshot, after: seq<int>) returns (s1: Snapshot)
    requires Ready(l) && Core(l, b, s, t) && Torn(l, b.d, after)
    ensures (s1 == s || s1 == t) && Holds(l, after, s1) && Safe(l, after, s1)
    ensures Core(l, b.(d := Device(after, NoOp), app := None), s1, s1)
  {
    hide Fits, Valid, Holds, Safe, Ready, Torn, Kept, OffSlots, History, TrialOnce;
    var slot := if b.app.Some? then E.Destination(b.app.value.engine) else 0;
    if b.app.Some? {
      RunningKept(l, b.app.value, b.d, s, t);
    }
    s1 := TornKept(l, slot, b.d, s, t, after);
    IdleKept(l, 0, Device(after, NoOp), s1, s1);
    IdleOffSlots(l, Device(after, NoOp));
  }

  lemma RunningKept(l: Layout, p: S.App, d: Device, s: Snapshot, t: Snapshot)
    requires AppRuns(l, p, d, s, t)
    ensures Kept(l, E.Destination(p.engine), d, s, t) && Fits(l, d.mem) && Ok?(l, p.engine.journal) && Ok?(l, p.control)
    ensures p.engine.running < 2
  {}
}
