/** No run of the board erases the journal sector of the bank that the application
    executes from. */
module BoardBound {
  import opened Record
  import opened Layouts
  import opened Flash
  import opened JournalSpec
  import opened JournalLoad
  import opened JournalSafety
  import opened JournalRuns
  import opened JournalCommit
  import opened JournalBound
  import opened ControlSpec
  import opened ControlSafety
  import opened WriterSpec
  import opened WriterSafety
  import opened EngineSafety
  import opened SystemSafety
  import opened BoardSafety
  import E = EngineSpec
  import S = SystemSpec

  // The operation in flight is no erase of the executing bank's journal sector.
  ghost predicate Harmless(l: Layout, executing: nat, op: Op)
    requires Valid(l) && executing < 2
  {
    op.EraseOp? ==> Disjoint(l.metadata[executing], l.sectorSize, op.address, op.size)
  }

  ghost predicate JournalSpares(l: Layout, executing: nat, j: Journal)
    requires Valid(l) && executing < 2
  {
    j.status == Busy ==> Spares(l, executing, j)
  }

  ghost predicate Sparing(l: Layout, b: S.Board)
    requires Valid(l)
  {
    b.app.Some? && b.app.value.executing < 2 ==>
      Harmless(l, b.app.value.executing, b.d.op) && JournalSpares(l, b.app.value.executing, b.app.value.engine.journal)
  }

  lemma SparedHarmless(l: Layout, executing: nat, before: Op, op: Op)
    requires Valid(l) && executing < 2 && Harmless(l, executing, before) && Spared(l, executing, before, op)
    ensures Harmless(l, executing, op)
  {}

  lemma SlotHarmless(l: Layout, executing: nat, op: Op, slot: nat)
    requires Valid(l) && executing < 2 && slot < 2 && SlotOp(l, op, slot)
    ensures Harmless(l, executing, op)
  {}

  // ---- The engine ----

  lemma TickHarmless(l: Layout, executing: nat, j: Journal, d: Device, e: Event)
    requires Fits(l, d.mem) && Ok?(l, j) && Valid(l) && executing < 2 && Harmless(l, executing, d.op)
      && JournalSpares(l, executing, j)
    ensures var (j1, d1) := Tick(l, j, d, e);
            Harmless(l, executing, d1.op) && JournalSpares(l, executing, j1)
  {
    hide Fits, Valid, Records, Spares, Spared, Harmless;
    if j.status == Busy {
      TickSpares(l, executing, j, d, e);
      SparedHarmless(l, executing, d.op, Tick(l, j, d, e).1.op);
    }
  }

  lemma BeginHarmless(l: Layout, executing: nat, j: Journal, d: Device, s: Snapshot, o: Outcome)
    requires Fits(l, d.mem) && Ok?(l, j) && Valid(l) && executing < 2 && Harmless(l, executing, d.op)
      && JournalSpares(l, executing, j)
    ensures var r := Begin(l, executing, j, d, s, false, o);
            Harmless(l, executing, r.d.op) && JournalSpares(l, executing, r.j)
  {
    hide Fits, Valid, Ok?, Spares, Begin;
    BeginSpares(l, executing, j, d, s, false, o);
  }

  lemma LoadHarmless(l: Layout, executing: nat, j: Journal, d: Device, o: Outcome)
    requires Fits(l, d.mem) && Ok?(l, j) && Valid(l) && executing < 2 && Harmless(l, executing, d.op)
      && JournalSpares(l, executing, j)
    ensures var r := Load(l, j, d, o);
            Fits(l, r.d.mem) && Harmless(l, executing, r.d.op) && JournalSpares(l, executing, r.j)
  {
    hide Fits, Valid, Records, Ok?, Load;
    LoadLatest(l, j, d, o);
    FitsSame(l, d.mem, Load(l, j, d, o).d.mem);
  }

  lemma WriterHarmless(l: Layout, executing: nat, w: Writer, d: Device, e: Event, slot: nat)
    requires Valid(l) && executing < 2 && slot < 2 && WriterInv(l, w, d, slot) && Harmless(l, executing, d.op)
    ensures Harmless(l, executing, WriterTick(l, w, d, e).1.op)
  {
    hide Valid, WriterInv, WriterTick, SlotOp, Poll;
    TickInSlot(l, w, d, e, slot);
    PollOp(l, d, e.outcome);
    var d1 := WriterTick(l, w, d, e).1;
    if d1 != d && d1 != Poll(l, d, e.outcome).0 {
      SlotHarmless(l, executing, d1.op, slot);
    }
  }

  lemma CancelledInv(l: Layout, w: Writer, d: Device, slot: nat)
    requires Valid(l) && slot < 2 && WriterInv(l, w, d, slot)
    ensures WriterInv(l, w.(cancelled := true), d, slot)
  {
    hide Valid;
  }

  lemma RestHarmless(l: Layout, executing: nat, g: E.Engine, d: Device, e: Event)
    requires Fits(l, d.mem) && Ok?(l, g.journal) && Valid(l) && executing < 2
    requires Harmless(l, executing, d.op) && JournalSpares(l, executing, g.journal)
    ensures var (g1, d1) := E.StepRest(l, executing, g, d, e);
            Harmless(l, executing, d1.op) && JournalSpares(l, executing, g1.journal)
  {
    hide Fits, Valid, Ok?, Begin, Harmless, JournalSpares;
    var slot := E.Destination(g);
    BeginHarmless(l, executing, g.journal, d, g.snapshot.With(slot, g.snapshot.Slot(slot).(state := Incomplete)),
                  e.outcome);
  }

  lemma CommitHarmless(l: Layout, executing: nat, g: E.Engine, d: Device, e: Event, s: Snapshot, t: Snapshot)
    requires EngineInv(l, g, d, s, t) && g.state == E.Verifying && executing < 2
    requires Harmless(l, executing, d.op) && JournalSpares(l, executing, g.journal)
    ensures var (g1, d1) := E.StepVerifying(l, executing, g, d, e);
            Harmless(l, executing, d1.op) && JournalSpares(l, executing, g1.journal)
  {
    hide Valid, Ok?, Begin, Load, Harmless, JournalSpares, Read, WriterInv, Kept, HeaderOk;
    LoadHarmless(l, executing, g.journal, d, e.outcome);
    var loaded := Load(l, g.journal, d, e.outcome);
    if loaded.status == Ok && g.header.Some? {
      forall w: Snapshot
        ensures var r := Begin(l, executing, loaded.j, loaded.d, w, false, e.outcome);
                Harmless(l, executing, r.d.op) && JournalSpares(l, executing, r.j)
      {
        BeginHarmless(l, executing, loaded.j, loaded.d, w, e.outcome);
      }
    }
  }

  lemma AbortHarmless(l: Layout, executing: nat, g: E.Engine, d: Device, e: Event)
    requires Fits(l, d.mem) && Ok?(l, g.journal) && Valid(l) && executing < 2 && g.running < 2
      && WriterInv(l, g.writer, d, E.Destination(g))
    requires Harmless(l, executing, d.op) && JournalSpares(l, executing, g.journal)
    ensures var (g1, d1) := E.StepAborting(l, executing, g, d, e);
            Harmless(l, executing, d1.op) && JournalSpares(l, executing, g1.journal)
  {
    hide Fits, Valid, Ok?, Begin, Load, Tick, WriterTick, Poll, JournalSpares, WriterInv;
    if g.writer.status == Busy {
      CancelledInv(l, g.writer, d, E.Destination(g));
      WriterHarmless(l, executing, g.writer.(cancelled := true), d, e, E.Destination(g));
    } else if g.journal.status == Busy {
      TickHarmless(l, executing, g.journal, d, e);
    } else {
      PollOp(l, d, e.outcome);
      var d1 := Poll(l, d, e.outcome).0;
      FitsSame(l, d.mem, d1.mem);
      LoadHarmless(l, executing, g.journal, d1, e.outcome);
      var loaded := Load(l, g.journal, d1, e.outcome);
      if loaded.status == Ok {
        var s := loaded.snapshot.value;
        var slot := E.Destination(g);
        BeginHarmless(l, executing, loaded.j, loaded.d, s.With(slot, s.Slot(slot).(state := Incomplete)), e.outcome);
      }
    }
  }

  lemma EngineHarmless(l: Layout, executing: nat, g: E.Engine, d: Device, e: Event, s: Snapshot, t: Snapshot)
    requires EngineInv(l, g, d, s, t) && executing < 2 && Harmless(l, executing, d.op)
      && JournalSpares(l, executing, g.journal)
    ensures var (g1, d1) := E.Tick(l, executing, g, d, e);
            Harmless(l, executing, d1.op) && JournalSpares(l, executing, g1.journal)
  {
    hide Valid, Fits, Ok?, Tick, WriterTick, Harmless, JournalSpares, WriterInv, Kept, HeaderOk, Phase, E.StepRest,
         E.StepVerifying, E.StepAborting, E.Parse, WriterBegin;
    match g.state {
      case Disabled | Idle | Done | Failed => RestHarmless(l, executing, g, d, e);
      case Invalidating => TickHarmless(l, executing, g.journal, d, e);
      case Receiving => ReceivingHarmless(l, executing, g, d, e);
      case Writing => WriterHarmless(l, executing, g.writer, d, e, E.Destination(g));
      case Verifying => CommitHarmless(l, executing, g, d, e, s, t);
      case Committing => TickHarmless(l, executing, g.journal, d, e);
      case Aborting => AbortHarmless(l, executing, g, d, e);
    }
  }

  lemma ReceivingHarmless(l: Layout, executing: nat, g: E.Engine, d: Device, e: Event)
    requires Fits(l, d.mem) && Ok?(l, g.journal) && Valid(l) && executing < 2
    requires Harmless(l, executing, d.op) && JournalSpares(l, executing, g.journal)
    ensures var (g1, d1) := E.StepReceiving(l, g, d, e);
            Harmless(l, executing, d1.op) && JournalSpares(l, executing, g1.journal)
  {
    hide Fits, Valid, Ok?, JournalSpares, E.Parse, Poll;
    ParseJournal(g, e.now);
    PollOp(l, d, e.outcome);
  }

  lemma ParseJournal(g: E.Engine, now: nat)
    ensures E.Parse(g, now).journal == g.journal
  {}

  // ---- The board ----

  lemma BeginRequest(l: Layout, executing: nat, g: E.Engine, d: Device, a: S.Action)
    requires Fits(l, d.mem) && Ok?(l, g.journal) && Valid(l) && executing < 2 && a.Install?
    requires Harmless(l, executing, d.op) && JournalSpares(l, executing, g.journal)
    ensures var r := E.Begin(l, g, d, a.header, a.owner, a.outcome);
            Harmless(l, executing, r.d.op) && JournalSpares(l, executing, r.g.journal)
  {
    hide Fits, Valid, Ok?, Load, Harmless, JournalSpares;
    LoadHarmless(l, executing, g.journal, d, a.outcome);
  }

  lemma RequestJournal(l: Layout, g: E.Engine, a: S.Action)
    ensures a.Chunk? ==> E.Chunk(l, g, a.offset, a.data, a.crc).0.journal == g.journal
    ensures a.Abort? ==> E.Abort(g, a.reason).journal == g.journal
    ensures a.Enable? ==> E.Enable(g, a.value).journal == g.journal
    ensures a.Reserve? ==> E.Reserve(g, a.owner).0.journal == g.journal
    ensures a.Release? ==> E.Release(g, a.owner).journal == g.journal
  {}

  lemma ConfirmHarmless(l: Layout, executing: nat, j: Journal, d: Device, running: nat, a: S.Action)
    requires Fits(l, d.mem) && Ok?(l, j) && Valid(l) && executing < 2 && j.status != Busy && a.Confirm?
      && Harmless(l, executing, d.op)
    ensures Harmless(l, executing, Confirm(l, executing, j, d, running, a.start, a.outcome, a.script).d.op)
  {
    hide Fits, Valid, Ok?, Load, Begin, JournalSpec.Run, Harmless;
    LoadHarmless(l, executing, j, d, a.outcome);
    LoadLatest(l, j, d, a.outcome);
    var loaded := Load(l, j, d, a.outcome);
    if running < 2 && loaded.status == Ok {
      var w := WithState(loaded.snapshot.value, running, Confirmed);
      BeginHarmless(l, executing, loaded.j, loaded.d, w, Running);
      BeginSpares(l, executing, loaded.j, loaded.d, w, false, Running);
      var begun := Begin(l, executing, loaded.j, loaded.d, w, false, Running);
      if begun.status == Ok {
        RunSpares(l, executing, begun.j, begun.d, a.start, l.operationTimeout, a.script);
        SparedHarmless(l, executing, begun.d.op,
                       JournalSpec.Run(l, begun.j, begun.d, a.start, l.operationTimeout, a.script).d.op);
      }
    }
  }

  // An application starts on an idle device.
  lemma BootIdle(l: Layout, b: S.Board, a: S.Action, s: Snapshot, t: Snapshot)
    requires Ready(l) && BoardInv(l, b, s, t) && a.Boot? && b.app.None?
    ensures S.Formed(l, b) && var b1 := S.Act(l, b, a);
            b1.app.Some? ==> b1.d.op.NoOp? && b1.app.value.engine.journal == FRESH
  {
    hide Fits, Valid, Ok?, Ready, Holds, Safe, Select, PrepareRuntime, Kept, History, TrialOnce, OffSlots, Booted,
         Chosen, Descends, Proved, RanFirst, Core;
    BoardFormed(l, b, s, t);
    if b.d.op.NoOp? {
      var s1, t1 := BoardSelect(l, b, a, s, t);
      var r := Select(l, 2, FRESH, b.d, a.start, a.outcome, a.script);
      if r.stage == Selected && a.prepare {
        PreparedSafe(l, r.d, r.selection.slot, a, s1);
      }
    }
  }

  lemma BootSparing(l: Layout, b: S.Board, a: S.Action, s: Snapshot, t: Snapshot)
    requires Ready(l) && BoardInv(l, b, s, t) && Valid(l) && Sparing(l, b) && a.Boot?
    ensures Sparing(l, S.Act(l, b, a))
  {
    hide Fits, Valid, Ok?, Ready, BoardInv, Select, PrepareRuntime, E.Create;
    if b.app.None? {
      BootIdle(l, b, a, s, t);
    }
  }

  lemma StepSparing(l: Layout, b: S.Board, a: S.Action, s: Snapshot, t: Snapshot)
    requires Ready(l) && BoardInv(l, b, s, t) && Valid(l) && Sparing(l, b)
    ensures Sparing(l, S.Act(l, b, a))
  {
    hide Fits, Valid, Ok?, Ready, Harmless, JournalSpares, EngineInv, S.Start, Proved, History, TrialOnce, RanFirst,
         Descends, Confirm, Load, E.Tick, E.Begin, E.Chunk, E.Abort, E.Enable, E.Reserve, E.Release;
    BoardFormed(l, b, s, t);
    if a.Boot? {
      BootSparing(l, b, a, s, t);
    } else if b.app.Some? && b.app.value.executing < 2 {
      var p := b.app.value;
      RequestJournal(l, p.engine, a);
      if a.Tick? {
        EngineHarmless(l, p.executing, p.engine, b.d, a.event, s, t);
      } else if a.Install? {
        BeginRequest(l, p.executing, p.engine, b.d, a);
      } else if a.Confirm? {
        ConfirmHarmless(l, p.executing, p.control, b.d, p.slot, a);
      }
    }
  }

  lemma {:induction false} RunSparing(l: Layout, b: S.Board, actions: seq<S.Action>, s: Snapshot, t: Snapshot)
    requires Ready(l) && BoardInv(l, b, s, t) && Valid(l) && Sparing(l, b)
    ensures Sparing(l, BoardSafety.Run(l, b, actions))
    decreases |actions|
  {
    hide BoardInv, Ready, Valid, Harmless, JournalSpares, S.Act, Descends;
    if actions != [] {
      StepSparing(l, b, actions[0], s, t);
      var s1, t1 := BoardStep(l, b, actions[0], s, t);
      RunSparing(l, S.Step(l, b, actions[0]), actions[1..], s1, t1);
    }
  }

  /** In every state of every run of the board, an erase in flight while an
      application executes from a bank leaves that bank's journal sector alone,
      whether the engine, its writer or a confirmation started it. */
  lemma ExecutingSpared(l: Layout, b: S.Board, actions: seq<S.Action>, s: Snapshot)
    requires Ready(l) && Factory(l, b, s)
    ensures var r := BoardSafety.Run(l, b, actions);
            Valid(l) && (r.app.Some? && r.app.value.executing < 2 && r.d.op.EraseOp? ==>
              Disjoint(l.metadata[r.app.value.executing], l.sectorSize, r.d.op.address, r.d.op.size))
  {
    hide Ready, Valid, BoardSafety.Run, BoardInv, Holds, Safe;
    FactoryInv(l, b, s);
    FactoryValid(l, b, s);
    RunSparing(l, b, actions, s, s);
  }

  lemma FactoryValid(l: Layout, b: S.Board, s: Snapshot)
    requires Factory(l, b, s)
    ensures Valid(l)
  {
    hide Fits, Safe;
    HoldsFits(l, b.d.mem, s);
  }
}
