/** Booting without a fault: the commits that select makes succeed, so it returns a
    verified slot. */
module ControlPrompt {
  import opened Bytes
  import opened Record
  import opened Formats
  import opened Layouts
  import opened Flash
  import opened JournalSpec
  import opened JournalLoad
  import opened JournalSafety
  import opened JournalRuns
  import opened JournalCommit
  import opened JournalPrompt
  import opened JournalBudget
  import opened ControlSpec
  import opened ControlSafety

  const BOOT: nat := 2

  // A commit with the layout's own timeout finds no timeout passed.
  ghost predicate CommitInTime(l: Layout, j: Journal, d: Device, s: Snapshot, start: nat, o: Outcome,
                               script: seq<Event>)
    requires Fits(l, d.mem) && Ok?(l, j)
  {
    var begun := Begin(l, BOOT, j, d, s, false, o);
    FitsSame(l, d.mem, begun.d.mem);
    begun.status == Ok ==> InTime(l, begun.j, begun.d, start, l.operationTimeout, script)
  }

  ghost predicate PickInTime(l: Layout, j: Journal, d: Device, s: Snapshot, start: nat, script: seq<Event>)
    requires Fits(l, d.mem) && Ok?(l, j)
  {
    var (slot, _) := Choose(l, d, s);
    slot.Some? && s.Slot(slot.value).state == Pending ==>
      CommitInTime(l, j, d, WithState(s, slot.value, Trial), start, Running, script)
  }

  // Neither commit of a selection finds a timeout passed.
  ghost predicate SelectInTime(l: Layout, j: Journal, d: Device, start: nat, o: Outcome, script: seq<Event>)
    requires Fits(l, d.mem) && Ok?(l, j)
  {
    var loaded := Load(l, j, d, o);
    FitsSame(l, d.mem, loaded.d.mem);
    loaded.status == Ok ==>
      var s := loaded.snapshot.value;
      if RejectTrials(s) == s then PickInTime(l, loaded.j, loaded.d, s, start, script)
      else
        && CommitInTime(l, loaded.j, loaded.d, RejectTrials(s), start, Running, script)
        && var c := Commit(l, BOOT, loaded.j, loaded.d, RejectTrials(s), 0, false, start, Running, script);
           FitsSame(l, loaded.d.mem, c.d.mem);
           c.status == Ok ==> PickInTime(l, c.j, c.d, RejectTrials(s), Restart(start, c.rest), c.rest)
  }

  // Boot-time placement never finds the journal full.
  lemma BootPlan(l: Layout, j: Journal, mem: seq<int>, n: nat, s: Snapshot, w: Snapshot)
    requires Ready(l) && Fits(l, mem) && Ok?(l, j) && j.status != Busy
    requires n < 2 * Records(l) && Dec(l, mem, n) == Some(s) && Accepts(s, w) && Committable(Next(s, w))
    ensures Plan(l, BOOT, j, mem, Some(n), w).1 == Ok
  {
    hide Fits, Valid, Records, Place, Lawful, Committable;
    EncodedDecodes(l, Next(s, w));
  }

  /** A boot-time commit without a fault succeeds, whatever the journal holds, and
      uses at most TICKS of the finished operations. */
  lemma BootCommit(l: Layout, j: Journal, d: Device, w: Snapshot, start: nat, o: Outcome, script: seq<Event>,
                   s: Snapshot)
    requires Ready(l) && Ok?(l, j) && j.status != Busy && d.op.NoOp? && Fits(l, d.mem) && Holds(l, d.mem, s)
    requires Accepts(s, w) && Committable(Next(s, w))
    requires AllFaultFree(script) && Finishes(script) >= TICKS && CommitInTime(l, j, d, w, start, o, script)
    ensures var r := Commit(l, BOOT, j, d, w, 0, false, start, o, script);
            && r.status == Ok && r.d.op.NoOp? && Holds(l, r.d.mem, Next(s, w))
            && AllFaultFree(r.rest) && Finishes(r.rest) + TICKS >= Finishes(script)
  {
    hide Fits, Valid, Records, Holds, Lawful, Cell, Working, Load, Plan, Run, Committable, OffSlots, InTime;
    LatestFound(l, j, d, o, s);
    var loaded := Load(l, j, d, o);
    BootPlan(l, loaded.j, d.mem, loaded.j.latest, s, w);
    IdleCell(l, d, s, s);
    IdleOffSlots(l, d);
    var s1 := BeginSafe(l, BOOT, j, d, w, false, o, s, s);
    var begun := Begin(l, BOOT, j, d, w, false, o);
    IdleState(l, begun.j);
    PromptRun(l, begun.j, d, start, l.operationTimeout, script, s, Next(s, w));
  }

  lemma SafeNext(l: Layout, mem: seq<int>, s: Snapshot, w: Snapshot)
    requires Safe(l, mem, s) && Safe(l, mem, w) && w.counter == s.counter && s.sequence + 1 < TWO_64
    ensures Accepts(s, w) && Committable(Next(s, w)) && Safe(l, mem, Next(s, w))
  {
    hide Intact, Honest;
    SafeSequence(l, mem, w, Next(s, w));
  }

  lemma PickSucceeds(l: Layout, j: Journal, d: Device, s: Snapshot, start: nat, script: seq<Event>)
    requires Ready(l) && Ok?(l, j) && j.status != Busy && d.op.NoOp? && Fits(l, d.mem) && Holds(l, d.mem, s)
      && Safe(l, d.mem, s)
    requires s.sequence + 1 < TWO_64 && AllFaultFree(script) && Finishes(script) >= TICKS
      && PickInTime(l, j, d, s, start, script)
    ensures Pick(l, BOOT, j, d, s, start, script).stage == Selected
  {
    hide Fits, Valid, Records, Holds, Ready, Intact, Ok?, Committable, Choose, Commit, CommitInTime, Safe;
    ChooseFinds(l, d, s);
    var slot := Choose(l, d, s).0.value;
    if s.Slot(slot).state == Pending {
      TriedSafe(l, d.mem, s, slot);
      var tried := WithState(s, slot, Trial);
      SafeNext(l, d.mem, s, tried);
      BootCommit(l, j, d, tried, start, Running, script, s);
    }
  }

  lemma TriedSafe(l: Layout, mem: seq<int>, s: Snapshot, slot: nat)
    requires Safe(l, mem, s) && slot < 2 && s.Slot(slot).state == Pending
    ensures Safe(l, mem, WithState(s, slot, Trial)) && WithState(s, slot, Trial).counter == s.counter
  {
    hide Intact, Committable;
    CommittableSequence(s);
    SafeWeakened(l, mem, s, WithState(s, slot, Trial));
  }

  /** From a safe cell, a selection without a fault boots a verified slot, whatever
      the journal holds. Only the sequence numbers can run out. */
  lemma SelectSucceeds(l: Layout, j: Journal, d: Device, start: nat, o: Outcome, script: seq<Event>, s: Snapshot)
    requires Ready(l) && Ok?(l, j) && j.status != Busy && d.op.NoOp? && Fits(l, d.mem) && Holds(l, d.mem, s)
      && Safe(l, d.mem, s)
    requires s.sequence + 2 < TWO_64
    requires AllFaultFree(script) && Finishes(script) >= 2 * TICKS && SelectInTime(l, j, d, start, o, script)
    ensures var r := Select(l, BOOT, j, d, start, o, script);
            && r.stage == Selected && r.selection.status == Ok
            && Intact(l, r.d.mem, r.selection.slot, r.selection.image)
  {
    hide Fits, Valid, Records, Holds, Cell, Ready, OffSlots, SameSlots, Intact, Ok?, Commit, Pick, Load, Safe, Torn,
         Booted, PickInTime, CommitInTime, Fades;
    var s1, t1 := SelectSafe(l, BOOT, j, d, start, o, script, s);
    LatestFound(l, j, d, o, s);
    IdleCell(l, d, s, s);
    var s0 := LoadSafe(l, j, d, o, s, s);
    var loaded := Load(l, j, d, o);
    LoadedIdle(l, j, loaded);
    RejectSafe(l, d.mem, s);
    var q := RejectTrials(s);
    if q == s {
      PickSucceeds(l, loaded.j, d, s, start, script);
    } else {
      FitsSame(l, d.mem, Commit(l, BOOT, loaded.j, d, q, 0, false, start, Running, script).d.mem);
      RejectedThenPicked(l, loaded.j, d, start, script, s);
    }
  }

  lemma RejectedThenPicked(l: Layout, j: Journal, d: Device, start: nat, script: seq<Event>, s: Snapshot)
    requires Ready(l) && Ok?(l, j) && j.status != Busy && d.op.NoOp? && Fits(l, d.mem) && Holds(l, d.mem, s)
      && Safe(l, d.mem, s)
    requires s.sequence + 2 < TWO_64 && AllFaultFree(script) && Finishes(script) >= 2 * TICKS
    requires CommitInTime(l, j, d, RejectTrials(s), start, Running, script)
    requires var c := Commit(l, BOOT, j, d, RejectTrials(s), 0, false, start, Running, script);
             Fits(l, c.d.mem) && (c.status == Ok ==>
                                  PickInTime(l, c.j, c.d, RejectTrials(s), Restart(start, c.rest), c.rest))
    ensures var c := Commit(l, BOOT, j, d, RejectTrials(s), 0, false, start, Running, script);
            && c.status == Ok
            && Pick(l, BOOT, c.j, c.d, RejectTrials(s), Restart(start, c.rest), c.rest).stage == Selected
  {
    hide Fits, Valid, Records, Holds, Cell, Ready, OffSlots, SameSlots, Intact, Ok?, Commit, Pick, Safe, CommitInTime,
         PickInTime;
    RejectSafe(l, d.mem, s);
    var q := RejectTrials(s);
    SafeNext(l, d.mem, s, q);
    BootCommit(l, j, d, q, start, Running, script, s);
    var s1, t1 := CommitSafe(l, BOOT, j, d, q, start, Running, script, s);
    var c := Commit(l, BOOT, j, d, q, 0, false, start, Running, script);
    var again := Restart(start, c.rest);
    PickSequence(l, BOOT, c.j, c.d, q, s1.sequence, again, c.rest);
    PickInTimeSequence(l, c.j, c.d, q, s1.sequence, again, c.rest);
    PickSucceeds(l, c.j, c.d, s1, again, c.rest);
  }

  lemma PickInTimeSequence(l: Layout, j: Journal, d: Device, s: Snapshot, k: u64, start: nat, script: seq<Event>)
    requires Fits(l, d.mem) && Ok?(l, j) && PickInTime(l, j, d, s, start, script)
    ensures PickInTime(l, j, d, s.(sequence := k), start, script)
  {
    hide Fits, Valid, Records, Ok?, CommitInTime, VerifyImage;
    BeginSequence(l, j, d, WithState(s, 0, Trial), k, start, script);
    BeginSequence(l, j, d, WithState(s, 1, Trial), k, start, script);
  }

  lemma BeginSequence(l: Layout, j: Journal, d: Device, s: Snapshot, k: u64, start: nat, script: seq<Event>)
    requires Fits(l, d.mem) && Ok?(l, j)
    ensures CommitInTime(l, j, d, s, start, Running, script) <==>
      CommitInTime(l, j, d, s.(sequence := k), start, Running, script)
  {
    hide Fits, Valid, Records, Plan, ScanTo, Poll, InTime;
    if j.status != Busy {
      var loaded := Load(l, j, d, Running);
      if loaded.status == Ok {
        FitsSame(l, d.mem, loaded.d.mem);
        PlanSequence(l, BOOT, loaded.j, loaded.d.mem, Some(loaded.j.latest), s, k);
      }
    }
  }

  // ---- A clock condition on the script alone ----

  // The clock does not run backwards, and no reading is a timeout after an earlier one.
  ghost predicate Brisk(l: Layout, start: nat, script: seq<Event>) {
    && (forall i :: 0 <= i < |script| ==> start <= script[i].caller < start + l.operationTimeout)
    && (forall i, k :: 0 <= i <= k < |script| ==>
          && script[i].caller <= script[k].caller
          && script[i].now <= script[k].now < script[i].now + l.operationTimeout)
  }

  lemma {:induction false} BriskInTime(l: Layout, j: Journal, d: Device, start: nat, script: seq<Event>)
    requires Fits(l, d.mem) && Ok?(l, j) && Brisk(l, start, script)
    requires !j.requested ==> forall i :: 0 <= i < |script| ==>
      j.started <= script[i].now < j.started + l.operationTimeout
    ensures InTime(l, j, d, start, l.operationTimeout, script)
    decreases |script|
  {
    hide Fits, Ok?, Step;
    if j.status == Busy && script != [] {
      var e := script[0];
      ElapsedBelow(e.caller, start, l.operationTimeout);
      if !j.requested { ElapsedBelow(e.now, j.started, l.operationTimeout); }
      var j0 := j.(timedOut := Elapsed(e.caller, start) >= l.operationTimeout);
      TimedOk(l, j, j0);
      var (j1, d1) := Tick(l, j0, d, e);
      FitsSame(l, d.mem, d1.mem);
      TickStarted(l, j0, d, e);
      assert forall i :: 0 <= i < |script[1..]| ==> script[1..][i] == script[i + 1];
      BriskInTime(l, j1, d1, start, script[1..]);
    }
  }

  lemma ElapsedBelow(now: nat, since: nat, limit: nat)
    requires since <= now < since + limit
    ensures Elapsed(now, since) < limit
  {}

  lemma TickStarted(l: Layout, j: Journal, d: Device, e: Event)
    requires Fits(l, d.mem) && Ok?(l, j) && j.status == Busy
    ensures var (j1, _) := Tick(l, j, d, e);
            !j1.requested && j1.started == if j.requested then e.now else j.started
  {
    hide Fits, Ok?, Step;
    StateActive(l, j);
    var j0 := if j.requested then j.(started := e.now)
              else if Elapsed(e.now, j.started) >= l.operationTimeout then j.(timedOut := true) else j;
    TimedOk(l, j, j0);
    StepStarted(l, j0, d, e);
  }

  lemma StepStarted(l: Layout, j: Journal, d: Device, e: Event)
    requires Fits(l, d.mem) && Ok?(l, j) && (j.requested <==> !Active(j.state))
    ensures var (j1, _) := Step(l, j, d, e);
            !j1.requested && j1.started == j.started
  {
    hide Fits, Valid, Records, Read, StartErase, StartProgram, Poll, NextUnit;
    match j.state {
      case Idle | Done | Failed => {}
      case Erase => {}
      case EraseWait => {}
      case Write => {}
      case WriteWait => {}
      case Verify => {}
    }
  }

  lemma BriskCommit(l: Layout, j: Journal, d: Device, s: Snapshot, start: nat, o: Outcome, script: seq<Event>)
    requires Fits(l, d.mem) && Ok?(l, j) && Brisk(l, start, script)
    ensures CommitInTime(l, j, d, s, start, o, script)
  {
    hide Fits, Ok?, InTime, Load, Plan, Brisk;
    var begun := Begin(l, BOOT, j, d, s, false, o);
    FitsSame(l, d.mem, begun.d.mem);
    if begun.status == Ok {
      BriskInTime(l, begun.j, begun.d, start, script);
    }
  }

  /** A script within one timeout is in time for a whole selection. */
  lemma BriskSelect(l: Layout, j: Journal, d: Device, start: nat, o: Outcome, script: seq<Event>)
    requires Fits(l, d.mem) && Ok?(l, j) && Brisk(l, start, script)
    ensures SelectInTime(l, j, d, start, o, script)
  {
    hide Fits, Ok?, CommitInTime, Load, Commit, Choose, Brisk, Restart;
    var loaded := Load(l, j, d, o);
    FitsSame(l, d.mem, loaded.d.mem);
    if loaded.status == Ok {
      var s := loaded.snapshot.value;
      var q := RejectTrials(s);
      BriskPick(l, loaded.j, loaded.d, s, start, script);
      BriskCommit(l, loaded.j, loaded.d, q, start, Running, script);
      var c := Commit(l, BOOT, loaded.j, loaded.d, q, 0, false, start, Running, script);
      FitsSame(l, loaded.d.mem, c.d.mem);
      CommitSuffix(l, loaded.j, loaded.d, q, start, script);
      BriskRest(l, start, script, c.rest);
      BriskPick(l, c.j, c.d, q, Restart(start, c.rest), c.rest);
    }
  }

  lemma BriskPick(l: Layout, j: Journal, d: Device, s: Snapshot, start: nat, script: seq<Event>)
    requires Fits(l, d.mem) && Ok?(l, j) && Brisk(l, start, script)
    ensures PickInTime(l, j, d, s, start, script)
  {
    hide Fits, Ok?, CommitInTime, VerifyImage, Brisk;
    BriskCommit(l, j, d, WithState(s, 0, Trial), start, Running, script);
    BriskCommit(l, j, d, WithState(s, 1, Trial), start, Running, script);
  }

  predicate Suffix(rest: seq<Event>, script: seq<Event>) { |rest| <= |script| && rest == script[|script| - |rest|..] }

  lemma {:induction false} RunSuffix(l: Layout, j: Journal, d: Device, start: nat, timeout: nat, script: seq<Event>)
    requires Fits(l, d.mem) && Ok?(l, j)
    ensures Suffix(Run(l, j, d, start, timeout, script).rest, script)
    decreases |script|
  {
    hide Fits, Ok?, Tick;
    if j.status == Busy && script != [] {
      var e := script[0];
      var j0 := j.(timedOut := Elapsed(e.caller, start) >= timeout);
      TimedOk(l, j, j0);
      var (j1, d1) := Tick(l, j0, d, e);
      FitsSame(l, d.mem, d1.mem);
      RunSuffix(l, j1, d1, start, timeout, script[1..]);
    }
  }

  lemma CommitSuffix(l: Layout, j: Journal, d: Device, s: Snapshot, start: nat, script: seq<Event>)
    requires Fits(l, d.mem) && Ok?(l, j)
    ensures Suffix(Commit(l, BOOT, j, d, s, 0, false, start, Running, script).rest, script)
  {
    hide Fits, Ok?, Begin, Run;
    var begun := Begin(l, BOOT, j, d, s, false, Running);
    FitsSame(l, d.mem, begun.d.mem);
    RunSuffix(l, begun.j, begun.d, start, l.operationTimeout, script);
  }

  lemma BriskRest(l: Layout, start: nat, script: seq<Event>, rest: seq<Event>)
    requires Brisk(l, start, script) && Suffix(rest, script)
    ensures Brisk(l, Restart(start, rest), rest)
  {
    var k := |script| - |rest|;
    assert forall i :: 0 <= i < |rest| ==> rest[i] == script[k + i];
  }
}
