/** What every run of the scheduler keeps: no task is re-entered, repetitions stay
    on their cadence, and no time is lost or counted twice. */
module SchedulerCadence {
  import opened Arithmetic
  import opened Clock
  import opened SchedulerSpec
  import opened SchedulerBypass

  // ---- Callbacks in progress ----

  // One frame for each executing task, none for the others.
  ghost predicate Nested(frames: seq<Frame>, tasks: seq<Task>) {
    && (forall k :: 0 <= k < |frames| ==>
          frames[k].task < |tasks| && tasks[frames[k].task].executing
          && frames[k].generation <= tasks[frames[k].task].generation)
    && (forall j, k :: 0 <= j < k < |frames| ==> frames[j].task != frames[k].task)
    && (forall i :: 0 <= i < |tasks| && tasks[i].executing ==>
          exists k :: 0 <= k < |frames| && frames[k].task == i)
  }

  // When frame k was interrupted by the next one, or now for the innermost.
  function Until(frames: seq<Frame>, now: nat, k: nat): nat
    requires k < |frames|
  {
    if k + 1 < |frames| then frames[k + 1].start else now
  }

  // Nested time fits between a callback's start and its latest interruption.
  ghost predicate Spaced(frames: seq<Frame>, now: nat) {
    forall k :: 0 <= k < |frames| ==> frames[k].start + frames[k].nested <= Until(frames, now, k) <= now
  }

  ghost predicate Accounted(s: Sched) {
    |s.selfTimes| == |s.tasks| && Spaced(s.frames, s.now) && Sum(s.selfTimes) == s.rooted + NestedSum(s.frames)
  }

  function Sum(xs: seq<int>): int { if xs == [] then 0 else xs[0] + Sum(xs[1..]) }

  function NestedSum(fs: seq<Frame>): int { if fs == [] then 0 else fs[0].nested + NestedSum(fs[1..]) }

  // ---- Cadence ----

  function Clamp(x: nat): nat { if x >= FOREVER then LAST else x }

  // An iteration of this generation is in progress.
  ghost predicate InFlight(frames: seq<Frame>, i: nat, generation: nat) {
    exists k :: 0 <= k < |frames| && frames[k].task == i && frames[k].generation == generation
  }

  // The due time of iteration n of a repeating task.
  function Deadline(t: Task, n: nat): nat
    requires t.interval > 0
  {
    DeadlineNatural(n, t.interval);
    t.firstDue + Mul(n, t.interval)
  }

  lemma DeadlineNatural(n: nat, k: nat)
    ensures Mul(n, k) >= 0
  {}

  ghost predicate OnCadence(frames: seq<Frame>, i: nat, t: Task) {
    t.active && t.mode == Repeat ==>
      && t.interval > 0
      && t.due == Clamp(Deadline(t, t.completed + if InFlight(frames, i, t.generation) then 1 else 0))
      && forall k :: 0 <= k < |frames| && frames[k].task == i && frames[k].generation == t.generation ==>
           frames[k].scheduled == Clamp(Deadline(t, t.completed))
  }

  ghost predicate Cadenced(frames: seq<Frame>, tasks: seq<Task>) {
    forall i :: 0 <= i < |tasks| ==> OnCadence(frames, i, tasks[i])
  }

  ghost predicate Inv(s: Sched) {
    WellTimed(s) && Nested(s.frames, s.tasks) && Accounted(s) && Cadenced(s.frames, s.tasks)
  }

  // ---- Taking a task ----

  lemma {:induction false} NestedSumAppend(fs: seq<Frame>, f: Frame)
    ensures NestedSum(fs + [f]) == NestedSum(fs) + f.nested
  {
    if fs == [] {
      assert fs + [f] == [f] && NestedSum([f][1..]) == 0;
    } else {
      NestedSumAppend(fs[1..], f);
      assert (fs + [f])[1..] == fs[1..] + [f];
    }
  }

  lemma {:induction false} SumUpdate(xs: seq<int>, i: nat, x: int)
    requires i < |xs|
    ensures Sum(xs[i := x]) == Sum(xs) - xs[i] + x
  {
    var after := xs[i := x];
    if i == 0 {
      assert after[1..] == xs[1..];
    } else {
      SumUpdate(xs[1..], i - 1, x);
      assert after[1..] == xs[1..][i - 1 := x];
    }
  }

  lemma ClampAfter(x: nat, interval: nat)
    requires interval > 0
    ensures After(Clamp(x), interval) == Clamp(x + interval)
  {}

  lemma NextDeadline(t: Task, n: nat)
    requires t.interval > 0
    ensures Deadline(t, n + 1) == Deadline(t, n) + t.interval
  {}

  lemma TakeNested(s: Sched, i: nat)
    requires Nested(s.frames, s.tasks) && i < |s.tasks| && !s.tasks[i].executing
    ensures Nested(TakeTask(s, i).frames, TakeTask(s, i).tasks)
  {
    var s1 := TakeTask(s, i);
    forall j | 0 <= j < |s1.tasks| && s1.tasks[j].executing
      ensures exists k :: 0 <= k < |s1.frames| && s1.frames[k].task == j
    {
      if j == i {
        assert s1.frames[|s.frames|].task == i;
      } else {
        var k :| 0 <= k < |s.frames| && s.frames[k].task == j;
        assert s1.frames[k].task == j;
      }
    }
  }

  lemma TakeAccounted(s: Sched, i: nat)
    requires Accounted(s) && i < |s.tasks|
    ensures Accounted(TakeTask(s, i))
  {
    var f := Frame(i, s.tasks[i].generation, s.tasks[i].due, s.now, 0);
    NestedSumAppend(s.frames, f);
    var s1 := TakeTask(s, i);
    forall k | 0 <= k < |s1.frames|
      ensures s1.frames[k].start + s1.frames[k].nested <= Until(s1.frames, s1.now, k) <= s1.now
    {
      if k < |s.frames| { assert s.frames[k].start + s.frames[k].nested <= Until(s.frames, s.now, k) <= s.now; }
    }
  }

  lemma TakeCadence(s: Sched, i: nat, j: nat)
    requires Nested(s.frames, s.tasks) && Cadenced(s.frames, s.tasks) && i < |s.tasks| && !s.tasks[i].executing
      && j < |s.tasks|
    ensures OnCadence(TakeTask(s, i).frames, j, TakeTask(s, i).tasks[j])
  {
    hide Deadline, Clamp, After;
    var s1 := TakeTask(s, i);
    var t := s.tasks[j];
    assert OnCadence(s.frames, j, s.tasks[j]);
    assert forall k :: 0 <= k < |s.frames| ==> s1.frames[k] == s.frames[k];
    if j == i {
      assert !InFlight(s.frames, i, s.tasks[i].generation);
      assert s1.frames[|s.frames|].task == i;
      if t.active && t.mode == Repeat {
        NextDeadline(t, t.completed);
        NextDeadline(s1.tasks[i], t.completed);
        ClampAfter(Deadline(t, t.completed), t.interval);
        SameDeadline(t, s1.tasks[i], t.completed);
        assert InFlight(s1.frames, i, s1.tasks[i].generation);
      }
    } else {
      assert s1.tasks[j] == t;
      assert InFlight(s1.frames, j, s1.tasks[j].generation) <==> InFlight(s.frames, j, s.tasks[j].generation);
    }
  }

  lemma SameDeadline(t: Task, u: Task, n: nat)
    requires t.interval > 0 && u.interval == t.interval && u.firstDue == t.firstDue
    ensures Deadline(u, n) == Deadline(t, n)
  {}

  lemma TakeInv(s: Sched, i: nat)
    requires Inv(s) && i < |s.tasks| && !s.tasks[i].executing
    ensures Inv(TakeTask(s, i))
  {
    hide Nested, Accounted, OnCadence;
    TakeNested(s, i);
    TakeAccounted(s, i);
    forall j | 0 <= j < |s.tasks| ensures OnCadence(TakeTask(s, i).frames, j, TakeTask(s, i).tasks[j]) {
      TakeCadence(s, i, j);
    }
  }

  // ---- A callback returns ----

  lemma InnerFrame(s: Sched)
    requires Inv(s) && s.frames != []
    ensures var f := s.frames[|s.frames| - 1];
            f.start + f.nested <= s.now && f.task < |s.tasks| && f.task < |s.selfTimes|
  {
    hide OnCadence;
    assert s.frames[|s.frames| - 1].start + s.frames[|s.frames| - 1].nested <= Until(s.frames, s.now, |s.frames| - 1);
  }

  lemma FinishNested(s: Sched)
    requires Inv(s) && s.frames != []
    ensures Nested(Finish(s).frames, Finish(s).tasks)
  {
    hide Accounted, OnCadence, WellTimed;
    InnerFrame(s);
    var s1 := Finish(s);
    var depth := |s.frames| - 1;
    assert forall k :: 0 <= k < depth ==>
      s1.frames[k].task == s.frames[k].task && s1.frames[k].generation == s.frames[k].generation;
    forall i | 0 <= i < |s1.tasks| && s1.tasks[i].executing
      ensures exists k :: 0 <= k < |s1.frames| && s1.frames[k].task == i
    {
      var k :| 0 <= k < |s.frames| && s.frames[k].task == i;
      assert s1.frames[k].task == i;
    }
  }

  lemma {:induction false} NestedSumUpdate(fs: seq<Frame>, k: nat, f: Frame)
    requires k < |fs|
    ensures NestedSum(fs[k := f]) == NestedSum(fs) - fs[k].nested + f.nested
  {
    var after := fs[k := f];
    if k == 0 {
      assert after[1..] == fs[1..];
    } else {
      NestedSumUpdate(fs[1..], k - 1, f);
      assert after[1..] == fs[1..][k - 1 := f];
    }
  }

  // The frames left after a return, the interrupted one charged.
  function Returned(frames: seq<Frame>, now: nat): (r: seq<Frame>)
    requires frames != [] && frames[|frames| - 1].start <= now
    ensures |r| == |frames| - 1
  {
    var depth := |frames| - 1;
    var duration := now - frames[depth].start;
    if depth == 0 then frames[..depth]
    else frames[..depth][depth - 1 := frames[depth - 1].(nested := frames[depth - 1].nested + duration)]
  }

  lemma ReturnedSpaced(frames: seq<Frame>, now: nat)
    requires frames != [] && frames[|frames| - 1].start <= now && Spaced(frames, now)
    ensures Spaced(Returned(frames, now), now)
  {
    var after := Returned(frames, now);
    forall k | 0 <= k < |after| ensures after[k].start + after[k].nested <= Until(after, now, k) <= now {
      assert frames[k].start + frames[k].nested <= Until(frames, now, k) <= now;
    }
  }

  lemma ReturnedSum(frames: seq<Frame>, now: nat)
    requires frames != [] && frames[|frames| - 1].start <= now
    ensures var f := frames[|frames| - 1];
            NestedSum(Returned(frames, now))
            == NestedSum(frames) - f.nested + (if |frames| > 1 then now - f.start else 0)
  {
    hide NestedSum, Returned;
    var depth := |frames| - 1;
    var f, parents := frames[depth], frames[..depth];
    InnermostSum(frames);
    ReturnedParts(frames, now);
    if depth > 0 { ParentCharged(parents, now - f.start); }
  }

  lemma InnermostSum(frames: seq<Frame>)
    requires frames != []
    ensures NestedSum(frames) == NestedSum(frames[..|frames| - 1]) + frames[|frames| - 1].nested
  {
    hide NestedSum;
    assert frames == frames[..|frames| - 1] + [frames[|frames| - 1]];
    NestedSumAppend(frames[..|frames| - 1], frames[|frames| - 1]);
  }

  lemma ReturnedParts(frames: seq<Frame>, now: nat)
    requires frames != [] && frames[|frames| - 1].start <= now
    ensures var parents := frames[..|frames| - 1];
            Returned(frames, now) ==
            if |frames| == 1 then parents
            else
              var p := parents[|parents| - 1];
              parents[|parents| - 1 := p.(nested := p.nested + (now - frames[|frames| - 1].start))]
  {}

  lemma ParentCharged(parents: seq<Frame>, duration: nat)
    requires parents != []
    ensures var p := parents[|parents| - 1];
            NestedSum(parents[|parents| - 1 := p.(nested := p.nested + duration)]) == NestedSum(parents) + duration
  {
    hide NestedSum;
    var p := parents[|parents| - 1];
    NestedSumUpdate(parents, |parents| - 1, p.(nested := p.nested + duration));
  }

  /** Returning charges the callback's own time to its task, and all of it to the
      callback it interrupted. */
  lemma FinishAccounted(s: Sched)
    requires Inv(s) && s.frames != []
    ensures Accounted(Finish(s))
  {
    hide Nested, OnCadence, WellTimed, Spaced, Sum, NestedSum;
    InnerFrame(s);
    var f := s.frames[|s.frames| - 1];
    var s1 := Finish(s);
    assert s1.frames == Returned(s.frames, s.now);
    ReturnedSpaced(s.frames, s.now);
    ReturnedSum(s.frames, s.now);
    SumUpdate(s.selfTimes, f.task, s.selfTimes[f.task] + (s.now - f.start) - f.nested);
  }

  lemma FinishCadence(s: Sched, i: nat)
    requires Inv(s) && s.frames != [] && i < |s.tasks|
    ensures OnCadence(Finish(s).frames, i, Finish(s).tasks[i])
  {
    hide Deadline, Clamp, Accounted, WellTimed;
    InnerFrame(s);
    var s1 := Finish(s);
    var depth := |s.frames| - 1;
    var f := s.frames[depth];
    assert OnCadence(s.frames, i, s.tasks[i]);
    assert forall k :: 0 <= k < depth ==> s1.frames[k] == s.frames[k].(nested := s1.frames[k].nested);
    var t, u := s.tasks[i], s1.tasks[i];
    if t.active && t.mode == Repeat {
      SameDeadline(t, u, t.completed);
      SameDeadline(t, u, t.completed + 1);
      FinishInFlight(s, i);
    }
  }

  // A return ends the flight of its own task and of no other.
  lemma FinishInFlight(s: Sched, i: nat)
    requires Inv(s) && s.frames != [] && i < |s.tasks|
    ensures var f := s.frames[|s.frames| - 1];
            var flying := InFlight(s.frames, i, s.tasks[i].generation);
            && (InFlight(Finish(s).frames, i, s.tasks[i].generation) <==> flying && f.task != i)
            && (flying && f.task == i ==> f.generation == s.tasks[i].generation)
            && (f.task == i && f.generation == s.tasks[i].generation ==> flying)
  {
    hide OnCadence, Accounted, WellTimed;
    var s1 := Finish(s);
    var depth := |s.frames| - 1;
    assert forall k :: 0 <= k < depth ==> s1.frames[k] == s.frames[k].(nested := s1.frames[k].nested);
    var generation := s.tasks[i].generation;
    if InFlight(s.frames, i, generation) {
      var k :| 0 <= k < |s.frames| && s.frames[k].task == i && s.frames[k].generation == generation;
      if k < depth { assert s1.frames[k].task == i; }
    }
    if InFlight(s1.frames, i, generation) {
      var k :| 0 <= k < |s1.frames| && s1.frames[k].task == i && s1.frames[k].generation == generation;
      assert s.frames[k].task == i && s.frames[k].generation == generation;
    }
  }

  lemma FinishInv(s: Sched)
    requires Inv(s)
    ensures Inv(Finish(s))
  {
    hide OnCadence, Nested, Accounted;
    StepWellTimed(s, Finishes);
    if s.frames != [] {
      FinishNested(s);
      FinishAccounted(s);
      forall i | 0 <= i < |Finish(s).tasks| ensures OnCadence(Finish(s).frames, i, Finish(s).tasks[i]) {
        FinishCadence(s, i);
      }
    }
  }

  // ---- Scheduling and cancelling ----

  // Replacing a task by one of a later generation, on cadence by itself.
  lemma RenewInv(s: Sched, i: nat, t: Task)
    requires Inv(s) && i < |s.tasks| && t.executing == s.tasks[i].executing && t.generation > s.tasks[i].generation
    requires t.due <= LAST && (t.mode == Repeat ==> t.interval > 0)
    requires t.active && t.mode == Repeat ==> t.completed == 0 && t.due == t.firstDue
    ensures Inv(s.(tasks := s.tasks[i := t]))
  {
    hide OnCadence, Spaced;
    RenewNested(s.frames, s.tasks, i, t);
    RenewCadence(s.frames, s.tasks, i, t);
    var after := s.tasks[i := t];
    forall j | 0 <= j < |after| ensures OnCadence(s.frames, j, after[j]) {
      assert OnCadence(s.frames, j, s.tasks[j]);
    }
  }

  lemma RenewNested(frames: seq<Frame>, tasks: seq<Task>, i: nat, t: Task)
    requires Nested(frames, tasks) && i < |tasks| && t.executing == tasks[i].executing
      && t.generation > tasks[i].generation
    ensures Nested(frames, tasks[i := t])
  {}

  lemma RenewCadence(frames: seq<Frame>, tasks: seq<Task>, i: nat, t: Task)
    requires Nested(frames, tasks) && i < |tasks| && t.generation > tasks[i].generation
    requires t.due <= LAST && (t.mode == Repeat ==> t.interval > 0)
    requires t.active && t.mode == Repeat ==> t.completed == 0 && t.due == t.firstDue
    ensures OnCadence(frames, i, t)
  {
    assert !InFlight(frames, i, t.generation);
    FirstDeadline(t);
  }

  lemma FirstDeadline(t: Task)
    ensures t.interval > 0 ==> Deadline(t, 0) == t.firstDue
    ensures t.firstDue <= LAST ==> Clamp(t.firstDue) == t.firstDue
  {}

  lemma EventsInv(s: Sched, events: seq<Posted>)
    requires Inv(s)
    ensures Inv(s.(events := events))
  {
    hide OnCadence, Spaced;
  }

  lemma AdvanceInv(s: Sched, span: nat)
    requires Inv(s)
    ensures Inv(Advance(s, span))
  {
    hide OnCadence, Spaced;
    SpacedLater(s.frames, s.now, Advance(s, span).now);
  }

  lemma SpacedLater(frames: seq<Frame>, now: nat, later: nat)
    requires Spaced(frames, now) && now <= later
    ensures Spaced(frames, later)
  {
    forall k | 0 <= k < |frames| ensures frames[k].start + frames[k].nested <= Until(frames, later, k) <= later {
      assert frames[k].start + frames[k].nested <= Until(frames, now, k) <= now;
    }
  }

  /** Every action keeps the invariant. */
  lemma StepInv(s: Sched, a: Action)
    requires Inv(s)
    ensures Inv(Step(s, a))
  {
    hide Inv, Choose, EarliestTask, TakeTask, RemoveEvent, Finish, Advance;
    InvTimed(s);
    match a {
      case Dispatches =>
        if s.frames == [] {
          match Choose(s) {
            case NoChoice =>
            case EventChoice(k) => EventsInv(s, RemoveEvent(s.events, k));
            case TaskChoice(i) => TakeInv(s, i);
          }
        }
      case Yields =>
        var i := EarliestTask(s.tasks, s.now, true, |s.tasks|);
        if i.Some? && s.frames != [] && |s.frames| < s.limit { TakeInv(s, i.value); }
      case Finishes => FinishInv(s);
      case Posts(value) => EventsInv(s, s.events + [Posted(value, s.now)]);
      case Schedules(i, delay, mode) =>
        if i < |s.tasks| && !(mode == Repeat && delay == 0) { RenewInv(s, i, Schedule(s, i, delay, mode).tasks[i]); }
      case Cancels(i) =>
        if i < |s.tasks| && s.tasks[i].active { RenewInv(s, i, Cancel(s, i).tasks[i]); }
      case Advances(span) => AdvanceInv(s, span);
    }
  }

  lemma InvTimed(s: Sched)
    requires Inv(s)
    ensures s.now <= LAST && WellTimed(s)
    ensures s.frames == [] ==> forall i :: 0 <= i < |s.tasks| ==> !s.tasks[i].executing
  {}

  lemma {:induction false} RunInv(s: Sched, actions: seq<Action>)
    requires Inv(s)
    ensures Inv(Run(s, actions))
    decreases |actions|
  {
    hide Inv, Step;
    if actions != [] {
      StepInv(s, actions[0]);
      RunInv(Step(s, actions[0]), actions[1..]);
    }
  }

  // The state in which run() enters its loop: every active task due one interval
  // after the start, nothing done yet.
  ghost predicate Started(s: Sched) {
    && s.now <= LAST && s.frames == [] && s.rooted == 0 && |s.selfTimes| == |s.tasks|
    && (forall i :: 0 <= i < |s.tasks| ==>
          var t := s.tasks[i];
          && !t.executing && t.completed == 0 && s.selfTimes[i] == 0 && (t.mode == Repeat ==> t.interval > 0)
          && t.due <= LAST && (t.active ==> t.due == t.firstDue == After(s.now, t.interval)))
  }

  lemma {:induction false} ZeroSum(xs: seq<int>)
    requires forall i :: 0 <= i < |xs| ==> xs[i] == 0
    ensures Sum(xs) == 0
  {
    if xs != [] { ZeroSum(xs[1..]); }
  }

  lemma StartedInv(s: Sched)
    requires Started(s)
    ensures Inv(s)
  {
    ZeroSum(s.selfTimes);
    forall i | 0 <= i < |s.tasks| ensures OnCadence(s.frames, i, s.tasks[i]) { FirstDeadline(s.tasks[i]); }
  }

  /** Conservation: in every state of every run the own time of a returning
      callback is not negative, no task is entered twice, and whenever no callback
      is running the own times of all tasks add up to the time of the callbacks
      that were not nested. */
  lemma TimeConserved(s: Sched, actions: seq<Action>)
    requires Started(s)
    ensures var r := Run(s, actions);
            && (r.frames == [] ==> Sum(r.selfTimes) == r.rooted)
            && (r.frames != [] ==>
                  var f := r.frames[|r.frames| - 1];
                  r.now - f.start - f.nested >= 0)
            && (forall j, k :: 0 <= j < k < |r.frames| ==> r.frames[j].task != r.frames[k].task)
  {
    StartedInv(s);
    RunInv(s, actions);
    var r := Run(s, actions);
    if r.frames != [] { InnerFrame(r); }
  }

  /** Cadence: in every state of every run, an active repeating task is due at its
      first due time plus one interval for each completed iteration of the current
      generation and one for the iteration in progress, of which there is at most
      one, up to the saturation of due times. */
  lemma CadenceKept(s: Sched, actions: seq<Action>, i: nat)
    requires Started(s) && i < |Run(s, actions).tasks|
    ensures var r := Run(s, actions);
            var t := r.tasks[i];
            t.active && t.mode == Repeat ==>
              var starts := t.completed + if InFlight(r.frames, i, r.tasks[i].generation) then 1 else 0;
              t.interval > 0 && t.due == Clamp(t.firstDue + Mul(starts, t.interval))
  {
    hide Run, Nested, Accounted, WellTimed, Clamp, InFlight, Started;
    StartedInv(s);
    RunInv(s, actions);
    assert OnCadence(Run(s, actions).frames, i, Run(s, actions).tasks[i]);
  }

  // ---- The watchdog ----

  // What progress() copies out of a task.
  datatype TaskProgress = TaskProgress(repeating: bool, firstDue: nat, period: nat, completed: nat)

  function ProgressOf(t: Task): TaskProgress {
    TaskProgress(t.active && t.mode == Repeat, t.firstDue, t.interval, t.completed)
  }

  datatype Failure = Healthy | Failed(task: nat, expected: nat, completed: nat)

  // The deadline of the oldest iteration not yet completed is before the cutoff.
  predicate Overdue(p: TaskProgress, cutoff: nat) {
    p.repeating && p.period > 0 && p.firstDue + Mul(p.completed, p.period) < cutoff
  }

  lemma ExpectedExact(p: TaskProgress, cutoff: nat)
    requires p.repeating && p.period > 0 && p.firstDue < cutoff
    ensures var expected := (cutoff - 1 - p.firstDue) / p.period + 1;
            expected > 0 && (p.completed < expected <==> Overdue(p, cutoff))
  {
    DivBounds(cutoff - 1 - p.firstDue, p.period);
    DivAtLeast(cutoff - 1 - p.firstDue, p.period, p.completed);
  }

  lemma NotYetDue(p: TaskProgress, cutoff: nat)
    requires p.firstDue >= cutoff
    ensures !Overdue(p, cutoff)
  {
    DeadlineNatural(p.completed, p.period);
  }

  /** The watchdog reports a failure exactly when some repeating task has an
      incomplete iteration whose deadline is strictly older than the allowance,
      and names the first such task. */
  method CheckProgress(running: bool, now: nat, tasks: seq<TaskProgress>, allowance: nat) returns (f: Failure)
    ensures f.Failed? <==>
      running && now > allowance && exists i :: 0 <= i < |tasks| && Overdue(tasks[i], now - allowance)
    ensures f.Failed? ==>
      && f.task < |tasks| && Overdue(tasks[f.task], now - allowance)
      && f.completed == tasks[f.task].completed < f.expected
      && forall i :: 0 <= i < f.task ==> !Overdue(tasks[i], now - allowance)
  {
    if !running || now <= allowance {
      return Healthy;
    }
    var cutoff := now - allowance;
    for i := 0 to |tasks|
      invariant forall k :: 0 <= k < i ==> !Overdue(tasks[k], cutoff)
    {
      var p := tasks[i];
      if !p.repeating || p.period == 0 || p.firstDue >= cutoff {
        if p.firstDue >= cutoff { NotYetDue(p, cutoff); }
        continue;
      }
      var expected := (cutoff - 1 - p.firstDue) / p.period + 1;
      ExpectedExact(p, cutoff);
      if p.completed < expected {
        return Failed(i, expected, p.completed);
      }
    }
    return Healthy;
  }

  /** In every state of every run, what the watchdog measures is real: the oldest
      incomplete deadline is the due time of the iteration in progress or, when none
      is, the task's due time. */
  lemma OldestIncomplete(s: Sched, actions: seq<Action>, i: nat, k: nat)
    requires Started(s) && i < |Run(s, actions).tasks|
    ensures var r := Run(s, actions);
            var t := r.tasks[i];
            t.active && t.mode == Repeat && t.due < LAST ==>
              var oldest := t.firstDue + Mul(t.completed, t.interval);
              && (!InFlight(r.frames, i, t.generation) ==> oldest == t.due)
              && (k < |r.frames| && r.frames[k].task == i && r.frames[k].generation == t.generation ==>
                    oldest == r.frames[k].scheduled)
  {
    hide Run, Nested, Accounted, WellTimed, InFlight, Started;
    StartedInv(s);
    RunInv(s, actions);
    var r := Run(s, actions);
    var t := r.tasks[i];
    assert OnCadence(r.frames, i, t);
    if t.active && t.mode == Repeat {
      NextDeadline(t, t.completed);
    }
  }

  // The oldest incomplete iteration of a repeating task was due before the cutoff:
  // the one in progress, or the next one when none is.
  ghost predicate Late(r: Sched, i: nat, cutoff: nat)
    requires i < |r.tasks|
  {
    var t := r.tasks[i];
    && t.active && t.mode == Repeat
    && if InFlight(r.frames, i, t.generation) then
         exists k ::
           0 <= k < |r.frames| && r.frames[k].task == i && r.frames[k].generation == t.generation
           && r.frames[k].scheduled < cutoff
       else t.due < cutoff
  }

  lemma OverdueLate(r: Sched, i: nat, cutoff: nat)
    requires Inv(r) && i < |r.tasks| && cutoff <= r.now
    ensures Overdue(ProgressOf(r.tasks[i]), cutoff) <==> Late(r, i, cutoff)
  {
    hide Nested, Accounted;
    var t := r.tasks[i];
    assert OnCadence(r.frames, i, t);
    if t.active && t.mode == Repeat {
      assert Clamp(Deadline(t, t.completed)) < cutoff <==> Deadline(t, t.completed) < cutoff;
      if InFlight(r.frames, i, t.generation) {
        var k :| 0 <= k < |r.frames| && r.frames[k].task == i && r.frames[k].generation == t.generation;
        assert r.frames[k].scheduled == Clamp(Deadline(t, t.completed));
      }
    }
  }

  function Since(now: nat, allowance: nat): nat { if now > allowance then now - allowance else 0 }

  /** The watchdog over whole runs: it reports a failure exactly when an active
      repeating task has its iteration in progress, or its next one when none is,
      due before the allowance, and names the first such task. */
  method WatchRun(running: bool, r: Sched, allowance: nat, ghost s: Sched, ghost actions: seq<Action>)
    returns (f: Failure)
    requires Started(s) && r == Run(s, actions)
    ensures f.Failed? <==> running && exists i :: 0 <= i < |r.tasks| && Late(r, i, Since(r.now, allowance))
    ensures f.Failed? ==>
      && f.task < |r.tasks| && Late(r, f.task, Since(r.now, allowance))
      && forall i :: 0 <= i < f.task ==> !Late(r, i, Since(r.now, allowance))
  {
    hide Run, Started, Inv, Overdue, Late;
    StartedInv(s);
    RunInv(s, actions);
    var tasks := seq(|r.tasks|, i requires 0 <= i < |r.tasks| => ProgressOf(r.tasks[i]));
    f := CheckProgress(running, r.now, tasks, allowance);
    forall i | 0 <= i < |r.tasks|
      ensures Overdue(tasks[i], Since(r.now, allowance)) <==> Late(r, i, Since(r.now, allowance))
    {
      OverdueLate(r, i, Since(r.now, allowance));
    }
    if r.now <= allowance {
      forall i | 0 <= i < |r.tasks| ensures !Late(r, i, 0) { NeverLate(r, i); }
    }
  }

  lemma NeverLate(r: Sched, i: nat)
    requires i < |r.tasks|
    ensures !Late(r, i, 0)
  {}
}
