/** Bounded bypass: how many selections can precede pending work. */
module SchedulerBypass {
  import opened Clock
  import opened SchedulerSpec
  import opened Arithmetic

  // ---- What the scans find ----

  lemma {:induction false} EarliestTaskExact(tasks: seq<Task>, now: nat, nested: bool, k: nat)
    requires k <= |tasks|
    ensures var r := EarliestTask(tasks, now, nested, k);
            && (forall i :: 0 <= i < k && Due(tasks[i], now) && (nested ==> !tasks[i].executing) ==>
                  r.Some? && tasks[r.value].due <= tasks[i].due)
            && (r.Some? ==> forall i :: 0 <= i < r.value && Due(tasks[i], now) && (nested ==> !tasks[i].executing) ==>
                  tasks[i].due > tasks[r.value].due)
  {
    if k > 0 { EarliestTaskExact(tasks, now, nested, k - 1); }
  }

  lemma {:induction false} EarliestEventExact(events: seq<Posted>, now: nat, earliest: nat, k: nat)
    requires k <= |events|
    ensures var r := EarliestEvent(events, now, earliest, k);
            forall i :: 0 <= i < k && events[i].due <= now && events[i].due < earliest ==>
              r.Some? && events[r.value].due <= events[i].due
  {
    if k > 0 { EarliestEventExact(events, now, earliest, k - 1); }
  }

  function ChosenDue(s: Sched): nat {
    match Choose(s)
    case NoChoice => FOREVER
    case TaskChoice(i) => s.tasks[i].due
    case EventChoice(k) => s.events[k].due
  }

  /** The main loop selects the earliest due work there is. */
  lemma ChoosesEarliest(s: Sched)
    requires s.now <= LAST
    ensures forall i :: 0 <= i < |s.tasks| && Due(s.tasks[i], s.now) ==> ChosenDue(s) <= s.tasks[i].due
    ensures forall k :: 0 <= k < |s.events| && s.events[k].due <= s.now ==> ChosenDue(s) <= s.events[k].due
    ensures !Choose(s).NoChoice? ==> ChosenDue(s) <= s.now
  {
    EarliestTaskExact(s.tasks, s.now, false, |s.tasks|);
    var task := EarliestTask(s.tasks, s.now, false, |s.tasks|);
    EarliestEventExact(s.events, s.now, if task.Some? then s.tasks[task.value].due else FOREVER, |s.events|);
  }

  // ---- Counting pending work ----

  // Iterations of a task that are due by d.
  function Iterations(t: Task, d: nat): (n: nat)
    ensures n > 0 <==> t.active && t.due <= d
  {
    if !t.active || t.due > d then 0
    else if t.mode == Once || t.interval == 0 then 1
    else
      DivNatural(d - t.due, t.interval);
      (d - t.due) / t.interval + 1
  }

  lemma DivNatural(x: nat, k: nat)
    requires k > 0
    ensures x / k >= 0
  {}

  function TaskWork(tasks: seq<Task>, d: nat): nat {
    if tasks == [] then 0 else Iterations(tasks[0], d) + TaskWork(tasks[1..], d)
  }

  function EventWork(events: seq<Posted>, d: nat): nat {
    if events == [] then 0 else (if events[0].due <= d then 1 else 0) + EventWork(events[1..], d)
  }

  // All events and task iterations pending with a due time up to d.
  function Ahead(s: Sched, d: nat): nat { TaskWork(s.tasks, d) + EventWork(s.events, d) }

  lemma {:induction false} TaskWorkUpdate(tasks: seq<Task>, i: nat, t: Task, d: nat)
    requires i < |tasks|
    ensures TaskWork(tasks[i := t], d) + Iterations(tasks[i], d) == TaskWork(tasks, d) + Iterations(t, d)
  {
    var after := tasks[i := t];
    if i == 0 {
      assert after[1..] == tasks[1..];
    } else {
      TaskWorkUpdate(tasks[1..], i - 1, t, d);
      assert after[1..] == tasks[1..][i - 1 := t];
    }
  }

  lemma {:induction false} TaskWorkAt(tasks: seq<Task>, i: nat, d: nat)
    requires i < |tasks|
    ensures TaskWork(tasks, d) >= Iterations(tasks[i], d)
  {
    if i > 0 { TaskWorkAt(tasks[1..], i - 1, d); }
  }

  lemma {:induction false} EventWorkConcat(a: seq<Posted>, b: seq<Posted>, d: nat)
    ensures EventWork(a + b, d) == EventWork(a, d) + EventWork(b, d)
  {
    if a == [] {
      assert a + b == b;
    } else {
      EventWorkConcat(a[1..], b, d);
      assert (a + b)[1..] == a[1..] + b;
    }
  }

  lemma {:induction false} EventWorkIn(events: seq<Posted>, e: Posted, d: nat)
    requires e in events && e.due <= d
    ensures EventWork(events, d) >= 1
  {
    if events[0] != e { EventWorkIn(events[1..], e, d); }
  }

  function One(e: Posted, d: nat): nat { if e.due <= d then 1 else 0 }

  lemma EventWorkRemove(events: seq<Posted>, k: nat, d: nat)
    requires k < |events|
    ensures EventWork(RemoveEvent(events, k), d) + One(events[k], d) == EventWork(events, d)
  {
    var n := |events| - 1;
    var before, last := events[..k], events[n];
    SingleWork(events[k], d);
    SingleWork(last, d);
    if k == n {
      assert events == before + [events[k]] && RemoveEvent(events, k) == before;
      EventWorkConcat(before, [events[k]], d);
    } else {
      var middle := events[k + 1..n];
      assert events == before + ([events[k]] + (middle + [last]));
      assert RemoveEvent(events, k) == before + ([last] + middle);
      EventWorkConcat(before, [events[k]] + (middle + [last]), d);
      EventWorkConcat([events[k]], middle + [last], d);
      EventWorkConcat(middle, [last], d);
      EventWorkConcat(before, [last] + middle, d);
      EventWorkConcat([last], middle, d);
    }
  }

  lemma SingleWork(e: Posted, d: nat)
    ensures EventWork([e], d) == One(e, d)
  {
    assert EventWork([e][1..], d) == 0;
  }

  // ---- What each action does to the count ----

  // Scheduled repetitions have a positive interval; due times stay below FOREVER.
  predicate WellTimed(s: Sched) {
    && s.now <= LAST
    && (forall i :: 0 <= i < |s.tasks| ==>
        s.tasks[i].due <= LAST && (s.tasks[i].mode == Repeat ==> s.tasks[i].interval > 0))
  }

  lemma DivSmall(x: int, k: int)
    requires 0 <= x < k
    ensures x / k == 0
  {}

  /** Taking a task spends exactly one of its iterations. */
  lemma TakenIterations(t: Task, d: nat)
    requires t.active && t.due <= d < LAST && (t.mode == Repeat ==> t.interval > 0)
    ensures Iterations(Taken(t), d) == Iterations(t, d) - 1
  {
    if t.mode == Repeat {
      if t.due + t.interval <= d {
        DivLess(d - t.due, t.interval);
      } else {
        DivSmall(d - t.due, t.interval);
      }
    }
  }

  lemma LaterTaken(t: Task, d: nat)
    requires t.active && t.due > d && t.due <= LAST
    ensures Iterations(Taken(t), d) == 0
  {}

  lemma StepWellTimed(s: Sched, a: Action)
    requires WellTimed(s)
    ensures WellTimed(Step(s, a)) && s.now <= Step(s, a).now
  {}

  lemma TakeWork(s: Sched, i: nat, d: nat)
    requires WellTimed(s) && i < |s.tasks| && s.tasks[i].active && d < LAST
    ensures Ahead(TakeTask(s, i), d) == Ahead(s, d) - (if s.tasks[i].due <= d then 1 else 0)
  {
    TaskWorkUpdate(s.tasks, i, Taken(s.tasks[i]), d);
    if s.tasks[i].due <= d {
      TakenIterations(s.tasks[i], d);
    } else {
      LaterTaken(s.tasks[i], d);
    }
  }

  // Work due by d, where d has passed, is selected before anything later.
  lemma DispatchWork(s: Sched, d: nat)
    requires WellTimed(s) && d < s.now && s.frames == [] && !Choose(s).NoChoice?
    ensures Ahead(Dispatch(s), d) == Ahead(s, d) - (if ChosenDue(s) <= d then 1 else 0)
  {
    match Choose(s) {
      case TaskChoice(i) => TakeWork(s, i, d);
      case EventChoice(k) => EventWorkRemove(s.events, k, d);
    }
  }

  lemma FinishWork(s: Sched, d: nat)
    ensures Ahead(Finish(s), d) == Ahead(s, d)
  {
    if s.frames != [] {
      var f := s.frames[|s.frames| - 1];
      if f.task < |s.tasks| && f.task < |s.selfTimes| {
        TaskWorkUpdate(s.tasks, f.task, Finish(s).tasks[f.task], d);
      }
    }
  }

  lemma RescheduledWork(s: Sched, i: nat, t: Task, d: nat)
    requires i < |s.tasks| && (!t.active || t.due > d)
    ensures Ahead(s.(tasks := s.tasks[i := t]), d) <= Ahead(s, d)
  {
    TaskWorkUpdate(s.tasks, i, t, d);
  }

  /** No action adds to the work due by a time that has passed. */
  lemma NothingAdded(s: Sched, a: Action, d: nat)
    requires WellTimed(s) && d < s.now
    ensures Ahead(Step(s, a), d) <= Ahead(s, d)
  {
    hide Ahead, Choose, EarliestTask;
    match a {
      case Dispatches =>
        if s.frames == [] && !Choose(s).NoChoice? { DispatchWork(s, d); }
      case Yields =>
        var i := EarliestTask(s.tasks, s.now, true, |s.tasks|);
        if i.Some? { TakeWork(s, i.value, d); }
      case Finishes => FinishWork(s, d);
      case Posts(value) => PostWork(s, value, d);
      case Schedules(i, delay, mode) =>
        if i < |s.tasks| && !(mode == Repeat && delay == 0) {
          RescheduledWork(s, i, Schedule(s, i, delay, mode).tasks[i], d);
        }
      case Cancels(i) =>
        if i < |s.tasks| && s.tasks[i].active { RescheduledWork(s, i, Cancel(s, i).tasks[i], d); }
      case Advances(span) => AdvanceWork(s, span, d);
    }
  }

  lemma PostWork(s: Sched, value: int, d: nat)
    requires d < s.now
    ensures Ahead(Post(s, value), d) == Ahead(s, d)
  {
    EventWorkConcat(s.events, [Posted(value, s.now)], d);
    SingleWork(Posted(value, s.now), d);
  }

  lemma AdvanceWork(s: Sched, span: nat, d: nat)
    ensures Ahead(Advance(s, span), d) == Ahead(s, d)
  {}

  // ---- Bounded bypass ----

  // Work that is watched: an iteration of a task in one generation, or an event.
  datatype Work = TaskWorkItem(task: nat, generation: nat, due: nat) | EventItem(event: Posted)
  {
    function Due(): nat { if TaskWorkItem? then due else event.due }
  }

  predicate Pending(s: Sched, w: Work) {
    match w
    case TaskWorkItem(i, generation, due) =>
      i < |s.tasks| && s.tasks[i].active && s.tasks[i].generation == generation && s.tasks[i].due == due
    case EventItem(e) => e in s.events
  }

  // The work stays pending through the whole run: it is neither selected nor
  // cancelled nor rescheduled.
  ghost predicate Waits(s: Sched, actions: seq<Action>, w: Work)
    decreases |actions|
  {
    Pending(s, w) && (actions != [] ==> Waits(Step(s, actions[0]), actions[1..], w))
  }

  lemma PendingAhead(s: Sched, w: Work)
    requires Pending(s, w)
    ensures Ahead(s, w.Due()) >= 1
  {
    match w {
      case TaskWorkItem(i, _, due) => TaskWorkAt(s.tasks, i, due);
      case EventItem(e) => EventWorkIn(s.events, e, e.due);
    }
  }

  // While work is pending past its due time, a selection takes nothing later.
  lemma SelectionAhead(s: Sched, a: Action, w: Work)
    requires WellTimed(s) && Pending(s, w) && w.Due() < s.now && Selects(s, a)
    ensures Ahead(Step(s, a), w.Due()) == Ahead(s, w.Due()) - 1
  {
    hide Ahead, Choose;
    ChoosesEarliest(s);
    DispatchWork(s, w.Due());
  }

  /** Bounded bypass: once the clock has passed the due time of pending work, the
      selections of any run in which it waits, plus the work then still ahead,
      never exceed the work ahead at the start. The work itself is always counted,
      so fewer than Ahead selections precede its own. */
  lemma {:induction false} BoundedBypass(s: Sched, actions: seq<Action>, w: Work)
    requires WellTimed(s) && w.Due() < s.now && Waits(s, actions, w)
    ensures Selections(s, actions) + Ahead(Run(s, actions), w.Due()) <= Ahead(s, w.Due())
    ensures Selections(s, actions) < Ahead(s, w.Due())
    decreases |actions|
  {
    hide Ahead, Step, Selects, WellTimed;
    if actions == [] {
      PendingAhead(s, w);
    } else {
      var a := actions[0];
      TimedStep(s, a, w);
      BoundedBypass(Step(s, a), actions[1..], w);
    }
  }

  lemma TimedStep(s: Sched, a: Action, w: Work)
    requires WellTimed(s) && w.Due() < s.now && Pending(s, w)
    ensures WellTimed(Step(s, a)) && w.Due() < Step(s, a).now
    ensures Ahead(Step(s, a), w.Due()) + (if Selects(s, a) then 1 else 0) <= Ahead(s, w.Due())
  {
    hide Ahead, Step, Selects;
    StepWellTimed(s, a);
    NothingAdded(s, a, w.Due());
    if Selects(s, a) { SelectionAhead(s, a, w); }
  }
}
