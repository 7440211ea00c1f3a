/** The dispatch core of lib/core/schedule/scheduler.hpp on values: one function
    per guarded section, one action per step of a run. */
module SchedulerSpec {
  import opened Clock
  import opened Record

  // A due time, saturating just below FOREVER.
  function After(now: nat, delay: nat): (r: nat)
    ensures now <= LAST ==> now <= r <= LAST
  {
    if now + delay >= FOREVER then LAST else now + delay
  }

  datatype Mode = Once | Repeat

  datatype Task = Task(active: bool, executing: bool, mode: Mode, interval: nat, due: nat, firstDue: nat,
                       completed: nat, generation: nat)

  datatype Posted = Posted(value: int, due: nat)

  // A callback in progress: which task and generation, its due time, when it
  // started and how much of its time went to nested callbacks.
  datatype Frame = Frame(task: nat, generation: nat, scheduled: nat, start: nat, nested: nat)

  // selfTimes are the total_self_duration statistics; rooted is the time of all
  // finished callbacks that were not nested.
  datatype Sched = Sched(tasks: seq<Task>, events: seq<Posted>, now: nat, frames: seq<Frame>, selfTimes: seq<int>,
                         rooted: nat, capacity: nat, limit: nat)

  // ---- Selection ----

  predicate Due(t: Task, now: nat) { t.active && t.due <= now && t.due < FOREVER }

  // The scan of the first k tasks for the earliest due one; idle ones only when
  // called from yield.
  function EarliestTask(tasks: seq<Task>, now: nat, nested: bool, k: nat): (r: Option<nat>)
    requires k <= |tasks|
    ensures r.Some? ==> r.value < k && Due(tasks[r.value], now) && (nested ==> !tasks[r.value].executing)
  {
    if k == 0 then None
    else
      var r := EarliestTask(tasks, now, nested, k - 1);
      var t := tasks[k - 1];
      if Due(t, now) && (nested ==> !t.executing) && (r.None? || t.due < tasks[r.value].due) then Some(k - 1) else r
  }

  // The scan of the first k events for one due before `earliest`.
  function EarliestEvent(events: seq<Posted>, now: nat, earliest: nat, k: nat): (r: Option<nat>)
    requires k <= |events|
    ensures r.Some? ==> r.value < k && events[r.value].due <= now && events[r.value].due < earliest
  {
    if k == 0 then None
    else
      var r := EarliestEvent(events, now, earliest, k - 1);
      var e := events[k - 1];
      if e.due <= now && e.due < (if r.Some? then events[r.value].due else earliest) then Some(k - 1) else r
  }

  datatype Choice = NoChoice | TaskChoice(task: nat) | EventChoice(event: nat)

  function Choose(s: Sched): (c: Choice)
    ensures c.TaskChoice? ==> c.task < |s.tasks| && Due(s.tasks[c.task], s.now)
    ensures c.EventChoice? ==> c.event < |s.events| && s.events[c.event].due <= s.now
  {
    var task := EarliestTask(s.tasks, s.now, false, |s.tasks|);
    var event := EarliestEvent(s.events, s.now, if task.Some? then s.tasks[task.value].due else FOREVER, |s.events|);
    if event.Some? then EventChoice(event.value)
    else if task.Some? then TaskChoice(task.value)
    else NoChoice
  }

  // ---- Guarded sections ----

  // The event at k leaves; the last one takes its place.
  function RemoveEvent(events: seq<Posted>, k: nat): (r: seq<Posted>)
    requires k < |events|
    ensures |r| == |events| - 1
  {
    events[k := events[|events| - 1]][..|events| - 1]
  }

  function Taken(t: Task): Task {
    if t.mode == Repeat then t.(executing := true, due := After(t.due, t.interval))
    else t.(executing := true, active := false)
  }

  function TakeTask(s: Sched, i: nat): Sched
    requires i < |s.tasks|
  {
    var t := s.tasks[i];
    s.(tasks := s.tasks[i := Taken(t)], frames := s.frames + [Frame(i, t.generation, t.due, s.now, 0)])
  }

  // One iteration of the main loop's selection, when no callback is running.
  function Dispatch(s: Sched): Sched {
    if s.frames != [] then s
    else match Choose(s)
      case NoChoice => s
      case EventChoice(k) => s.(events := RemoveEvent(s.events, k))
      case TaskChoice(i) => TakeTask(s, i)
  }

  // A nested dispatch from inside a callback.
  function Yield(s: Sched): Sched {
    var i := EarliestTask(s.tasks, s.now, true, |s.tasks|);
    if s.frames == [] || i.None? || |s.frames| >= s.limit then s else TakeTask(s, i.value)
  }

  // The innermost callback returns.
  function Finish(s: Sched): Sched {
    if s.frames == [] then s
    else
      var depth := |s.frames| - 1;
      var f := s.frames[depth];
      var duration := if f.start <= s.now then s.now - f.start else 0;
      var parents := s.frames[..depth];
      var frames := if depth == 0 then parents
                    else parents[depth - 1 := parents[depth - 1].(nested := parents[depth - 1].nested + duration)];
      if f.task >= |s.tasks| || f.task >= |s.selfTimes| then s.(frames := frames)
      else
        var t := s.tasks[f.task].(executing := false);
        s.(frames := frames,
           tasks := s.tasks[f.task := if t.generation == f.generation then t.(completed := t.completed + 1) else t],
           selfTimes := s.selfTimes[f.task := s.selfTimes[f.task] + duration - f.nested],
           rooted := if depth == 0 then s.rooted + duration else s.rooted)
  }

  function Post(s: Sched, value: int): Sched {
    if |s.events| >= s.capacity then s else s.(events := s.events + [Posted(value, s.now)])
  }

  function Schedule(s: Sched, i: nat, delay: nat, mode: Mode): Sched {
    if i >= |s.tasks| || (mode == Repeat && delay == 0) then s
    else
      var t := s.tasks[i];
      var due := After(s.now, delay);
      s.(tasks := s.tasks[i := t.(active := true, interval := delay, mode := mode, due := due, firstDue := due,
                                  completed := 0, generation := t.generation + 1)])
  }

  function Cancel(s: Sched, i: nat): Sched {
    if i >= |s.tasks| || !s.tasks[i].active then s
    else s.(tasks := s.tasks[i := s.tasks[i].(active := false, generation := s.tasks[i].generation + 1)])
  }

  // The clock is monotonic and never reaches FOREVER.
  function Advance(s: Sched, span: nat): Sched {
    if s.now + span > LAST then s else s.(now := s.now + span)
  }

  // ---- Runs ----

  datatype Action = Dispatches | Yields | Finishes | Posts(value: int) | Schedules(task: nat, delay: nat, mode: Mode)
                  | Cancels(task: nat) | Advances(span: nat)

  function Step(s: Sched, a: Action): Sched {
    match a
    case Dispatches => Dispatch(s)
    case Yields => Yield(s)
    case Finishes => Finish(s)
    case Posts(value) => Post(s, value)
    case Schedules(i, delay, mode) => Schedule(s, i, delay, mode)
    case Cancels(i) => Cancel(s, i)
    case Advances(span) => Advance(s, span)
  }

  function Run(s: Sched, actions: seq<Action>): Sched
    decreases |actions|
  {
    if actions == [] then s else Run(Step(s, actions[0]), actions[1..])
  }

  // The action is a main-loop iteration that selects something.
  predicate Selects(s: Sched, a: Action) {
    a.Dispatches? && s.frames == [] && !Choose(s).NoChoice?
  }

  function Selections(s: Sched, actions: seq<Action>): nat
    decreases |actions|
  {
    if actions == [] then 0
    else (if Selects(s, actions[0]) then 1 else 0) + Selections(Step(s, actions[0]), actions[1..])
  }
}
