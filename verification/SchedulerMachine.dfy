/** The dispatch core as the object it is: task and event tables updated in place. */
module SchedulerMachine {
  import opened Record
  import opened Clock
  import opened SchedulerSpec
  import opened SchedulerBypass

  datatype Result = Done | Invalid | NotFound | Outside | Empty | Deep

  // A task that is not executing is due.
  ghost predicate Waiting(tasks: seq<Task>, now: nat) {
    exists i :: 0 <= i < |tasks| && Due(tasks[i], now) && !tasks[i].executing
  }

  lemma NobodyWaits(tasks: seq<Task>, now: nat)
    ensures EarliestTask(tasks, now, true, |tasks|).None? <==> !Waiting(tasks, now)
  {
    EarliestTaskExact(tasks, now, true, |tasks|);
  }

  class Scheduler {
    const tasks: array<Task>
    const events: array<Posted>
    var eventCount: nat
    var now: nat
    var frames: seq<Frame>
    var selfTimes: seq<int>
    var rooted: nat
    const limit: nat

    ghost predicate Valid()
      reads this
    {
      eventCount <= events.Length
    }

    function Model(): Sched
      requires Valid()
      reads this, tasks, events
    {
      Sched(tasks[..], events[..eventCount], now, frames, selfTimes, rooted, events.Length, limit)
    }

    constructor (tasks: array<Task>, events: array<Posted>, now: nat, limit: nat)
      ensures Valid() && this.tasks == tasks && this.events == events
      ensures Model() == Sched(tasks[..], [], now, [], seq(tasks.Length, i => 0), 0, events.Length, limit)
    {
      this.tasks, this.events, this.now, this.limit := tasks, events, now, limit;
      eventCount, frames, selfTimes, rooted := 0, [], seq(tasks.Length, i => 0), 0;
    }

    // The earliest due task; from yield, among those not executing.
    method FindTask(nested: bool) returns (r: Option<nat>)
      requires Valid()
      ensures r == EarliestTask(tasks[..], now, nested, tasks.Length)
    {
      r := None;
      var earliest := FOREVER;
      for i := 0 to tasks.Length
        invariant r == EarliestTask(tasks[..], now, nested, i)
        invariant earliest == if r.Some? then tasks[r.value].due else FOREVER
      {
        var t := tasks[i];
        assert tasks[..][i] == t;
        if t.active && !(nested && t.executing) && t.due <= now && t.due < earliest {
          earliest := t.due;
          r := Some(i);
        }
      }
    }

    method FindEvent(before: nat) returns (r: Option<nat>)
      requires Valid()
      ensures r == EarliestEvent(events[..eventCount], now, before, eventCount)
    {
      r := None;
      var earliest := before;
      for i := 0 to eventCount
        invariant r == EarliestEvent(events[..eventCount], now, before, i)
        invariant earliest == if r.Some? then events[r.value].due else before
      {
        var e := events[i];
        assert events[..eventCount][i] == e;
        if e.due <= now && e.due < earliest {
          earliest := e.due;
          r := Some(i);
        }
      }
    }

    method Take(i: nat)
      requires Valid() && i < tasks.Length
      modifies this`frames, tasks
      ensures Valid() && Model() == TakeTask(old(Model()), i)
    {
      var t := tasks[i];
      frames := frames + [Frame(i, t.generation, t.due, now, 0)];
      tasks[i] := Taken(t);
      assert tasks[..] == old(tasks[..])[i := Taken(t)];
    }

    /** One iteration of the main loop's selection. */
    method Dispatch() returns (selected: bool)
      requires Valid()
      modifies this, tasks, events
      ensures Valid() && Model() == SchedulerSpec.Dispatch(old(Model()))
      ensures selected <==> Selects(old(Model()), Dispatches)
    {
      hide EarliestTask, EarliestEvent, TakeTask;
      if frames != [] {
        return false;
      }
      var task := FindTask(false);
      var event := FindEvent(if task.Some? then tasks[task.value].due else FOREVER);
      if event.Some? {
        Remove(event.value);
        return true;
      }
      if task.Some? {
        Take(task.value);
        return true;
      }
      return false;
    }

    // The last event takes the place of the removed one.
    method Remove(k: nat)
      requires Valid() && k < eventCount
      modifies this`eventCount, events
      ensures Valid() && eventCount == old(eventCount) - 1 && tasks[..] == old(tasks[..])
      ensures events[..eventCount] == RemoveEvent(old(events[..eventCount]), k)
    {
      eventCount := eventCount - 1;
      events[k] := events[eventCount];
      assert events[..eventCount] == old(events[..eventCount])[k := old(events[eventCount - 1])][..eventCount];
    }

    /** A nested dispatch from inside a callback. */
    method Yield() returns (result: Result)
      requires Valid()
      modifies this`frames, tasks
      ensures Valid() && Model() == SchedulerSpec.Yield(old(Model()))
      ensures result == Outside <==> old(frames) == []
      ensures result == Result.Empty <==> old(frames) != [] && !Waiting(old(tasks[..]), now)
      ensures result == Deep <==> old(frames) != [] && Waiting(old(tasks[..]), now) && |old(frames)| >= limit
      ensures result in {Outside, Result.Empty, Deep, Done}
    {
      hide EarliestTask, TakeTask;
      if frames == [] {
        return Outside;
      }
      var i := FindTask(true);
      NobodyWaits(tasks[..], now);
      if i.None? {
        return Result.Empty;
      }
      if |frames| >= limit {
        return Deep;
      }
      Take(i.value);
      return Done;
    }

    // Queue an event; a full queue refuses it.
    method Post(value: int) returns (ok: bool)
      requires Valid()
      modifies this`eventCount, events
      ensures Valid() && Model() == SchedulerSpec.Post(old(Model()), value) && (ok <==> old(eventCount) < events.Length)
    {
      if eventCount == events.Length {
        return false;
      }
      events[eventCount] := Posted(value, now);
      eventCount := eventCount + 1;
      assert events[..eventCount] == old(events[..eventCount]) + [Posted(value, now)];
      return true;
    }

    method Schedule(i: nat, delay: nat, mode: Mode) returns (result: Result)
      requires Valid()
      modifies tasks
      ensures Valid() && Model() == SchedulerSpec.Schedule(old(Model()), i, delay, mode)
      ensures result == if mode == Repeat && delay == 0 then Invalid else if i < tasks.Length then Done else NotFound
    {
      if mode == Repeat && delay == 0 {
        return Invalid;
      }
      if i >= tasks.Length {
        return NotFound;
      }
      var t := tasks[i];
      var due := After(now, delay);
      tasks[i] := t.(active := true, interval := delay, mode := mode, due := due, firstDue := due, completed := 0,
                     generation := t.generation + 1);
      assert tasks[..] == old(tasks[..])[i := tasks[i]];
      return Done;
    }

    method Cancel(i: nat) returns (result: Result)
      requires Valid()
      modifies tasks
      ensures Valid() && Model() == SchedulerSpec.Cancel(old(Model()), i)
      ensures result == if i < tasks.Length && old(tasks[..])[i].active then Done else NotFound
    {
      if i >= tasks.Length || !tasks[i].active {
        return NotFound;
      }
      tasks[i] := tasks[i].(active := false, generation := tasks[i].generation + 1);
      assert tasks[..] == old(tasks[..])[i := tasks[i]];
      return Done;
    }

    /** The innermost callback returns; its time is charged. */
    method Finish()
      requires Valid()
      modifies this, tasks
      ensures Valid() && Model() == SchedulerSpec.Finish(old(Model()))
    {
      if frames == [] {
        return;
      }
      var depth := |frames| - 1;
      var f := frames[depth];
      var duration := if f.start <= now then now - f.start else 0;
      var parents := frames[..depth];
      if depth > 0 {
        parents := parents[depth - 1 := parents[depth - 1].(nested := parents[depth - 1].nested + duration)];
      }
      frames := parents;
      if f.task < tasks.Length && f.task < |selfTimes| {
        var t := tasks[f.task].(executing := false);
        if t.generation == f.generation {
          t := t.(completed := t.completed + 1);
        }
        tasks[f.task] := t;
        assert tasks[..] == old(tasks[..])[f.task := t];
        selfTimes := selfTimes[f.task := selfTimes[f.task] + duration - f.nested];
        if depth == 0 {
          rooted := rooted + duration;
        }
      }
    }
  }
}
