/** The timer multiplexer as the object it is. */
module TimersMachine {
  import opened Record
  import opened Clock
  import opened SchedulerSpec
  import T = TimersSpec

  datatype Result = Done | Invalid | Full | NotFound

  // The callback has a timer; the last timer is the scheduler's own.
  ghost predicate Set?(timers: seq<T.Timer>, callback: nat) {
    exists i :: 0 <= i < |timers| - 1 && timers[i].active && timers[i].callback == callback
  }

  // Every timer is active for another callback.
  ghost predicate Crowded(timers: seq<T.Timer>, callback: nat) {
    forall i :: 0 <= i < |timers| - 1 ==> timers[i].active && timers[i].callback != callback
  }

  lemma SlotTaken(timers: seq<T.Timer>, callback: nat)
    requires timers != []
    ensures T.Slot(timers, callback, |timers| - 1).None? <==> Crowded(timers, callback)
  {}

  class TimerTable {
    const timers: array<T.Timer>
    var armed: Option<nat>
    var now: nat
    // Accepted requests are numbered; the log of callbacks invoked.
    var next: nat
    var firing: bool
    var fired: seq<T.Firing>

    function Model(): T.Timers
      reads this, timers
    {
      T.Timers(timers[..], armed, now, next, firing, fired)
    }

    ghost predicate Valid()
      reads this
    {
      timers.Length > 0 && now <= LAST
    }

    constructor (timers: array<T.Timer>, now: nat)
      requires timers.Length > 0 && now <= LAST
      ensures Valid() && this.timers == timers && Model() == T.Timers(timers[..], None, now, 0, false, [])
    {
      this.timers, this.now := timers, now;
      armed, next, firing, fired := None, 0, false, [];
    }

    // Arm the hardware for the earliest active timer, or disarm it.
    method Rearm()
      requires Valid()
      modifies this`armed
      ensures Model() == T.Rearm(old(Model()))
    {
      var first: Option<nat> := None;
      var earliest := FOREVER;
      for i := 0 to timers.Length
        invariant first == T.Earliest(timers[..], FOREVER, i)
        invariant earliest == if first.Some? then timers[first.value].due else FOREVER
      {
        assert timers[..][i] == timers[i];
        if timers[i].active && timers[i].due < earliest {
          earliest := timers[i].due;
          first := Some(i);
        }
      }
      armed := if first.None? then None else Some(if earliest > now then earliest else now);
    }

    // A callback's own slot, or else the last free one.
    method FindSlot(callback: nat) returns (slot: Option<nat>)
      requires Valid()
      ensures slot == T.Slot(timers[..], callback, timers.Length - 1)
    {
      slot := None;
      var n := timers.Length - 1;
      for i := 0 to n
        invariant slot == T.FreeSlot(timers[..], i)
          && T.Own(timers[..], callback, 0, n) == T.Own(timers[..], callback, i, n)
      {
        assert timers[..][i] == timers[i];
        if timers[i].active && timers[i].callback == callback {
          return Some(i);
        }
        if !timers[i].active {
          slot := Some(i);
        }
      }
    }

    // Full means that every timer is active for another callback.
    method Set(delay: nat, callback: nat) returns (result: Result)
      requires Valid()
      modifies this, timers
      ensures Valid() && Model() == T.Set(old(Model()), delay, callback)
      ensures result == Invalid <==> delay == 0 || callback == 0
      ensures result == Full <==> delay > 0 && callback != 0 && Crowded(old(timers[..]), callback)
      ensures result in {Done, Invalid, Full}
    {
      hide T.Slot, T.Earliest;
      if delay == 0 || callback == 0 {
        return Invalid;
      }
      var slot := FindSlot(callback);
      SlotTaken(timers[..], callback);
      if slot.None? {
        return Full;
      }
      timers[slot.value] := T.Timer(true, After(now, delay), callback, next);
      assert timers[..] == old(timers[..])[slot.value := T.Timer(true, After(now, delay), callback, next)];
      next := next + 1;
      Rearm();
      return Done;
    }

    method Cancel(callback: nat) returns (result: Result)
      requires Valid()
      modifies this`armed, timers
      ensures Valid() && Model() == T.CancelTimer(old(Model()), callback)
      ensures result == if Set?(old(timers[..]), callback) then Done else NotFound
    {
      hide T.Earliest;
      var n := timers.Length - 1;
      for i := 0 to n
        invariant timers[..] == old(timers[..])
          && T.Own(timers[..], callback, 0, n) == T.Own(timers[..], callback, i, n)
      {
        assert timers[..][i] == timers[i];
        if timers[i].active && timers[i].callback == callback {
          timers[i] := timers[i].(active := false);
          assert timers[..] == old(timers[..])[i := old(timers[i]).(active := false)];
          Rearm();
          return Done;
        }
      }
      return NotFound;
    }

    // Before idling: the last timer wakes the scheduler for its earliest task.
    method Wake(deadline: nat)
      requires Valid()
      modifies this, timers
      ensures Valid() && Model() == T.Wake(old(Model()), deadline)
    {
      hide T.Earliest;
      var last := timers.Length - 1;
      timers[last] := T.Timer(deadline < FOREVER, deadline, 0, next);
      assert timers[..] == old(timers[..])[last := T.Timer(deadline < FOREVER, deadline, 0, next)];
      next := next + 1;
      Rearm();
    }

    /** One round of serving the timer interrupt: the earliest due timer is removed
        before its callback runs; when none is left the hardware is armed again. */
    method FireOne() returns (callback: nat)
      requires Valid()
      modifies this, timers
      ensures Valid() && Model() == T.FireOne(old(Model()))
      ensures callback != 0 ==> |fired| == |old(fired)| + 1 && fired[|old(fired)|].callback == callback
    {
      callback := 0;
      if !firing {
        return;
      }
      var slot := FindDue();
      if slot.None? {
        hide T.Earliest;
        Rearm();
        firing := false;
        return;
      }
      hide T.Earliest;
      var t := timers[slot.value];
      timers[slot.value] := t.(active := false);
      assert timers[..] == old(timers[..])[slot.value := t.(active := false)];
      callback := t.callback;
      if callback != 0 {
        fired := fired + [T.Firing(t.request, t.callback, t.due, now)];
      }
    }

    method FindDue() returns (slot: Option<nat>)
      requires Valid()
      ensures slot == T.Earliest(timers[..], now, timers.Length)
    {
      slot := None;
      var earliest := FOREVER;
      for i := 0 to timers.Length
        invariant slot == T.Earliest(timers[..], now, i)
        invariant earliest == if slot.Some? then timers[slot.value].due else FOREVER
      {
        assert timers[..][i] == timers[i];
        if timers[i].active && timers[i].due <= now && timers[i].due < earliest {
          earliest := timers[i].due;
          slot := Some(i);
        }
      }
    }
  }
}
