/** Many one-shot timers over one hardware timer (TimerSlot, cancel_timer, Rearm
    and Fire of lib/core/schedule/scheduler.hpp), on values. */
module TimersSpec {
  import opened Record
  import opened Clock
  import opened SchedulerSpec

  // request numbers the accepted calls; callback 0 is none.
  datatype Timer = Timer(active: bool, due: nat, callback: nat, request: nat)

  datatype Firing = Firing(request: nat, callback: nat, due: nat, at: nat)

  // The last timer is the scheduler's own wake-up. armed is when the hardware
  // fires; firing says that its interrupt is being served; fired is the log of
  // callbacks invoked.
  datatype Timers = Timers(timers: seq<Timer>, armed: Option<nat>, now: nat, next: nat, firing: bool,
                           fired: seq<Firing>)

  // The slot for a callback among the first k: its own, or else the last free one.
  function Slot(timers: seq<Timer>, callback: nat, k: nat): (r: Option<nat>)
    requires k <= |timers|
    ensures r.Some? ==> r.value < k
    decreases |timers| - k
  {
    var own := Own(timers, callback, 0, k);
    if own.Some? then own else FreeSlot(timers, k)
  }

  function Own(timers: seq<Timer>, callback: nat, i: nat, k: nat): (r: Option<nat>)
    requires i <= k <= |timers|
    ensures r.Some? ==> i <= r.value < k && timers[r.value].active && timers[r.value].callback == callback
    ensures r.None? ==> forall j :: i <= j < k && timers[j].active ==> timers[j].callback != callback
    decreases k - i
  {
    if i == k then None
    else if timers[i].active && timers[i].callback == callback then Some(i)
    else Own(timers, callback, i + 1, k)
  }

  function FreeSlot(timers: seq<Timer>, k: nat): (r: Option<nat>)
    requires k <= |timers|
    ensures r.Some? ==> r.value < k && !timers[r.value].active
    ensures r.None? ==> forall j :: 0 <= j < k ==> timers[j].active
  {
    if k == 0 then None else if !timers[k - 1].active then Some(k - 1) else FreeSlot(timers, k - 1)
  }

  // The index of the earliest active timer due by `limit`, the first of equals.
  function Earliest(timers: seq<Timer>, limit: nat, k: nat): (r: Option<nat>)
    requires k <= |timers|
    ensures r.Some? ==>
      r.value < k && timers[r.value].active && timers[r.value].due <= limit && timers[r.value].due < FOREVER
    ensures forall i :: 0 <= i < k && timers[i].active && timers[i].due <= limit && timers[i].due < FOREVER ==>
              r.Some? && timers[r.value].due <= timers[i].due
  {
    if k == 0 then None
    else
      var r := Earliest(timers, limit, k - 1);
      var t := timers[k - 1];
      if t.active && t.due <= limit && t.due < FOREVER && (r.None? || t.due < timers[r.value].due) then Some(k - 1)
        else r
  }

  function Rearm(s: Timers): Timers {
    var first := Earliest(s.timers, FOREVER, |s.timers|);
    if first.None? then s.(armed := None)
    else
      var due := s.timers[first.value].due;
      s.(armed := Some(if due > s.now then due else s.now))
  }

  predicate Ok?(s: Timers) { s.timers != [] && s.now <= LAST }

  // A one-shot callback after a positive delay; a known callback is replaced.
  function Set(s: Timers, delay: nat, callback: nat): Timers
    requires Ok?(s)
  {
    var slot := Slot(s.timers, callback, |s.timers| - 1);
    if delay == 0 || callback == 0 || slot.None? then s
    else Rearm(s.(timers := s.timers[slot.value := Timer(true, After(s.now, delay), callback, s.next)],
                  next := s.next + 1))
  }

  function CancelTimer(s: Timers, callback: nat): Timers
    requires Ok?(s)
  {
    var slot := Own(s.timers, callback, 0, |s.timers| - 1);
    if slot.None? then s
    else Rearm(s.(timers := s.timers[slot.value := s.timers[slot.value].(active := false)]))
  }

  // Before idling, the wake-up timer gets the earliest task deadline.
  function Wake(s: Timers, deadline: nat): Timers
    requires Ok?(s)
  {
    Rearm(s.(timers := s.timers[|s.timers| - 1 := Timer(deadline < FOREVER, deadline, 0, s.next)], next := s.next + 1))
  }

  // The hardware timer expires and is then disarmed.
  function Interrupt(s: Timers): Timers {
    if s.firing || s.armed.None? || s.armed.value > s.now then s else s.(armed := None, firing := true)
  }

  // One round of serving the interrupt.
  function FireOne(s: Timers): Timers {
    if !s.firing then s
    else
      var due := Earliest(s.timers, s.now, |s.timers|);
      if due.None? then Rearm(s).(firing := false)
      else
        var t := s.timers[due.value];
        s.(timers := s.timers[due.value := t.(active := false)],
           fired := if t.callback == 0 then s.fired else s.fired + [Firing(t.request, t.callback, t.due, s.now)])
  }

  function Pass(s: Timers, span: nat): Timers {
    if s.now + span > LAST then s else s.(now := s.now + span)
  }

  datatype Action = Sets(delay: nat, callback: nat) | Cancels(callback: nat) | Wakes(deadline: nat)
                  | Interrupts | Fires | Passes(span: nat)

  function Step(s: Timers, a: Action): Timers
    requires Ok?(s)
  {
    match a
    case Sets(delay, callback) => Set(s, delay, callback)
    case Cancels(callback) => CancelTimer(s, callback)
    case Wakes(deadline) => Wake(s, deadline)
    case Interrupts => Interrupt(s)
    case Fires => FireOne(s)
    case Passes(span) => Pass(s, span)
  }
}

/** What every run of the timer multiplexer keeps. */
module TimersSafety {
  import opened Record
  import opened Clock
  import S = SchedulerSpec
  import opened TimersSpec

  function Until(s: Timers): Option<nat> {
    var first := Earliest(s.timers, FOREVER, |s.timers|);
    if first.None? then None else Some(s.timers[first.value].due)
  }

  // Armed for the earliest active timer: at its due time, or at once if that passed.
  ghost predicate Armed(s: Timers) {
    match Until(s)
    case None => s.armed.None?
    case Some(due) => s.armed.Some? && due <= s.armed.value && (s.armed.value == due || s.armed.value <= s.now)
  }

  ghost predicate Live(s: Timers, request: nat) {
    exists i :: 0 <= i < |s.timers| && s.timers[i].active && s.timers[i].request == request
  }

  ghost predicate Logged(s: Timers, request: nat) {
    exists k :: 0 <= k < |s.fired| && s.fired[k].request == request
  }

  // Callbacks of active timers, and requests, are distinct; what fired was due,
  // fired once and is gone.
  ghost predicate Sound(s: Timers) {
    && Ok?(s) && (forall i :: 0 <= i < |s.timers| && s.timers[i].active ==> s.timers[i].request < s.next)
    && (forall i, j :: 0 <= i < j < |s.timers| && s.timers[i].active && s.timers[j].active ==>
          s.timers[i].request != s.timers[j].request
          && (j < |s.timers| - 1 ==> s.timers[i].callback != s.timers[j].callback))
    && (forall i :: 0 <= i < |s.timers| - 1 && s.timers[i].active ==> s.timers[i].callback != 0)
    && (forall k :: 0 <= k < |s.fired| ==> s.fired[k].due <= s.fired[k].at <= s.now && s.fired[k].request < s.next)
    && (forall k :: 0 <= k < |s.fired| ==> !Live(s, s.fired[k].request))
    && (forall j, k :: 0 <= j < k < |s.fired| ==> s.fired[j].request != s.fired[k].request)
  }

  ghost predicate Inv(s: Timers) { Sound(s) && (!s.firing ==> Armed(s)) }

  lemma RearmArmed(s: Timers)
    ensures Armed(Rearm(s)) && Rearm(s) == s.(armed := Rearm(s).armed)
  {}

  lemma SoundRearm(s: Timers)
    requires Sound(s)
    ensures Sound(Rearm(s))
  {
    RearmArmed(s);
    SoundArmed(s, Rearm(s).armed, s.firing);
  }

  lemma SoundArmed(s: Timers, armed: Option<nat>, firing: bool)
    requires Sound(s)
    ensures Sound(s.(armed := armed, firing := firing))
  {
    var s1 := s.(armed := armed, firing := firing);
    assert forall r: nat :: Live(s1, r) <==> Live(s, r);
  }

  // A new request in a slot that no other active timer's callback conflicts with.
  lemma SoundRenewed(s: Timers, slot: nat, t: Timer)
    requires Sound(s) && slot < |s.timers| && t.request == s.next
    requires slot < |s.timers| - 1 ==> t.callback != 0
    requires slot < |s.timers| - 1 ==>
      forall i :: 0 <= i < |s.timers| - 1 && i != slot && s.timers[i].active ==> s.timers[i].callback != t.callback
    ensures Sound(s.(timers := s.timers[slot := t], next := s.next + 1))
  {
    var s1 := s.(timers := s.timers[slot := t], next := s.next + 1);
    forall k | 0 <= k < |s1.fired| ensures !Live(s1, s1.fired[k].request) {
      assert !Live(s, s.fired[k].request);
      assert forall i :: 0 <= i < |s.timers| && i != slot ==> s1.timers[i] == s.timers[i];
    }
  }

  lemma SoundDropped(s: Timers, slot: nat)
    requires Sound(s) && slot < |s.timers| && s.timers[slot].active
    ensures var s1 := s.(timers := s.timers[slot := s.timers[slot].(active := false)]);
            Sound(s1) && !Live(s1, s.timers[slot].request)
  {
    var s1 := s.(timers := s.timers[slot := s.timers[slot].(active := false)]);
    forall k | 0 <= k < |s1.fired| ensures !Live(s1, s1.fired[k].request) {
      assert !Live(s, s.fired[k].request);
    }
  }

  lemma SoundOk(s: Timers)
    requires Sound(s)
    ensures Ok?(s) && s.timers != []
  {}

  // No other active timer has the callback for which a slot was found.
  lemma SlotDistinct(s: Timers, callback: nat)
    requires Sound(s)
    ensures Ok?(s)
    ensures var slot := Slot(s.timers, callback, |s.timers| - 1);
            slot.Some? ==>
              forall i :: 0 <= i < |s.timers| - 1 && i != slot.value && s.timers[i].active ==>
                s.timers[i].callback != callback
  {}

  lemma SetInv(s: Timers, delay: nat, callback: nat)
    requires Inv(s)
    ensures Inv(Set(s, delay, callback))
  {
    hide Sound, Armed, Rearm, Slot;
    SoundOk(s);
    SlotDistinct(s, callback);
    var slot := Slot(s.timers, callback, |s.timers| - 1);
    if delay != 0 && callback != 0 && slot.Some? {
      var t := Timer(true, S.After(s.now, delay), callback, s.next);
      SoundRenewed(s, slot.value, t);
      var s1 := s.(timers := s.timers[slot.value := t], next := s.next + 1);
      SoundRearm(s1);
      RearmArmed(s1);
    }
  }

  lemma CancelInv(s: Timers, callback: nat)
    requires Inv(s)
    ensures Inv(CancelTimer(s, callback))
  {
    hide Sound, Armed, Rearm;
    SoundOk(s);
    var slot := Own(s.timers, callback, 0, |s.timers| - 1);
    if slot.Some? {
      SoundDropped(s, slot.value);
      var s1 := s.(timers := s.timers[slot.value := s.timers[slot.value].(active := false)]);
      SoundRearm(s1);
      RearmArmed(s1);
    }
  }

  lemma WakeInv(s: Timers, deadline: nat)
    requires Inv(s)
    ensures Inv(Wake(s, deadline))
  {
    hide Sound, Armed, Rearm;
    SoundOk(s);
    var t := Timer(deadline < FOREVER, deadline, 0, s.next);
    SoundRenewed(s, |s.timers| - 1, t);
    var s1 := s.(timers := s.timers[|s.timers| - 1 := t], next := s.next + 1);
    SoundRearm(s1);
    RearmArmed(s1);
  }

  lemma FireInv(s: Timers)
    requires Inv(s)
    ensures Inv(FireOne(s))
  {
    if s.firing {
      var due := Earliest(s.timers, s.now, |s.timers|);
      if due.None? {
        RearmArmed(s);
        SoundArmed(s, Rearm(s).armed, false);
        FiringArmed(Rearm(s));
      } else {
        var t := s.timers[due.value];
        SoundDropped(s, due.value);
        var s1 := s.(timers := s.timers[due.value := t.(active := false)]);
        if t.callback != 0 { SoundLogged(s, s1, t, Firing(t.request, t.callback, t.due, s.now)); }
      }
    }
  }

  lemma FiringArmed(s: Timers)
    requires Armed(s)
    ensures Armed(s.(firing := false))
  {}

  lemma SoundLogged(s: Timers, s1: Timers, t: Timer, f: Firing)
    requires Sound(s) && Sound(s1) && s1 == s.(timers := s1.timers) && !Live(s1, f.request)
    requires t in s.timers && t.active && f == Firing(t.request, t.callback, t.due, s.now) && t.due <= s.now
    ensures Sound(s1.(fired := s1.fired + [f]))
  {
    var s2 := s1.(fired := s1.fired + [f]);
    assert Live(s, t.request);
    forall k | 0 <= k < |s2.fired| ensures !Live(s2, s2.fired[k].request) {
      assert Live(s2, s2.fired[k].request) <==> Live(s1, s2.fired[k].request);
      if k < |s1.fired| { assert !Live(s1, s1.fired[k].request); }
    }
    forall j, k | 0 <= j < k < |s2.fired| ensures s2.fired[j].request != s2.fired[k].request {
      if k == |s1.fired| { assert !Live(s, s.fired[j].request); }
    }
  }

  lemma PassInv(s: Timers, span: nat)
    requires Inv(s)
    ensures Inv(Pass(s, span))
  {
    var s1 := Pass(s, span);
    assert forall r: nat :: Live(s1, r) <==> Live(s, r);
  }

  /** Every action keeps the invariant. */
  lemma StepInv(s: Timers, a: Action)
    requires Inv(s)
    ensures Ok?(s) && Inv(Step(s, a))
  {
    match a {
      case Sets(delay, callback) => SetInv(s, delay, callback);
      case Cancels(callback) => CancelInv(s, callback);
      case Wakes(deadline) => WakeInv(s, deadline);
      case Interrupts => SoundArmed(s, None, true);
      case Fires => FireInv(s);
      case Passes(span) => PassInv(s, span);
    }
  }

  function Run(s: Timers, actions: seq<Action>): Timers
    decreases |actions|
  {
    if actions == [] || !Ok?(s) then s else Run(Step(s, actions[0]), actions[1..])
  }

  lemma {:induction false} RunInv(s: Timers, actions: seq<Action>)
    requires Inv(s)
    ensures Inv(Run(s, actions))
    decreases |actions|
  {
    hide Step, Sound, Armed;
    if actions != [] {
      StepInv(s, actions[0]);
      RunInv(Step(s, actions[0]), actions[1..]);
    }
  }

  // A request that was made, is no longer active and has not fired.
  ghost predicate Retired(s: Timers, request: nat) {
    request < s.next && !Live(s, request) && !Logged(s, request)
  }

  // Nothing but new requests becomes active, and only active ones are logged.
  ghost predicate Follows(s: Timers, s1: Timers) {
    && s1.next >= s.next
    && (forall i :: 0 <= i < |s1.timers| && s1.timers[i].active && s1.timers[i].request < s.next ==>
        Live(s, s1.timers[i].request))
    && (forall k :: 0 <= k < |s1.fired| ==>
        (k < |s.fired| && s1.fired[k] == s.fired[k]) || Live(s, s1.fired[k].request))
  }

  lemma FollowsRetired(s: Timers, s1: Timers, request: nat)
    requires Follows(s, s1) && Retired(s, request)
    ensures Retired(s1, request)
  {}

  lemma FollowsUpdate(s: Timers, slot: nat, t: Timer, next: nat, armed: Option<nat>)
    requires slot < |s.timers| && next >= s.next && (t.active ==> t.request >= s.next)
    ensures Follows(s, s.(timers := s.timers[slot := t], next := next, armed := armed))
  {
    assert forall i :: 0 <= i < |s.timers| && s.timers[i].active ==> Live(s, s.timers[i].request);
  }

  lemma FollowsSame(s: Timers, s1: Timers)
    requires s1.timers == s.timers && s1.next == s.next && s1.fired == s.fired
    ensures Follows(s, s1)
  {
    assert forall i :: 0 <= i < |s.timers| && s.timers[i].active ==> Live(s, s.timers[i].request);
  }

  lemma StepFollows(s: Timers, a: Action)
    requires Ok?(s)
    ensures Follows(s, Step(s, a))
  {
    hide Follows, Live;
    match a {
      case Sets(delay, callback) =>
        var slot := Slot(s.timers, callback, |s.timers| - 1);
        if delay == 0 || callback == 0 || slot.None? {
          FollowsSame(s, s);
        } else {
          FollowsUpdate(s, slot.value, Timer(true, S.After(s.now, delay), callback, s.next), s.next + 1,
                        Step(s, a).armed);
        }
      case Cancels(callback) =>
        var slot := Own(s.timers, callback, 0, |s.timers| - 1);
        if slot.None? {
          FollowsSame(s, s);
        } else {
          FollowsUpdate(s, slot.value, s.timers[slot.value].(active := false), s.next, Step(s, a).armed);
        }
      case Wakes(deadline) =>
        FollowsUpdate(s, |s.timers| - 1, Timer(deadline < FOREVER, deadline, 0, s.next), s.next + 1, Step(s, a).armed);
      case Interrupts => FollowsSame(s, Step(s, a));
      case Fires => FireFollows(s);
      case Passes(span) => FollowsSame(s, Step(s, a));
    }
  }

  lemma FireFollows(s: Timers)
    ensures Follows(s, FireOne(s))
  {
    assert forall i :: 0 <= i < |s.timers| && s.timers[i].active ==> Live(s, s.timers[i].request);
  }

  lemma StepRetired(s: Timers, a: Action, request: nat)
    requires Ok?(s) && Retired(s, request)
    ensures Retired(Step(s, a), request)
  {
    hide Follows, Retired;
    StepFollows(s, a);
    FollowsRetired(s, Step(s, a), request);
  }

  /** A request that was cancelled or replaced before it fired never fires, however
      the run goes on. */
  lemma {:induction false} RetiredForever(s: Timers, actions: seq<Action>, request: nat)
    requires Inv(s) && Retired(s, request)
    ensures !Logged(Run(s, actions), request)
    decreases |actions|
  {
    hide Step, Sound, Armed, Live;
    if actions != [] {
      StepInv(s, actions[0]);
      StepRetired(s, actions[0], request);
      RetiredForever(Step(s, actions[0]), actions[1..], request);
    }
  }

  /** Cancelling a callback retires its request; setting it again retires the old
      one. */
  lemma CancelRetires(s: Timers, delay: nat, i: nat)
    requires Inv(s) && i < |s.timers| - 1 && s.timers[i].active && delay > 0
    ensures Retired(CancelTimer(s, s.timers[i].callback), s.timers[i].request)
    ensures Retired(Set(s, delay, s.timers[i].callback), s.timers[i].request)
  {
    var t := s.timers[i];
    var slot := Own(s.timers, t.callback, 0, |s.timers| - 1);
    assert slot == Some(i);
    SoundDropped(s, i);
    assert Live(s, t.request);
    var s1 := CancelTimer(s, t.callback);
    assert s1.timers == s.timers[i := t.(active := false)];
    var s2 := Set(s, delay, t.callback);
    assert forall k :: 0 <= k < |s.timers| && k != i ==> s2.timers[k] == s.timers[k];
    assert s2.timers[i].request == s.next;
  }

  /** Over every run from a fresh start: outside the interrupt the hardware timer is
      armed for the earliest active due time; active callbacks are distinct; nothing
      fires early; no request fires twice. */
  lemma TimersSafe(s: Timers, actions: seq<Action>)
    requires Ok?(s) && s.armed.None? && !s.firing && s.fired == []
    requires forall i :: 0 <= i < |s.timers| ==> !s.timers[i].active
    ensures var r := Run(s, actions);
            && (!r.firing ==> Armed(r))
            && (forall i, j :: 0 <= i < j < |r.timers| - 1 && r.timers[i].active && r.timers[j].active ==>
                  r.timers[i].callback != r.timers[j].callback)
            && (forall k :: 0 <= k < |r.fired| ==> r.fired[k].due <= r.fired[k].at)
            && (forall j, k :: 0 <= j < k < |r.fired| ==> r.fired[j].request != r.fired[k].request)
  {
    RunInv(s, actions);
  }

  /** A timer that is due does not wait for another one: while the interrupt is
      served every round fires the earliest due timer or, when none is left, ends
      with the hardware armed again. */
  lemma FiresEarliest(s: Timers)
    requires Inv(s) && s.firing
    ensures var due := Earliest(s.timers, s.now, |s.timers|);
            if due.None? then
              && !FireOne(s).firing && Armed(FireOne(s))
              && forall i :: 0 <= i < |s.timers| && s.timers[i].active ==>
                    s.timers[i].due > s.now || s.timers[i].due >= FOREVER
            else
              && !FireOne(s).timers[due.value].active
              && forall i ::
                    0 <= i < |s.timers| && s.timers[i].active && s.timers[i].due <= s.now
                      && s.timers[i].due < FOREVER ==>
                   s.timers[due.value].due <= s.timers[i].due
  {
    FireInv(s);
  }
}
