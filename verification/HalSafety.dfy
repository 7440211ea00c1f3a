/** What every interleaving of transfers, interrupts and resets keeps. */
module HalSafety {
  import opened Record
  import opened HalSpec

  // ---- The controller between locked sections ----

  // A transfer is in progress.
  predicate Transferring(c: Controller) { c.active && !c.resetting }

  // The job of a transfer in progress, by machine state.
  ghost predicate Working(w: Job, state: State) {
    && w.done <= |w.actions| && w.actions != [] && (w.setupFailed ==> w.status != Fine)
    && (w.started ==> w.done < |w.actions|)
    && (state == HPause ==> w.done < |w.actions| && !w.started && !w.setupFailed)
    && (state != HFinish && w.status != Fine ==> w.setupFailed)
    && (state == HFinish && w.status == Fine ==> w.done == |w.actions|)
  }

  // The machine's state fits what is in progress, and the counters add up.
  ghost predicate Consistent(c: Controller) {
    && (c.resetting ==> c.active)
    && (c.state in {HTransfer, HPause, HFinish} ==> Transferring(c))
    && (c.state == HReset ==> c.resetting)
    && (Transferring(c) ==> Working(c.job, c.state) && c.job.transfer + 1 == c.counts.accepted)
    && c.counts.accepted == c.counts.completed + (if Transferring(c) then 1 else 0)
    && c.counts.resets == c.counts.resetsDone + (if c.resetting then 1 else 0)
    && c.counts.failed <= c.counts.completed
  }

  // No result is waiting to be taken.
  ghost predicate Settled(c: Controller) {
    Consistent(c) && c.notification.None? && c.resetNotification.None?
  }

  lemma StartConsistent(c: Controller, actions: seq<Action>, valid: bool, delay: nat, now: nat, armed: bool,
                        begin: Code)
    requires Settled(c)
    ensures Settled(Start(c, actions, valid, delay, now, armed, begin).0)
  {}

  lemma ResetConsistent(c: Controller, delay: nat, now: nat, armed: bool)
    requires Settled(c)
    ensures Settled(Reset(c, delay, now, armed).0)
  {}

  ghost predicate Honest(r: Result) {
    r.completed <= r.total && (r.status == Fine ==> r.completed == r.total)
  }

  // What ticks may do: a transfer ends with its own honest result, a reset with
  // its result, or the operation goes on and no result appears.
  ghost predicate Ticked(c: Controller, c1: Controller) {
    && Consistent(c1)
    && (if Transferring(c) && !c1.active then
          && c1.notification.Some? && c1.resetNotification == c.resetNotification
          && c1.notification.value.transfer == c.job.transfer && Honest(c1.notification.value)
          && c1.counts.completed == c.counts.completed + 1 && c1.counts.resetsDone == c.counts.resetsDone
        else if c.resetting && !c1.active then
          && c1.notification == c.notification && c1.resetNotification.Some?
          && c1.counts.completed == c.counts.completed && c1.counts.resetsDone == c.counts.resetsDone + 1
        else
          && c1.active == c.active && c1.resetting == c.resetting && c1.notification == c.notification
          && c1.resetNotification == c.resetNotification && c1.job.transfer == c.job.transfer
          && c1.counts == c.counts)
  }

  // ---- One tick ----

  lemma NextActionWorks(w: Job, e: Env)
    requires Working(w, HTransfer) && !w.started && w.status == Fine
    ensures var r := NextAction(w, e);
            Working(r.job, r.state) && r.state in {HTransfer, HPause, HFinish} && r.job.transfer == w.transfer
  {}

  lemma StepTransferWorks(w: Job, e: Env, deadline: nat)
    requires Working(w, HTransfer)
    ensures var r := StepTransfer(w, e, deadline);
            Working(r.job, r.state) && r.state in {HTransfer, HPause, HFinish} && r.job.transfer == w.transfer
  {
    hide NextAction;
    if !w.setupFailed && e.now < deadline {
      if !w.started {
        NextActionWorks(w, e);
      } else if e.poll == Some(Fine) {
        var action := w.actions[w.done];
        var retry := action.Transfer? && action.polls && !e.matched;
        if retry {
          var polls := if action.limit > 0 then w.polls + 1 else w.polls;
          NextActionWorks(w.(retry := true, polls := polls, started := false), e);
        } else {
          NextActionWorks(w.(retry := false, polls := 0, done := w.done + 1, started := false), e);
        }
      }
    }
  }

  lemma StepTicked(c: Controller, e: Env)
    requires Consistent(c)
    ensures Ticked(c, Step(c.(again := false), e))
  {
    hide StepTransfer;
    if c.state == HTransfer { StepTransferWorks(c.job, e, c.deadline); }
  }

  lemma TickedSelf(c: Controller)
    requires Consistent(c)
    ensures Ticked(c, c)
  {}

  lemma TickedChain(c: Controller, c1: Controller, c2: Controller)
    requires Consistent(c) && Ticked(c, c1) && Ticked(c1, c2) && (!c1.active ==> c2 == c1)
    ensures Ticked(c, c2)
  {
    hide Working, Honest;
  }

  lemma TickedConsistent(c: Controller, c1: Controller)
    requires Ticked(c, c1)
    ensures Consistent(c1)
  {}

  // Any number of ticks up to the first end.
  lemma {:induction false} TicksTicked(c: Controller, envs: seq<Env>, budget: nat)
    requires Consistent(c)
    ensures Ticked(c, Ticks(c, envs, budget))
    decreases budget
  {
    hide Step, Consistent, Ticked;
    TickedSelf(c);
    if budget > 0 && envs != [] && c.active {
      StepTicked(c, envs[0]);
      var c1 := Step(c.(again := false), envs[0]);
      if c1.again {
        TickedConsistent(c, c1);
        TicksTicked(c1, envs[1..], budget - 1);
        TickedChain(c, c1, Ticks(c1, envs[1..], budget - 1));
      }
    }
  }

  // ---- The deadline ----

  // How many ticks a late operation can still take.
  function LateTicks(c: Controller): nat {
    match c.state
    case HIdle | HFaulted => if c.resetting then 2 else 3
    case HTransfer | HPause => 2
    case HFinish | HReset => 1
  }

  lemma LateStep(c: Controller, e: Env)
    requires Consistent(c) && c.active && e.now >= c.deadline
    ensures var c1 := Step(c.(again := false), e);
            && c1.deadline == c.deadline
            && (c1.active ==> c1.again && LateTicks(c1) < LateTicks(c))
  {}

  /** An interrupt that takes the lock at or after the deadline ends the operation,
      whatever the backend does. */
  lemma {:induction false} DeadlineEnds(c: Controller, envs: seq<Env>, budget: nat)
    requires Consistent(c) && LateTicks(c) <= budget <= |envs|
    requires forall i :: 0 <= i < |envs| ==> envs[i].now >= c.deadline
    ensures !Ticks(c, envs, budget).active
    decreases budget
  {
    hide Step, Consistent;
    if c.active {
      LateStep(c, envs[0]);
      StepTicked(c, envs[0]);
      var c1 := Step(c.(again := false), envs[0]);
      TickedConsistent(c, c1);
      if c1.active {
        DeadlineEnds(c1, envs[1..], budget - 1);
      }
    }
  }

  /** The same for a whole interrupt: eight ticks are always enough. */
  lemma InterruptMeetsDeadline(c: Controller, envs: seq<Env>)
    requires Settled(c) && |envs| >= BUDGET && forall i :: 0 <= i < |envs| ==> envs[i].now >= c.deadline
    ensures var r := Serve(c, envs);
            && !r.c.active && (Transferring(c) ==> r.result.Some?) && (c.resetting ==> r.reset.Some?)
  {
    DeadlineEnds(c, envs, BUDGET);
    TicksTicked(c, envs, BUDGET);
  }

  // ---- Exactly one callback for each transfer ----

  // How often a transfer's result occurs.
  function Count(rs: seq<Result>, transfer: nat): nat {
    if rs == [] then 0 else (if rs[0].transfer == transfer then 1 else 0) + Count(rs[1..], transfer)
  }

  lemma {:induction false} CountConcat(a: seq<Result>, b: seq<Result>, transfer: nat)
    ensures Count(a + b, transfer) == Count(a, transfer) + Count(b, transfer)
  {
    if a == [] {
      assert a + b == b;
    } else {
      CountConcat(a[1..], b, transfer);
      assert (a + b)[1..] == a[1..] + b;
    }
  }

  lemma CountOne(r: Result, transfer: nat)
    ensures Count([r], transfer) == if r.transfer == transfer then 1 else 0
  {
    assert Count([r][1..], transfer) == 0;
  }

  lemma CountRemoved(rs: seq<Result>, k: nat, transfer: nat)
    requires k < |rs|
    ensures Count(rs[..k] + rs[k + 1..], transfer)
            == Count(rs, transfer) - (if rs[k].transfer == transfer then 1 else 0)
  {
    assert rs == rs[..k] + ([rs[k]] + rs[k + 1..]);
    CountConcat(rs[..k], [rs[k]] + rs[k + 1..], transfer);
    CountConcat([rs[k]], rs[k + 1..], transfer);
    CountConcat(rs[..k], rs[k + 1..], transfer);
    CountOne(rs[k], transfer);
  }

  // Each finished transfer has one result, in hand or delivered; no other has any.
  ghost predicate Delivered(inHand: seq<Result>, delivered: seq<Result>, completed: nat) {
    && (forall t: nat :: Count(inHand, t) + Count(delivered, t) == if t < completed then 1 else 0)
    && (forall i :: 0 <= i < |inHand| ==> Honest(inHand[i]))
    && (forall i :: 0 <= i < |delivered| ==> Honest(delivered[i]))
  }

  ghost predicate Inv(s: System) {
    && Settled(s.c) && Delivered(s.inHand, s.delivered, s.c.counts.completed)
    && s.c.counts.resetsDone == s.resetsInHand + s.resetsDelivered
  }

  lemma TakenInHand(inHand: seq<Result>, delivered: seq<Result>, r: Result)
    requires Delivered(inHand, delivered, r.transfer) && Honest(r)
    ensures Delivered(inHand + [r], delivered, r.transfer + 1)
  {
    hide Honest;
    forall t: nat ensures Count(inHand + [r], t) + Count(delivered, t) == if t < r.transfer + 1 then 1 else 0 {
      CountConcat(inHand, [r], t);
      CountOne(r, t);
    }
  }

  lemma HandedOver(inHand: seq<Result>, delivered: seq<Result>, completed: nat, k: nat)
    requires Delivered(inHand, delivered, completed) && k < |inHand|
    ensures Delivered(inHand[..k] + inHand[k + 1..], delivered + [inHand[k]], completed)
  {
    hide Honest;
    var rest := inHand[..k] + inHand[k + 1..];
    forall t: nat ensures Count(rest, t) + Count(delivered + [inHand[k]], t) == if t < completed then 1 else 0 {
      CountRemoved(inHand, k, t);
      CountConcat(delivered, [inHand[k]], t);
      CountOne(inHand[k], t);
    }
  }

  lemma ServeInv(s: System, envs: seq<Env>)
    requires Inv(s)
    ensures Inv(Perform(s, Interrupts(envs)))
  {
    hide Delivered, Ticks, Working;
    TicksTicked(s.c, envs, BUDGET);
    var c1 := Ticks(s.c, envs, BUDGET);
    if c1.notification.Some? {
      TakenInHand(s.inHand, s.delivered, c1.notification.value);
    }
  }

  /** Every action of every context keeps the invariant. */
  lemma PerformInv(s: System, a: Act)
    requires Inv(s)
    ensures Inv(Perform(s, a))
  {
    hide Delivered, Serve, Working;
    match a {
      case Starts(actions, valid, delay, now, armed, begin) =>
        StartConsistent(s.c, actions, valid, delay, now, armed, begin);
      case StartsLocked =>
      case Resets(delay, now, armed) => ResetConsistent(s.c, delay, now, armed);
      case Interrupts(envs) => ServeInv(s, envs);
      case InterruptsLocked =>
      case Delivers(k) =>
        if k < |s.inHand| { HandedOver(s.inHand, s.delivered, s.c.counts.completed, k); }
      case DeliversReset =>
    }
  }

  lemma {:induction false} RunInv(s: System, acts: seq<Act>)
    requires Inv(s)
    ensures Inv(Run(s, acts))
    decreases |acts|
  {
    hide Inv, Perform;
    if acts != [] {
      PerformInv(s, acts[0]);
      RunInv(Perform(s, acts[0]), acts[1..]);
    }
  }

  const FRESH: Controller :=
    Controller(HIdle, false, false, false, 0, false, false, Job(0, [], 0, Fine, false, false, false, 0, 0),
               Counts(0, 0, 0, 0, 0, 0, 0), None, None)

  /** Under every interleaving of starts, resets, interrupts and deliveries: accepted
      transfers are the completed ones and the active one; each completed transfer's
      callback is invoked exactly once or is in hand to be; every result that says
      ok completed all its actions; resets are treated alike. */
  lemma ExactlyOnce(needsReset: bool, acts: seq<Act>)
    ensures var r := Run(System(FRESH.(faulted := needsReset), [], [], 0, 0), acts);
            && r.c.counts.accepted == r.c.counts.completed + (if r.c.active && !r.c.resetting then 1 else 0)
            && (forall t: nat ::
                  Count(r.inHand, t) + Count(r.delivered, t) == if t < r.c.counts.completed then 1 else 0)
            && (forall i :: 0 <= i < |r.delivered| ==>
                  r.delivered[i].status == Fine ==> r.delivered[i].completed == r.delivered[i].total)
            && r.c.counts.resets == r.resetsInHand + r.resetsDelivered + (if r.c.resetting then 1 else 0)
  {
    hide Run, Inv, Count;
    var s := System(FRESH.(faulted := needsReset), [], [], 0, 0);
    FreshInv(needsReset);
    RunInv(s, acts);
    InvFacts(Run(s, acts));
  }

  lemma FreshInv(needsReset: bool)
    ensures Inv(System(FRESH.(faulted := needsReset), [], [], 0, 0))
  {}

  lemma InvFacts(s: System)
    requires Inv(s)
    ensures s.c.counts.accepted == s.c.counts.completed + (if s.c.active && !s.c.resetting then 1 else 0)
    ensures s.c.counts.resets == s.resetsInHand + s.resetsDelivered + (if s.c.resetting then 1 else 0)
    ensures Delivered(s.inHand, s.delivered, s.c.counts.completed)
  {}
}
