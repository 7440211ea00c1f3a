/** The bus transfer controller of lib/hal/controller.hpp on values: one function
    per locked section, with the backend, the clock and the timer as events. */
module HalSpec {
  import opened Clock
  import opened Record

  // Statuses; the backend can report anything.
  datatype Code = Fine | Late | Mismatch | TimerError | HardwareError | Other(code: nat)

  // What an action needs from the machine. A polling transfer repeats until it
  // matches, at most `limit` times when that is positive.
  datatype Action = Transfer(polls: bool, limit: nat) | Check | Pause(span: nat)

  datatype State = HIdle | HTransfer | HPause | HFinish | HReset | HFaulted

  datatype Result = Result(transfer: nat, status: Code, completed: nat, total: nat)

  // The transfer at work; setupFailed says that the backend could not begin it.
  datatype Job = Job(transfer: nat, actions: seq<Action>, done: nat, status: Code, started: bool, setupFailed: bool,
                     retry: bool, polls: nat, pauseDue: nat)

  // Transfers are numbered by acceptance.
  datatype Counts = Counts(accepted: nat, completed: nat, failed: nat, timedOut: nat, rejected: nat, resets: nat,
                           resetsDone: nat)

  datatype Controller = Controller(state: State, active: bool, resetting: bool, resetStarted: bool, deadline: nat,
                                   faulted: bool, again: bool, job: Job, counts: Counts,
                                   notification: Option<Result>, resetNotification: Option<Code>)

  // What one tick meets: the clock, the backend's answers, whether a poll
  // matched, whether a check passed, and whether the timer could be armed.
  datatype Env = Env(now: nat, poll: Option<Code>, matched: bool, checked: bool, startCode: Code, armed: bool,
                     cleanup: Code, reset: Option<Code>)

  const RESET_POLL: nat := 10

  // ---- Locked sections ----

  // A validated request: arm the deadline, accept, and let the backend begin.
  function Start(c: Controller, actions: seq<Action>, valid: bool, delay: nat, now: nat, armed: bool,
                 begin: Code): (r: (Controller, bool))
  {
    var deadline := Add(now, delay);
    if c.active || c.faulted || !valid || actions == [] || deadline.None? || !armed then
      (c.(counts := c.counts.(rejected := c.counts.rejected + 1)), false)
    else
      (c.(deadline := deadline.value, resetting := false, active := true,
          job := Job(c.counts.accepted, actions, 0, begin, false, begin != Fine, false, 0, 0),
          counts := c.counts.(accepted := c.counts.accepted + 1)), true)
  }

  function Reset(c: Controller, delay: nat, now: nat, armed: bool): (r: (Controller, bool)) {
    var deadline := Add(now, delay);
    if c.active || deadline.None? || !armed then (c, false)
    else
      (c.(deadline := deadline.value, resetStarted := false, resetting := true, active := true,
          counts := c.counts.(resets := c.counts.resets + 1)), true)
  }

  // A step of the job: its new state, where the machine goes, and whether there
  // is more to do at once.
  datatype Worked = Worked(job: Job, state: State, again: bool)

  function Finishing(w: Job, status: Code): Worked { Worked(w.(status := status), HFinish, true) }

  // The action at `done`, once nothing is in progress.
  function NextAction(w: Job, e: Env): Worked {
    if w.done >= |w.actions| then Worked(w, HFinish, true)
    else match w.actions[w.done]
      case Check => if e.checked then Worked(w.(done := w.done + 1), HTransfer, true) else Finishing(w, Mismatch)
      case Pause(span) =>
        var due := Add(e.now, span);
        if due.None? || !e.armed then Finishing(w, TimerError) else Worked(w.(pauseDue := due.value), HPause, false)
      case Transfer(polls, limit) =>
        if e.startCode != Fine then Finishing(w.(started := true), e.startCode)
          else Worked(w.(started := true), HTransfer, false)
  }

  function StepTransfer(w: Job, e: Env, deadline: nat): Worked {
    if w.setupFailed then Worked(w.(setupFailed := false), HFinish, true)
    else if e.now >= deadline then Finishing(w, Late)
    else if !w.started then NextAction(w, e)
    else if e.poll.None? then Worked(w, HTransfer, false)
    else if e.poll.value != Fine then Finishing(w, e.poll.value)
    else if w.done >= |w.actions| then NextAction(w.(started := false), e)
    else
      var action := w.actions[w.done];
      var retry := action.Transfer? && action.polls && !e.matched;
      if retry && action.limit > 0 && w.polls + 1 >= action.limit
        then Finishing(w.(retry := true, polls := w.polls + 1), Mismatch)
      else if retry then
        NextAction(w.(retry := true, polls := if action.limit > 0 then w.polls + 1 else w.polls, started := false), e)
      else NextAction(w.(retry := false, polls := 0, done := w.done + 1, started := false), e)
  }

  function StepPause(w: Job, e: Env, deadline: nat): Worked {
    if e.now >= deadline then Finishing(w, Late)
    else if e.now >= w.pauseDue then Worked(w.(done := w.done + 1), HTransfer, true)
    else Worked(w, HPause, false)
  }

  function StepFinish(c: Controller, e: Env): Controller {
    var status := if e.cleanup != Fine && c.job.status == Fine then HardwareError else c.job.status;
    c.(faulted := e.cleanup != Fine, active := false, job := c.job.(status := status, actions := []),
       counts := c.counts.(completed := c.counts.completed + 1,
                           failed := if status != Fine then c.counts.failed + 1 else c.counts.failed,
                           timedOut := if status == Late then c.counts.timedOut + 1 else c.counts.timedOut),
       notification := Some(Result(c.job.transfer, status, c.job.done, |c.job.actions|)),
       state := if e.cleanup == Fine then HIdle else HFaulted)
  }

  function ResetResult(c: Controller, e: Env): Option<Code> {
    if e.now >= c.deadline then Some(Late)
    else if e.reset.Some? then e.reset
    else if Add(e.now, RESET_POLL).None? || !e.armed then Some(TimerError)
    else None
  }

  function StepReset(c: Controller, e: Env): Controller {
    var result := ResetResult(c, e);
    if result.None? then c.(resetStarted := true)
    else
      c.(resetStarted := true, faulted := result.value != Fine, resetNotification := result, resetting := false,
         active := false, counts := c.counts.(resetsDone := c.counts.resetsDone + 1),
         state := if result.value == Fine then HIdle else HFaulted)
  }

  function Continue(c: Controller, w: Worked): Controller { c.(job := w.job, state := w.state, again := w.again) }

  function Step(c: Controller, e: Env): Controller {
    match c.state
    case HIdle | HFaulted =>
      if c.resetting then c.(state := HReset, again := true)
      else if c.active then c.(state := HTransfer, again := true)
      else c
    case HTransfer => Continue(c, StepTransfer(c.job, e, c.deadline))
    case HPause => Continue(c, StepPause(c.job, e, c.deadline))
    case HFinish => StepFinish(c, e)
    case HReset => StepReset(c, e)
  }

  // Up to `budget` ticks while there is more to do at once.
  function Ticks(c: Controller, envs: seq<Env>, budget: nat): Controller
    decreases budget
  {
    if budget == 0 || envs == [] || !c.active then c
    else
      var c1 := Step(c.(again := false), envs[0]);
      if c1.again then Ticks(c1, envs[1..], budget - 1) else c1
  }

  const BUDGET: nat := 8

  datatype Served = Served(c: Controller, result: Option<Result>, reset: Option<Code>)

  // The locked part of interrupt(): tick, then take the notifications away.
  function Serve(c: Controller, envs: seq<Env>): Served {
    var c1 := Ticks(c, envs, BUDGET);
    Served(c1.(notification := None, resetNotification := None), c1.notification, c1.resetNotification)
  }

  // ---- Runs ----

  // inHand are results of served interrupts whose callbacks are still to be
  // invoked; delivered are those invoked. Contexts interleave between sections.
  datatype System = System(c: Controller, inHand: seq<Result>, delivered: seq<Result>, resetsDelivered: nat,
                           resetsInHand: nat)

  // A call that finds the lock taken does nothing but count a rejection, and an
  // interrupt that does is pended.
  datatype Act = Starts(actions: seq<Action>, valid: bool, delay: nat, now: nat, armed: bool, begin: Code)
               | StartsLocked | Resets(delay: nat, now: nat, armed: bool)
               | Interrupts(envs: seq<Env>) | InterruptsLocked | Delivers(k: nat) | DeliversReset

  function Perform(s: System, a: Act): System {
    match a
    case Starts(actions, valid, delay, now, armed, begin) =>
      s.(c := Start(s.c, actions, valid, delay, now, armed, begin).0)
    case StartsLocked => s.(c := s.c.(counts := s.c.counts.(rejected := s.c.counts.rejected + 1)))
    case Resets(delay, now, armed) => s.(c := Reset(s.c, delay, now, armed).0)
    case Interrupts(envs) =>
      var r := Serve(s.c, envs);
      s.(c := r.c, inHand := if r.result.Some? then s.inHand + [r.result.value] else s.inHand,
         resetsInHand := if r.reset.Some? then s.resetsInHand + 1 else s.resetsInHand)
    case InterruptsLocked => s
    case Delivers(k) =>
      if k >= |s.inHand| then s
      else s.(inHand := s.inHand[..k] + s.inHand[k + 1..], delivered := s.delivered + [s.inHand[k]])
    case DeliversReset =>
      if s.resetsInHand == 0 then s
      else s.(resetsInHand := s.resetsInHand - 1, resetsDelivered := s.resetsDelivered + 1)
  }

  function Run(s: System, acts: seq<Act>): System
    decreases |acts|
  {
    if acts == [] then s else Run(Perform(s, acts[0]), acts[1..])
  }
}
