/** The transfer controller as the object it is. */
module HalMachine {
  import opened Record
  import Clock
  import H = HalSpec
  import S = HalSafety

  class Controller {
    var state: H.State
    var active: bool
    var resetting: bool
    var resetStarted: bool
    var deadline: nat
    var faulted: bool
    var again: bool
    var job: H.Job
    var counts: H.Counts
    var notification: Option<H.Result>
    var resetNotification: Option<H.Code>

    function Model(): H.Controller
      reads this
    {
      H.Controller(state, active, resetting, resetStarted, deadline, faulted, again, job, counts, notification,
                   resetNotification)
    }

    constructor (needsReset: bool)
      ensures Model() == S.FRESH.(faulted := needsReset)
    {
      state, active, resetting, resetStarted, deadline := H.HIdle, false, false, false, 0;
      faulted, again := needsReset, false;
      job := H.Job(0, [], 0, H.Fine, false, false, false, 0, 0);
      counts := H.Counts(0, 0, 0, 0, 0, 0, 0);
      notification, resetNotification := None, None;
    }

    // Accept a validated transfer, or count its rejection.
    method Start(actions: seq<H.Action>, valid: bool, delay: nat, now: nat, armed: bool, begin: H.Code)
      returns (ok: bool)
      modifies this
      ensures (Model(), ok) == H.Start(old(Model()), actions, valid, delay, now, armed, begin)
    {
      var due := Clock.Add(now, delay);
      if active || faulted || !valid || actions == [] || due.None? || !armed {
        counts := counts.(rejected := counts.rejected + 1);
        return false;
      }
      deadline := due.value;
      job := H.Job(counts.accepted, actions, 0, begin, false, begin != H.Fine, false, 0, 0);
      resetting := false;
      active := true;
      counts := counts.(accepted := counts.accepted + 1);
      return true;
    }

    method Reset(delay: nat, now: nat, armed: bool) returns (ok: bool)
      modifies this
      ensures (Model(), ok) == H.Reset(old(Model()), delay, now, armed)
    {
      var due := Clock.Add(now, delay);
      if active || due.None? || !armed {
        return false;
      }
      deadline := due.value;
      resetStarted := false;
      resetting := true;
      active := true;
      counts := counts.(resets := counts.resets + 1);
      return true;
    }

    // Count a transfer that ends with a status.
    method Count(status: H.Code)
      modifies this`counts
      ensures var c := old(counts);
              counts == c.(completed := c.completed + 1,
                           failed := if status != H.Fine then c.failed + 1 else c.failed,
                           timedOut := if status == H.Late then c.timedOut + 1 else c.timedOut)
    {
      counts := counts.(completed := counts.completed + 1);
      if status != H.Fine {
        counts := counts.(failed := counts.failed + 1);
      }
      if status == H.Late {
        counts := counts.(timedOut := counts.timedOut + 1);
      }
    }

    method Finish(e: H.Env)
      modifies this`faulted, this`counts, this`notification, this`job, this`active, this`state
      ensures Model() == H.StepFinish(old(Model()), e)
    {
      var status := job.status;
      if e.cleanup != H.Fine && status == H.Fine {
        status := H.HardwareError;
      }
      faulted := e.cleanup != H.Fine;
      Count(status);
      notification := Some(H.Result(job.transfer, status, job.done, |job.actions|));
      job := job.(status := status, actions := []);
      active := false;
      state := if e.cleanup == H.Fine then H.HIdle else H.HFaulted;
    }

    // End the transfer with a status.
    method Stop(status: H.Code)
      modifies this`job, this`state, this`again
      ensures H.Worked(job, state, again) == H.Finishing(old(job), status)
    {
      job := job.(status := status);
      state := H.HFinish;
      again := true;
    }

    // Begin the action at the place reached.
    method Advance(e: H.Env)
      requires state == H.HTransfer && !again
      modifies this`job, this`state, this`again
      ensures H.Worked(job, state, again) == H.NextAction(old(job), e)
    {
      if job.done >= |job.actions| {
        state := H.HFinish;
        again := true;
        return;
      }
      match job.actions[job.done] {
        case Check =>
          if e.checked {
            job := job.(done := job.done + 1);
            again := true;
          } else {
            Stop(H.Mismatch);
          }
        case Pause(span) =>
          var due := Clock.Add(e.now, span);
          if due.None? || !e.armed {
            Stop(H.TimerError);
          } else {
            job := job.(pauseDue := due.value);
            state := H.HPause;
          }
        case Transfer(_, _) =>
          job := job.(started := true);
          if e.startCode != H.Fine {
            Stop(e.startCode);
          }
      }
    }

    // The action in progress has finished well: a poll without a match is repeated, up
    // to its limit. Says whether the transfer goes on.
    method Complete(e: H.Env) returns (more: bool)
      requires job.done < |job.actions|
      modifies this`job
      ensures var action := old(job).actions[old(job).done];
              var retry := action.Transfer? && action.polls && !e.matched;
              && (more <==> !(retry && action.limit > 0 && old(job).polls + 1 >= action.limit))
              && (!more ==> job == old(job).(retry := true, polls := old(job).polls + 1))
              && (more && retry ==>
                    job == old(job).(retry := true, started := false,
                                     polls := if action.limit > 0 then old(job).polls + 1 else old(job).polls))
              && (more && !retry ==>
                  job == old(job).(retry := false, polls := 0, done := old(job).done + 1, started := false))
    {
      var action := job.actions[job.done];
      job := job.(retry := action.Transfer? && action.polls && !e.matched);
      if job.retry && action.limit > 0 {
        job := job.(polls := job.polls + 1);
        if job.polls >= action.limit {
          return false;
        }
      }
      if !job.retry {
        job := job.(polls := 0, done := job.done + 1);
      }
      job := job.(started := false);
      return true;
    }

    method Transfer(e: H.Env)
      requires state == H.HTransfer && !again
      modifies this`job, this`state, this`again
      ensures H.Worked(job, state, again) == H.StepTransfer(old(job), e, deadline)
    {
      hide H.NextAction;
      if job.setupFailed {
        job := job.(setupFailed := false);
        state := H.HFinish;
        again := true;
        return;
      }
      if e.now >= deadline {
        Stop(H.Late);
        return;
      }
      if job.started {
        if e.poll.None? {
          return;
        }
        if e.poll.value != H.Fine {
          Stop(e.poll.value);
          return;
        }
        if job.done >= |job.actions| {
          job := job.(started := false);
        } else {
          var more := Complete(e);
          if !more {
            Stop(H.Mismatch);
            return;
          }
        }
      }
      Advance(e);
    }

    method WaitPause(e: H.Env)
      requires state == H.HPause && !again
      modifies this`job, this`state, this`again
      ensures H.Worked(job, state, again) == H.StepPause(old(job), e, deadline)
    {
      if e.now >= deadline {
        Stop(H.Late);
      } else if e.now >= job.pauseDue {
        job := job.(done := job.done + 1);
        state := H.HTransfer;
        again := true;
      }
    }

    method PollReset(e: H.Env)
      modifies this
      ensures Model() == H.StepReset(old(Model()), e)
    {
      var result := H.ResetResult(Model(), e);
      resetStarted := true;
      if result.None? {
        return;
      }
      faulted := result.value != H.Fine;
      resetNotification := result;
      resetting := false;
      active := false;
      counts := counts.(resetsDone := counts.resetsDone + 1);
      state := if result.value == H.Fine then H.HIdle else H.HFaulted;
    }

    method Step(e: H.Env)
      requires !again
      modifies this
      ensures Model() == H.Step(old(Model()), e)
    {
      hide H.StepTransfer, H.StepPause, H.StepFinish, H.StepReset;
      match state {
        case HIdle | HFaulted =>
          if resetting {
            state := H.HReset;
            again := true;
          } else if active {
            state := H.HTransfer;
            again := true;
          }
        case HTransfer => Transfer(e);
        case HPause => WaitPause(e);
        case HFinish => Finish(e);
        case HReset => PollReset(e);
      }
    }

    /** The locked part of an interrupt: a bounded number of ticks, then the
        notifications are taken away, to be delivered without the lock. */
    method Interrupt(envs: seq<H.Env>) returns (result: Option<H.Result>, reset: Option<H.Code>)
      modifies this
      ensures H.Served(Model(), result, reset) == H.Serve(old(Model()), envs)
    {
      hide H.Step;
      var i := 0;
      while i < H.BUDGET && i < |envs| && active
        invariant 0 <= i <= H.BUDGET && i <= |envs|
        invariant H.Ticks(Model(), envs[i..], H.BUDGET - i) == H.Ticks(old(Model()), envs, H.BUDGET)
      {
        again := false;
        Step(envs[i]);
        assert envs[i..][0] == envs[i] && envs[i..][1..] == envs[i + 1..];
        i := i + 1;
        if !again {
          break;
        }
      }
      result, reset := notification, resetNotification;
      notification, resetNotification := None, None;
    }
  }
}
