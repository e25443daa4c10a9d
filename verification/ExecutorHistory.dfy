/** What the state of an executor owes to the steps that led to it: order of service, cancellations, outcomes. */
module ExecutorHistory {
  import opened Sequences
  import opened Executor
  import opened ExecutorLaws

  // ---------- first in, first out ----------

  /** The task that this step submits, if it does. */
  function SubmittedIn(step: Step): seq<TaskId> {
    if step.SubmitPut? then [step.t] else []
  }

  /** The tasks that the first `k` steps submit, in order. */
  function Submitted(steps: seq<Step>, k: nat): seq<TaskId>
    requires k <= |steps|
  {
    if k == 0 then [] else Submitted(steps, k - 1) + SubmittedIn(steps[k - 1])
  }

  /** After this step its worker has `t` in hand, and before it the worker was waiting for a task. */
  predicate Takes(s: State, step: Step, s': State, t: TaskId) {
    IsWorkerStep(step) && In(s, step.w, Polling) && In(s', step.w, Holding(t))
  }

  /** The task that a worker takes in this step, if one does. */
  function TakenIn(s: State, step: Step, s': State): (taken: seq<TaskId>)
    ensures forall t: TaskId :: Takes(s, step, s', t) <==> taken == [t]
    ensures |taken| <= 1
  {
    if IsWorkerStep(step) && In(s, step.w, Polling) && step.w in s'.workers && s'.workers[step.w].Holding?
    then [s'.workers[step.w].task]
    else []
  }

  /** The tasks that workers take in the first `k` steps, in order. */
  function Taken(states: seq<State>, steps: seq<Step>, k: nat): seq<TaskId>
    requires k <= |steps| < |states|
  {
    if k == 0 then [] else Taken(states, steps, k - 1) + TakenIn(states[k - 1], steps[k - 1], states[k])
  }

  lemma QueueStep(s: State, step: Step)
    requires Enabled(s, step)
    ensures TakenIn(s, step, Apply(s, step)) + Apply(s, step).queue == s.queue + SubmittedIn(step)
  {
  }

  /** Tasks are taken in the order they were submitted: those taken, then those queued, are those submitted. */
  lemma {:induction false} FirstInFirstOut(states: seq<State>, steps: seq<Step>, k: nat)
    requires IsRun(states, steps) && k <= |steps|
    ensures Taken(states, steps, k) + states[k].queue == Submitted(steps, k)
  {
    hide Enabled, Apply, TakenIn, SubmittedIn;
    if k > 0 {
      FirstInFirstOut(states, steps, k - 1);
      QueueStep(states[k - 1], steps[k - 1]);
      calc {
        Taken(states, steps, k) + states[k].queue;
        Taken(states, steps, k - 1) + (TakenIn(states[k - 1], steps[k - 1], states[k]) + states[k].queue);
        Taken(states, steps, k - 1) + (states[k - 1].queue + SubmittedIn(steps[k - 1]));
        Submitted(steps, k);
      }
    }
  }

  lemma {:induction false} SubmittedGrows(steps: seq<Step>, h: nat, k: nat)
    requires h <= k <= |steps|
    ensures Submitted(steps, h) <= Submitted(steps, k)
  {
    if h < k {
      SubmittedGrows(steps, h, k - 1);
    }
  }

  lemma NewFutureExactly(s: State, step: Step, t: TaskId)
    requires Enabled(s, step)
    ensures t in Apply(s, step).futures <==> t in s.futures || step == SubmitPut(t)
    ensures step == SubmitPut(t) ==> t !in s.futures && Apply(s, step).futures[t].Pending?
  {
  }

  /** The accepted tasks are the submitted ones. */
  lemma {:induction false} AcceptedExactly(states: seq<State>, steps: seq<Step>, k: nat, t: TaskId)
    requires IsRun(states, steps) && k <= |steps|
    ensures t in states[k].futures <==> t in Submitted(steps, k)
  {
    hide Enabled, Apply;
    if k > 0 {
      AcceptedExactly(states, steps, k - 1, t);
      NewFutureExactly(states[k - 1], steps[k - 1], t);
    }
  }

  /** No task is submitted twice. */
  lemma {:induction false} SubmittedOnce(states: seq<State>, steps: seq<Step>, k: nat)
    requires IsRun(states, steps) && k <= |steps|
    ensures NoRepeats(Submitted(steps, k))
  {
    hide Enabled, Apply;
    if k > 0 {
      SubmittedOnce(states, steps, k - 1);
      if steps[k - 1].SubmitPut? {
        var t := steps[k - 1].t;
        NewFutureExactly(states[k - 1], steps[k - 1], t);
        AcceptedExactly(states, steps, k - 1, t);
        var before := Submitted(steps, k - 1);
        assert forall i :: 0 <= i < |before| ==> before[i] != t;
      }
    }
  }

  lemma {:induction false} TakenWasTaken(states: seq<State>, steps: seq<Step>, k: nat, t: TaskId)
    requires k <= |steps| < |states| && t in Taken(states, steps, k)
    ensures exists m :: 0 <= m < k && Takes(states[m], steps[m], states[m + 1], t)
  {
    hide Takes;
    if t in Taken(states, steps, k - 1) {
      TakenWasTaken(states, steps, k - 1, t);
    } else {
      assert TakenIn(states[k - 1], steps[k - 1], states[k]) == [t];
    }
  }

  /** Where a task stands in the order of submission, at the latest step and at every later one. */
  lemma StandsAt(steps: seq<Step>, h: nat, k: nat)
    requires h < k <= |steps| && steps[h].SubmitPut?
    ensures |Submitted(steps, h)| < |Submitted(steps, k)| && Submitted(steps, k)[|Submitted(steps, h)|] == steps[h].t
  {
    SubmittedGrows(steps, h + 1, k);
  }

  /** A task taken in step `j` stands behind those taken before. */
  lemma TakenStandsAt(states: seq<State>, steps: seq<Step>, j: nat, u: TaskId)
    requires IsRun(states, steps) && j < |steps| && Takes(states[j], steps[j], states[j + 1], u)
    ensures Taken(states, steps, j) + [u] <= Submitted(steps, |steps|)
  {
    hide Takes, Enabled, Apply;
    FirstInFirstOut(states, steps, j + 1);
    SubmittedGrows(steps, j + 1, |steps|);
  }

  /** Of two submitted tasks the later one is not taken before the earlier one. */
  lemma EarlierIsTakenEarlier(states: seq<State>, steps: seq<Step>, h: nat, i: nat, j: nat, t: TaskId, u: TaskId)
    requires IsRun(states, steps) && h < i < |steps| && steps[h] == SubmitPut(t) && steps[i] == SubmitPut(u)
    requires j < |steps| && Takes(states[j], steps[j], states[j + 1], u)
    ensures exists m :: 0 <= m < j && Takes(states[m], steps[m], states[m + 1], t)
  {
    hide Takes, Enabled, Apply, Submitted, Taken;
    SubmittedOnce(states, steps, |steps|);
    StandsAt(steps, h, i);
    StandsAt(steps, h, |steps|);
    StandsAt(steps, i, |steps|);
    TakenStandsAt(states, steps, j, u);
    var all, before := Submitted(steps, |steps|), Taken(states, steps, j);
    assert all[|before|] == (before + [u])[|before|] == u;
    assert before[|Submitted(steps, h)|] == t;
    TakenWasTaken(states, steps, j, t);
  }

  // ---------- what becomes of a future ----------

  predicate IsCancelled(f: Future) {
    f.Cancelled? || f.CancelledAndNotified?
  }

  /** A cancellation that comes in time. */
  predicate CancelsInTime(s: State, step: Step, t: TaskId) {
    step == Cancel(t) && t in s.futures && s.futures[t].Pending?
  }

  /** The function of `t` ends with this outcome. */
  predicate EndsWith(s: State, step: Step, t: TaskId, outcome: Outcome) {
    step.Settle? && In(s, step.w, Calling(t)) && step.outcome == outcome
  }

  lemma FutureStepExactly(s: State, step: Step, t: TaskId)
    requires Inv(s) && Enabled(s, step) && t in Apply(s, step).futures
    ensures var s' := Apply(s, step);
      && (IsCancelled(s'.futures[t]) <==> (t in s.futures && IsCancelled(s.futures[t])) || CancelsInTime(s, step, t))
      && (forall o :: s'.futures[t] == Finished(o) <==>
           (t in s.futures && s.futures[t] == Finished(o)) || EndsWith(s, step, t, o))
  {
    hide QueueOk, FuturesOk, CallsOk, ThreadsOk, CounterOk;
    if step.Claim? || step.Settle? {
      assert Holds(s, step.w, s.workers[step.w].task);
    }
  }

  /** A future is cancelled if and only if somebody cancelled it while it was pending. */
  lemma {:induction false} CancelledExactly(states: seq<State>, steps: seq<Step>, k: nat, t: TaskId)
    requires IsRun(states, steps) && k < |states| && t in states[k].futures
    ensures IsCancelled(states[k].futures[t]) <==> exists i :: 0 <= i < k && CancelsInTime(states[i], steps[i], t)
  {
    hide Inv, Enabled, Apply, IsCancelled, EndsWith;
    if k > 0 {
      RunInv(states, steps, k - 1);
      FutureStepExactly(states[k - 1], steps[k - 1], t);
      if t in states[k - 1].futures {
        CancelledExactly(states, steps, k - 1, t);
      } else {
        NeverBefore(states, steps, k - 1, t);
      }
    }
  }

  lemma {:induction false} NeverBefore(states: seq<State>, steps: seq<Step>, k: nat, t: TaskId)
    requires IsRun(states, steps) && k < |states| && t !in states[k].futures
    ensures forall i :: 0 <= i < k ==> t !in states[i].futures
  {
    hide Enabled, Apply;
    if k > 0 {
      NewFutureExactly(states[k - 1], steps[k - 1], t);
      NeverBefore(states, steps, k - 1, t);
    }
  }

  lemma NobodyCallsUnknown(s: State, step: Step, t: TaskId, outcome: Outcome)
    requires Inv(s) && EndsWith(s, step, t, outcome)
    ensures t in s.futures
  {
    assert Holds(s, step.w, t);
  }

  /** A future has an outcome if and only if a worker's call of its function ended with that outcome. */
  lemma {:induction false} OutcomeExactly(states: seq<State>, steps: seq<Step>, k: nat, t: TaskId, outcome: Outcome)
    requires IsRun(states, steps) && k < |states| && t in states[k].futures
    ensures states[k].futures[t] == Finished(outcome) <==>
      exists i :: 0 <= i < k && EndsWith(states[i], steps[i], t, outcome)
  {
    hide Inv, Enabled, Apply, IsCancelled, EndsWith, CancelsInTime;
    if k > 0 {
      RunInv(states, steps, k - 1);
      FutureStepExactly(states[k - 1], steps[k - 1], t);
      if t in states[k - 1].futures {
        OutcomeExactly(states, steps, k - 1, t, outcome);
      } else {
        NeverBefore(states, steps, k - 1, t);
        forall i | 0 <= i < k - 1 && EndsWith(states[i], steps[i], t, outcome)
          ensures false
        {
          RunInv(states, steps, i);
          NobodyCallsUnknown(states[i], steps[i], t, outcome);
        }
      }
    }
  }
}
