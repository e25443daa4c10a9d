/** That a task can really be stranded, with any number of workers, and that nothing helps it afterwards. */
module Stranding {
  import opened Executor
  import opened ExecutorLaws

  // ---------- for ever ----------

  lemma StrandedStep(s: State, step: Step)
    requires Inv(s) && Stranded(s) && Enabled(s, step)
    ensures var s' := Apply(s, step); Stranded(s') && s'.queue == s.queue && s'.unfinished == s.unfinished
  {
  }

  /** Whatever is done after that, the same tasks stay queued, none settles, and `join` never returns. */
  lemma {:induction false} StrandedForever(states: seq<State>, steps: seq<Step>, i: nat)
    requires IsTrace(states, steps) && Inv(states[0]) && Stranded(states[0]) && i < |states|
    ensures Stranded(states[i]) && states[i].queue == states[0].queue && states[i].unfinished > 0
    ensures forall t :: t in states[0].queue ==> t in states[i].futures && !IsTerminal(states[i].futures[t])
  {
    hide Inv, Enabled, Apply, Stranded, IsTerminal;
    TraceInv(states, steps, i);
    if i > 0 {
      StrandedForever(states, steps, i - 1);
      TraceInv(states, steps, i - 1);
      StrandedStep(states[i - 1], steps[i - 1]);
    }
    QueuedIsUnsettled(states[i]);
  }

  lemma QueuedIsUnsettled(s: State)
    requires Inv(s) && Stranded(s)
    ensures s.unfinished > 0 && forall t :: t in s.queue ==> t in s.futures && !IsTerminal(s.futures[t])
  {
  }

  // ---------- a run that ends so ----------

  /** `k` workers live, all of them between their time-out and their look at the flag; nothing is queued. */
  ghost predicate AllTimedOut(s: State, maxWorkers: nat, k: nat) {
    && Inv(s) && s.maxWorkers == maxWorkers && s.queue == [] && !s.shutdown && !s.submitting && |s.threads| == k
    && (forall w :: w in s.workers ==> s.workers[w].GotEmpty? && w < k)
    && (forall t :: t in s.futures ==> t < k)
  }

  lemma TraceSnoc(states: seq<State>, steps: seq<Step>, step: Step) returns (states': seq<State>, steps': seq<Step>)
    requires IsTrace(states, steps) && Enabled(states[|steps|], step)
    ensures IsTrace(states', steps') && states' == states + [Apply(states[|steps|], step)] && steps' == steps + [step]
    ensures states'[0] == states[0] && states'[|steps'|] == Apply(states[|steps|], step)
  {
    states', steps' := states + [Apply(states[|steps|], step)], steps + [step];
    forall i | 0 <= i < |steps'|
      ensures Enabled(states'[i], steps'[i]) && states'[i + 1] == Apply(states'[i], steps'[i])
    {
      assert i < |steps| ==> states'[i] == states[i] && states'[i + 1] == states[i + 1] && steps'[i] == steps[i];
    }
  }

  lemma NewcomerIsNew(s: State, maxWorkers: nat, k: nat)
    requires AllTimedOut(s, maxWorkers, k)
    ensures Inv(s) && s.maxWorkers == maxWorkers && s.queue == [] && !s.shutdown && !s.submitting && |s.threads| == k
    ensures k !in s.workers && k !in s.threads && k !in s.futures
  {
  }

  lemma OneMoreTimedOut(s: State, s': State, maxWorkers: nat, k: nat)
    requires AllTimedOut(s, maxWorkers, k) && Inv(s')
    requires s' == s.(workers := s.workers[k := GotEmpty], threads := s.threads + {k},
                      futures := s.futures[k := Finished(Returned(0))], calls := s.calls[k := 1])
    ensures AllTimedOut(s', maxWorkers, k + 1)
  {
    NewcomerIsNew(s, maxWorkers, k);
    hide Inv;
  }

  /** A submit that spawns worker `k` for task `k`. */
  lemma Submits(s: State, k: nat, s1: State, s2: State)
    requires s.queue == [] && !s.shutdown && !s.submitting && |s.threads| < s.maxWorkers
    requires k !in s.workers && k !in s.threads && k !in s.futures
    requires s1 == s.(queue := [k], unfinished := s.unfinished + 1, submitting := true,
                      futures := s.futures[k := Pending], calls := s.calls[k := 0])
    requires s2 == s1.(submitting := false, workers := s.workers[k := Polling], threads := s.threads + {k})
    ensures Enabled(s, SubmitPut(k)) && Apply(s, SubmitPut(k)) == s1
    ensures Enabled(s1, SubmitFinish(k)) && Apply(s1, SubmitFinish(k)) == s2
  {
  }

  lemma OverwrittenTwice<K, V>(m: map<K, V>, k: K, u: V, v: V)
    ensures m[k := u][k := v] == m[k := v]
  {
  }

  /** The worker takes its task, claims it and settles it. */
  lemma Takes(s: State, k: nat, s3: State, s4: State, s5: State)
    requires s.queue == [k] && In(s, k, Polling) && k in s.futures && s.futures[k].Pending?
    requires k in s.calls && s.calls[k] == 0
    requires s3 == s.(queue := [], workers := s.workers[k := Holding(k)])
    requires s4 == s3.(workers := s.workers[k := Calling(k)],
                       futures := s.futures[k := Running], calls := s.calls[k := 1])
    requires s5 == s4.(workers := s.workers[k := Settled(k)], futures := s.futures[k := Finished(Returned(0))])
    ensures Enabled(s, Get(k)) && Apply(s, Get(k)) == s3
    ensures Enabled(s3, Claim(k)) && Apply(s3, Claim(k)) == s4
    ensures Enabled(s4, Settle(k, Returned(0))) && Apply(s4, Settle(k, Returned(0))) == s5
  {
  }

  /** The first five steps of a new worker: submitted to, spawned, and serving its task. */
  lemma WorkerServes(s: State, maxWorkers: nat, k: nat) returns (states: seq<State>, steps: seq<Step>)
    requires AllTimedOut(s, maxWorkers, k) && k < maxWorkers
    ensures IsTrace(states, steps) && states[0] == s
    ensures var s' := states[|steps|];
      && s' == s.(unfinished := s.unfinished + 1, workers := s.workers[k := Settled(k)], threads := s.threads + {k},
                  futures := s.futures[k := Finished(Returned(0))], calls := s.calls[k := 1])
  {
    hide Inv, AllTimedOut, Enabled, Apply, IsTrace;
    NewcomerIsNew(s, maxWorkers, k);
    var s1 := s.(queue := [k], unfinished := s.unfinished + 1, submitting := true,
                 futures := s.futures[k := Pending], calls := s.calls[k := 0]);
    var s2 := s1.(submitting := false, workers := s.workers[k := Polling], threads := s.threads + {k});
    Submits(s, k, s1, s2);
    var s3 := s2.(queue := [], workers := s2.workers[k := Holding(k)]);
    var s4 := s3.(workers := s2.workers[k := Calling(k)],
                  futures := s2.futures[k := Running], calls := s2.calls[k := 1]);
    var s5 := s4.(workers := s2.workers[k := Settled(k)], futures := s2.futures[k := Finished(Returned(0))]);
    Takes(s2, k, s3, s4, s5);
    OverwrittenTwice(s.workers, k, Polling, Settled(k));
    OverwrittenTwice(s.futures, k, Pending, Finished(Returned(0)));
    OverwrittenTwice(s.calls, k, 0, 1);
    states := [s, s1, s2, s3, s4, s5];
    steps := [SubmitPut(k), SubmitFinish(k), Get(k), Claim(k), Settle(k, Returned(0))];
    FiveSteps(states, steps);
  }

  lemma FiveSteps(states: seq<State>, steps: seq<Step>)
    requires |steps| == 5 && |states| == 6
    requires Enabled(states[0], steps[0]) && states[1] == Apply(states[0], steps[0])
    requires Enabled(states[1], steps[1]) && states[2] == Apply(states[1], steps[1])
    requires Enabled(states[2], steps[2]) && states[3] == Apply(states[2], steps[2])
    requires Enabled(states[3], steps[3]) && states[4] == Apply(states[3], steps[3])
    requires Enabled(states[4], steps[4]) && states[5] == Apply(states[4], steps[4])
    ensures IsTrace(states, steps)
  {
    hide Enabled, Apply;
  }

  /** With its task done, the worker finds the queue empty. */
  lemma WorkerTimesOut(s: State, s': State, maxWorkers: nat, k: nat, states: seq<State>, steps: seq<Step>)
      returns (states': seq<State>, steps': seq<Step>)
    requires AllTimedOut(s, maxWorkers, k) && IsTrace(states, steps) && Inv(states[0]) && states[|steps|] == s'
    requires s' == s.(unfinished := s.unfinished + 1, workers := s.workers[k := Settled(k)], threads := s.threads + {k},
                      futures := s.futures[k := Finished(Returned(0))], calls := s.calls[k := 1])
    ensures IsTrace(states', steps') && states'[0] == states[0]
    ensures AllTimedOut(states'[|steps'|], maxWorkers, k + 1)
  {
    hide Inv, AllTimedOut, IsTrace;
    NewcomerIsNew(s, maxWorkers, k);
    OverwrittenTwice(s.workers, k, Settled(k), Polling);
    OverwrittenTwice(s.workers, k, Polling, GotEmpty);
    states', steps' := TraceSnoc(states, steps, TaskDone(k));
    var s1 := s'.(unfinished := s.unfinished, workers := s.workers[k := Polling]);
    assert states'[|steps'|] == s1;
    states', steps' := TraceSnoc(states', steps', TimeOut(k));
    assert states'[|steps'|] == s1.(workers := s.workers[k := GotEmpty]);
    hide Enabled, Apply;
    TraceInv(states', steps', |steps'|);
    OneMoreTimedOut(s, states'[|steps'|], maxWorkers, k);
  }

  lemma {:induction false} TraceConcat(a: seq<State>, moves: seq<Step>, b: seq<State>, more: seq<Step>)
    requires IsTrace(a, moves) && IsTrace(b, more) && a[|moves|] == b[0]
    ensures IsTrace(a + b[1..], moves + more) && (a + b[1..])[|moves + more|] == b[|more|]
  {
    var states, steps := a + b[1..], moves + more;
    forall i | 0 <= i < |steps|
      ensures Enabled(states[i], steps[i]) && states[i + 1] == Apply(states[i], steps[i])
    {
      if i < |moves| {
        assert states[i] == a[i] && states[i + 1] == a[i + 1] && steps[i] == moves[i];
      } else {
        assert states[i] == b[i - |moves|] && states[i + 1] == b[i + 1 - |moves|] && steps[i] == more[i - |moves|];
      }
    }
  }

  lemma {:induction false} EveryoneTimesOut(maxWorkers: nat, k: nat) returns (states: seq<State>, steps: seq<Step>)
    requires k <= maxWorkers
    ensures IsTrace(states, steps) && states[0] == Initial(maxWorkers) && AllTimedOut(states[|steps|], maxWorkers, k)
  {
    if k == 0 {
      InitialInv(maxWorkers);
      return [Initial(maxWorkers)], [];
    }
    hide AllTimedOut, Inv;
    var first, moves := EveryoneTimesOut(maxWorkers, k - 1);
    var s := first[|moves|];
    var more, further := WorkerServes(s, maxWorkers, k - 1);
    TraceConcat(first, moves, more, further);
    InitialInv(maxWorkers);
    states, steps := WorkerTimesOut(s, more[|further|], maxWorkers, k - 1, first + more[1..], moves + further);
  }

  /**
   Whatever the number of workers, a run of a new executor strands a task: every worker serves one task
   and times out, one more task is submitted, and the shutdown comes before any worker looks at the flag.
   */
  lemma TasksCanStrand(maxWorkers: nat) returns (states: seq<State>, steps: seq<Step>)
    ensures IsRun(states, steps) && states[0].maxWorkers == maxWorkers && Stranded(states[|steps|])
  {
    var first, moves := EveryoneTimesOut(maxWorkers, maxWorkers);
    var s := first[|moves|];
    InitialInv(maxWorkers);
    first, moves := TraceSnoc(first, moves, SubmitPut(maxWorkers));
    TraceInv(first, moves, |moves|);
    assert !Safe(first[|moves|]);
    hide Inv, Safe, Apply, Enabled, Stranded;
    var last, rest := UnsafeCanStrand(first[|moves|]);
    TraceConcat(first, moves, last, rest);
    states, steps := first + last[1..], moves + rest;
  }
}
