/** What the executor keeps over whole runs, and exactly when shutting it down can leave a task behind. */
module ExecutorLaws {
  import opened Sequences
  import opened Executor

  ghost predicate IsTrace(states: seq<State>, steps: seq<Step>) {
    && |states| == |steps| + 1
    && forall i :: 0 <= i < |steps| ==> Enabled(states[i], steps[i]) && states[i + 1] == Apply(states[i], steps[i])
  }

  /** A run of a new executor. */
  ghost predicate IsRun(states: seq<State>, steps: seq<Step>) {
    IsTrace(states, steps) && states[0] == Initial(states[0].maxWorkers)
  }

  lemma {:induction false} TraceInv(states: seq<State>, steps: seq<Step>, i: nat)
    requires IsTrace(states, steps) && Inv(states[0]) && i < |states|
    ensures Inv(states[i])
  {
    if i > 0 {
      TraceInv(states, steps, i - 1);
      InvKept(states[i - 1], steps[i - 1]);
    }
  }

  lemma RunInv(states: seq<State>, steps: seq<Step>, i: nat)
    requires IsRun(states, steps) && i < |states|
    ensures Inv(states[i])
  {
    InitialInv(states[0].maxWorkers);
    TraceInv(states, steps, i);
  }

  // ---------- conservation ----------

  /**
   In every reachable state each accepted task is queued once, or with one worker, or over; the
   counter that `join` waits for counts the first two kinds; and a function has run at most once.
   */
  lemma Conservation(states: seq<State>, steps: seq<Step>, i: nat, t: TaskId)
    requires IsRun(states, steps) && i < |states| && t in states[i].futures
    ensures var s := states[i];
      && (t in s.queue ==> !IsHeld(s, t) && !IsTerminal(s.futures[t]))
      && NoRepeats(s.queue)
      && (forall w, v :: Holds(s, w, t) && Holds(s, v, t) ==> w == v)
      && (t !in s.queue && !IsHeld(s, t) ==> IsTerminal(s.futures[t]))
      && s.unfinished == |s.queue| + |set w | w in s.workers && IsBusy(s.workers[w])|
      && t in s.calls && s.calls[t] <= 1
  {
    RunInv(states, steps, i);
    var s := states[i];
    assert AtLeast(s, BUSY) == set w | w in s.workers && IsBusy(s.workers[w]);
  }

  /** Neither queue nor future ever refuses a worker: both calls find the state they need. */
  lemma WorkersNeverRaise(states: seq<State>, steps: seq<Step>, i: nat, w: WorkerId)
    requires IsRun(states, steps) && i < |states| && w in states[i].workers
    ensures var s := states[i];
      && (s.workers[w].Settled? ==> s.unfinished > 0)
      && (IsBusy(s.workers[w]) ==>
           s.workers[w].task in s.futures && Fitting(s.workers[w], s.futures[s.workers[w].task]))
  {
    RunInv(states, steps, i);
    var s := states[i];
    if IsBusy(s.workers[w]) {
      assert Holds(s, w, s.workers[w].task);
      assert w in AtLeast(s, BUSY);
    }
  }

  /** What a future has become for good. */
  predicate Fixed(before: Future, after: Future) {
    match before
    case Finished(_) => after == before
    case CancelledAndNotified => after == before
    case Cancelled => after.Cancelled? || after.CancelledAndNotified?
    case Running => after.Running? || after.Finished?
    case Pending => true
  }

  lemma FutureStep(s: State, step: Step, t: TaskId)
    requires Inv(s) && Enabled(s, step) && t in s.futures
    ensures t in Apply(s, step).futures && Fixed(s.futures[t], Apply(s, step).futures[t])
  {
    if step.Claim? || step.Settle? {
      assert Holds(s, step.w, s.workers[step.w].task);
    }
  }

  lemma FixedTransitive(a: Future, b: Future, c: Future)
    requires Fixed(a, b) && Fixed(b, c)
    ensures Fixed(a, c)
  {
  }

  lemma {:induction false} FuturesAdvance(states: seq<State>, steps: seq<Step>, i: nat, j: nat, t: TaskId)
    requires IsRun(states, steps) && i <= j < |states| && t in states[i].futures
    ensures t in states[j].futures && Fixed(states[i].futures[t], states[j].futures[t])
    decreases j
  {
    if i < j {
      FuturesAdvance(states, steps, i, j - 1, t);
      RunInv(states, steps, j - 1);
      FutureStep(states[j - 1], steps[j - 1], t);
      FixedTransitive(states[i].futures[t], states[j - 1].futures[t], states[j].futures[t]);
    }
  }

  /** A task cancelled before a worker claimed it is never called; a settled one keeps its outcome. */
  lemma CancelledNeverCalled(states: seq<State>, steps: seq<Step>, i: nat, j: nat, t: TaskId)
    requires IsRun(states, steps) && i <= j < |states| && t in states[i].futures
    ensures t in states[j].futures && t in states[j].calls
    ensures states[i].futures[t].Cancelled? ==> states[j].calls[t] == 0
    ensures states[i].futures[t].Finished? ==> states[j].futures[t] == states[i].futures[t] && states[j].calls[t] == 1
  {
    FuturesAdvance(states, steps, i, j, t);
    RunInv(states, steps, j);
  }

  // ---------- shutting down ----------

  function Levels(s: State): nat {
    |AtLeast(s, 1)| + |AtLeast(s, 2)| + |AtLeast(s, 3)| + |AtLeast(s, 4)| + |AtLeast(s, 5)| + |AtLeast(s, 6)|
  }

  /** The work left: four units for a queued task, and each live worker's weight. */
  function Measure(s: State): nat {
    4 * |s.queue| + Levels(s)
  }

  lemma LevelsMove(s: State, s': State, w: WorkerId)
    requires w in s.workers && w in s'.workers && s'.workers == s.workers[w := s'.workers[w]]
    ensures Levels(s') == Levels(s) - Weight(s.workers[w]) + Weight(s'.workers[w])
  {
    hide AtLeast;
    LevelMoves(s, s', w, 1);
    LevelMoves(s, s', w, 2);
    LevelMoves(s, s', w, 3);
    LevelMoves(s, s', w, 4);
    LevelMoves(s, s', w, 5);
    LevelMoves(s, s', w, 6);
  }

  lemma LevelsLose(s: State, s': State, w: WorkerId)
    requires w in s.workers && s'.workers == s.workers - {w}
    ensures Levels(s') == Levels(s) - Weight(s.workers[w])
  {
    hide AtLeast;
    LevelLoses(s, s', w, 1);
    LevelLoses(s, s', w, 2);
    LevelLoses(s, s', w, 3);
    LevelLoses(s, s', w, 4);
    LevelLoses(s, s', w, 5);
    LevelLoses(s, s', w, 6);
  }

  lemma LevelsSame(s: State, s': State)
    requires s'.workers == s.workers
    ensures Levels(s') == Levels(s)
  {
    assert forall k :: AtLeast(s', k) == AtLeast(s, k);
  }

  /** After the flag is set every worker step brings the end nearer, and no other step moves it away. */
  lemma ShutdownProgress(s: State, step: Step)
    requires Inv(s) && s.shutdown && Enabled(s, step)
    ensures Apply(s, step).shutdown
    ensures Measure(Apply(s, step)) <= Measure(s) - (if IsWorkerStep(step) then 1 else 0)
  {
    var s' := Apply(s, step);
    if step.Leave? {
      LevelsLose(s, s', step.w);
    } else if IsWorkerStep(step) {
      MovesOneWorker(s, step);
      LevelsMove(s, s', step.w);
    } else {
      LevelsSame(s, s');
    }
  }

  function WorkerSteps(steps: seq<Step>): nat {
    if steps == [] then 0
    else WorkerSteps(steps[..|steps| - 1]) + if IsWorkerStep(steps[|steps| - 1]) then 1 else 0
  }

  /** However the threads are scheduled, at most `Measure` worker steps follow a shutdown. */
  lemma {:induction false} ShutdownBounded(states: seq<State>, steps: seq<Step>)
    requires IsTrace(states, steps) && Inv(states[0]) && states[0].shutdown
    ensures states[|steps|].shutdown
    ensures WorkerSteps(steps) + Measure(states[|steps|]) <= Measure(states[0])
  {
    var n := |steps|;
    if n > 0 {
      assert IsTrace(states[..n], steps[..n - 1]);
      ShutdownBounded(states[..n], steps[..n - 1]);
      TraceInv(states, steps, n - 1);
      ShutdownProgress(states[n - 1], steps[n - 1]);
    }
  }

  /** Something for worker `w` to do next. */
  function NextOf(s: State, w: WorkerId): Step
    requires w in s.workers
  {
    match s.workers[w]
    case Polling => if s.queue == [] then TimeOut(w) else Get(w)
    case GotEmpty => CheckShutdown(w)
    case Holding(_) => Claim(w)
    case Calling(_) => Settle(w, Returned(0))
    case Settled(_) => TaskDone(w)
    case Leaving => Leave(w)
  }

  /** No live worker is ever stuck. */
  lemma WorkersNeverBlock(s: State, w: WorkerId)
    requires Inv(s) && w in s.workers
    ensures Enabled(s, NextOf(s, w)) && IsWorkerStep(NextOf(s, w))
  {
    if IsBusy(s.workers[w]) {
      assert Holds(s, w, s.workers[w].task);
    }
  }

  /** No worker step is left to take. */
  ghost predicate AtRest(s: State) {
    forall step :: IsWorkerStep(step) ==> !Enabled(s, step)
  }

  lemma AtRestHasNoWorkers(s: State)
    requires Inv(s)
    ensures AtRest(s) <==> s.workers == map[]
  {
    if s.workers != map[] {
      var w :| w in s.workers;
      WorkersNeverBlock(s, w);
    }
  }

  // ---------- stranded tasks ----------

  /** A worker that will look at the queue again before it looks at the flag. */
  predicate WillPoll(s: State, w: WorkerId) {
    w in s.workers && !s.workers[w].GotEmpty? && !s.workers[w].Leaving?
  }

  /** A submit is safe when it will spawn a worker, or some worker will still poll. */
  ghost predicate SafePut(s: State) {
    |s.threads| < s.maxWorkers || exists w :: WillPoll(s, w)
  }

  /** In particular a submit is safe when no worker stands between its time-out and its look at the flag. */
  lemma NobodyTimedOutIsSafe(s: State)
    requires Inv(s) && s.maxWorkers >= 1 && !s.shutdown
    requires forall w :: w in s.workers ==> !s.workers[w].GotEmpty?
    ensures SafePut(s)
  {
    if s.workers != map[] {
      var w :| w in s.workers;
      assert !In(s, w, Leaving);
      assert WillPoll(s, w);
    }
  }

  /** Whoever is queued has someone to be served by. */
  ghost predicate Safe(s: State) {
    || s.queue == []
    || (s.submitting && |s.threads| < s.maxWorkers)
    || exists w :: WillPoll(s, w)
  }

  lemma SafeKept(s: State, step: Step)
    requires Inv(s) && Safe(s) && Enabled(s, step)
    requires step.SubmitPut? ==> SafePut(s)
    ensures Safe(Apply(s, step))
  {
    var s' := Apply(s, step);
    if step.SubmitFinish? && |s.threads| < s.maxWorkers {
      assert WillPoll(s', step.spawned);
    } else if exists w :: WillPoll(s, w) {
      var w :| WillPoll(s, w);
      assert step.TimeOut? || WillPoll(s', w);
    }
  }

  /** The queue holds a task, the flag is set, and nobody is left. */
  predicate Stranded(s: State) {
    s.shutdown && s.queue != [] && s.workers == map[]
  }

  ghost predicate WithoutSubmits(steps: seq<Step>) {
    forall i :: 0 <= i < |steps| ==> !steps[i].SubmitPut?
  }

  lemma {:induction false} SafeAlong(states: seq<State>, steps: seq<Step>, n: nat)
    requires IsTrace(states, steps) && Inv(states[0]) && Safe(states[0]) && n < |states|
    requires forall i :: 0 <= i < |steps| && steps[i].SubmitPut? ==> SafePut(states[i])
    ensures Inv(states[n]) && Safe(states[n])
  {
    if n > 0 {
      SafeAlong(states, steps, n - 1);
      SafeKept(states[n - 1], steps[n - 1]);
      InvKept(states[n - 1], steps[n - 1]);
    }
  }

  lemma SafeIsNotStranded(s: State)
    requires Inv(s) && Safe(s)
    ensures !Stranded(s)
  {
  }

  /** One step ahead of a trace. */
  lemma TraceCons(s: State, step: Step, states: seq<State>, steps: seq<Step>)
    requires Enabled(s, step) && IsTrace(states, steps) && states[0] == Apply(s, step)
    ensures IsTrace([s] + states, [step] + steps)
  {
    var longer, moves := [s] + states, [step] + steps;
    forall i | 0 <= i < |moves|
      ensures Enabled(longer[i], moves[i]) && longer[i + 1] == Apply(longer[i], moves[i])
    {
      if i > 0 {
        assert longer[i] == states[i - 1] && longer[i + 1] == states[i] && moves[i] == steps[i - 1];
      }
    }
  }

  ghost predicate NobodyPolls(s: State) {
    forall w :: !WillPoll(s, w)
  }

  /** Once nobody polls, the workers walk out past the queue. */
  lemma {:induction false} WalkOut(s: State) returns (states: seq<State>, steps: seq<Step>)
    requires Inv(s) && s.shutdown && s.queue != [] && NobodyPolls(s)
    ensures IsTrace(states, steps) && states[0] == s && WithoutSubmits(steps) && Stranded(states[|steps|])
    decreases Measure(s)
  {
    if s.workers == map[] {
      return [s], [];
    }
    var w :| w in s.workers;
    assert !WillPoll(s, w);
    var step := NextOf(s, w);
    var s' := Apply(s, step);
    assert forall v :: WillPoll(s', v) ==> WillPoll(s, v);
    InvKept(s, step);
    ShutdownProgress(s, step);
    var later, moves := WalkOut(s');
    TraceCons(s, step, later, moves);
    return [s] + later, [step] + moves;
  }

  lemma UnsafeCanStrand(s: State) returns (states: seq<State>, steps: seq<Step>)
    requires Inv(s) && !Safe(s)
    ensures IsTrace(states, steps) && states[0] == s && WithoutSubmits(steps) && Stranded(states[|steps|])
    decreases s.submitting, !s.shutdown
  {
    if s.shutdown {
      states, steps := WalkOut(s);
      return;
    }
    var step := if s.submitting then SubmitFinish(FreshWorker(s)) else SetShutdown;
    var s' := Apply(s, step);
    assert s'.workers == s.workers;
    assert forall v :: WillPoll(s', v) ==> WillPoll(s, v);
    InvKept(s, step);
    var later, moves := UnsafeCanStrand(s');
    TraceCons(s, step, later, moves);
    return [s] + later, [step] + moves;
  }

  ghost function FreshWorker(s: State): (w: WorkerId)
    ensures w !in s.workers && w !in s.threads
  {
    var all := s.workers.Keys + s.threads;
    SomeOutside(all);
    var w: WorkerId :| w !in all;
    w
  }

  lemma {:induction false} SomeOutside(all: set<nat>)
    ensures exists n: nat :: n !in all
  {
    var bound: nat, rest := 0, all;
    while rest != {}
      invariant rest <= all
      invariant forall n :: n in all && n !in rest ==> n < bound
      decreases rest
    {
      var n :| n in rest;
      rest := rest - {n};
      if n >= bound {
        bound := n + 1;
      }
    }
    assert bound !in all;
  }

  ghost predicate CanStrand(s: State) {
    exists states, steps ::
      IsTrace(states, steps) && states[0] == s && WithoutSubmits(steps) && Stranded(states[|steps|])
  }

  /**
   The exact condition. From a reachable state, without a further submit, some schedule of shutdown
   and workers leaves a task queued for ever if and only if a task is queued, no worker is about to be
   spawned, and every live worker has already timed out on the empty queue or left its loop.
   */
  lemma StrandingExactly(s: State)
    requires Inv(s)
    ensures CanStrand(s) <==> s.queue != [] && !(s.submitting && |s.threads| < s.maxWorkers) && NobodyPolls(s)
  {
    if CanStrand(s) {
      var states, steps :|
        IsTrace(states, steps) && states[0] == s && WithoutSubmits(steps) && Stranded(states[|steps|]);
      if Safe(s) {
        SafeAlong(states, steps, |steps|);
        SafeIsNotStranded(states[|steps|]);
      }
    }
    if !Safe(s) {
      var states, steps := UnsafeCanStrand(s);
      assert CanStrand(s);
    }
  }

  /**
   Shutdown completes. In a run whose submits were all safe, when the flag is set and no worker step
   is left, every accepted task is settled and the counter that `join` waits for is zero.
   */
  lemma ShutdownSettlesEverything(states: seq<State>, steps: seq<Step>)
    requires IsRun(states, steps)
    requires forall i :: 0 <= i < |steps| && steps[i].SubmitPut? ==> SafePut(states[i])
    requires var last := states[|steps|]; last.shutdown && AtRest(last)
    ensures var last := states[|steps|];
      last.unfinished == 0 && forall t :: t in last.futures ==> IsTerminal(last.futures[t])
  {
    var last := states[|steps|];
    InitialInv(states[0].maxWorkers);
    SafeAlong(states, steps, |steps|);
    AtRestHasNoWorkers(last);
    SafeIsNotStranded(last);
    assert AtLeast(last, BUSY) == {};
    assert forall t :: !IsHeld(last, t);
  }
}
