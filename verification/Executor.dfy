/**
 `DaemonThreadPoolExecutor` as a protocol. Every step is one region that other threads cannot cut:
 a queue operation, a future's transition, a read of the shutdown flag, or half of the locked
 region of `submit`, between whose two halves workers may run.
 */
module Executor {
  import opened Sequences

  type TaskId = nat
  type WorkerId = nat

  datatype Outcome = Returned(value: int) | Raised(error: int)

  datatype Future = Pending | Running | Cancelled | CancelledAndNotified | Finished(outcome: Outcome)

  /** Where a live worker thread stands in its loop. */
  datatype Phase =
    | Polling                  // in, or about to enter, the timed get
    | GotEmpty                 // the get timed out; the shutdown flag is not read yet
    | Holding(task: TaskId)    // a work item was taken; its future is not claimed yet
    | Calling(task: TaskId)    // the function runs
    | Settled(task: TaskId)    // the future is settled or was cancelled; task_done is due
    | Leaving                  // out of the loop; still listed in _threads

  datatype State = State(
    maxWorkers: nat,
    queue: seq<TaskId>,
    unfinished: int,
    shutdown: bool,
    submitting: bool,                  // a submit holds the lock between its put and its spawn
    workers: map<WorkerId, Phase>,     // live threads
    threads: set<WorkerId>,            // _threads
    futures: map<TaskId, Future>,      // every accepted task
    calls: map<TaskId, nat>)           // how often its function was started

  datatype Step =
    | SubmitPut(t: TaskId)
    | SubmitFinish(spawned: WorkerId)
    | SetShutdown
    | Cancel(t: TaskId)
    | Get(w: WorkerId)
    | TimeOut(w: WorkerId)
    | CheckShutdown(w: WorkerId)
    | Claim(w: WorkerId)
    | Settle(w: WorkerId, outcome: Outcome)
    | TaskDone(w: WorkerId)
    | Leave(w: WorkerId)

  predicate IsWorkerStep(step: Step) {
    !(step.SubmitPut? || step.SubmitFinish? || step.SetShutdown? || step.Cancel?)
  }

  function Initial(maxWorkers: nat): State {
    State(maxWorkers, [], 0, false, false, map[], {}, map[], map[])
  }

  predicate In(s: State, w: WorkerId, phase: Phase) {
    w in s.workers && s.workers[w] == phase
  }

  predicate Enabled(s: State, step: Step) {
    match step
    case SubmitPut(t) => !s.shutdown && !s.submitting && t !in s.futures
    case SubmitFinish(w) => s.submitting && w !in s.workers && w !in s.threads
    case SetShutdown => !s.submitting
    case Cancel(t) => t in s.futures
    case Get(w) => In(s, w, Polling) && s.queue != []
    case TimeOut(w) => In(s, w, Polling) && s.queue == []
    case CheckShutdown(w) => In(s, w, GotEmpty)
    case Claim(w) => w in s.workers && s.workers[w].Holding? && s.workers[w].task in s.futures
    case Settle(w, _) => w in s.workers && s.workers[w].Calling? && s.workers[w].task in s.futures
    case TaskDone(w) => w in s.workers && s.workers[w].Settled?
    case Leave(w) => In(s, w, Leaving)
  }

  function Apply(s: State, step: Step): State
    requires Enabled(s, step)
  {
    match step
    case SubmitPut(t) =>
      s.(queue := s.queue + [t], unfinished := s.unfinished + 1, submitting := true,
         futures := s.futures[t := Pending], calls := s.calls[t := 0])
    case SubmitFinish(w) =>
      if |s.threads| < s.maxWorkers
      then s.(submitting := false, workers := s.workers[w := Polling], threads := s.threads + {w})
      else s.(submitting := false)
    case SetShutdown => s.(shutdown := true)
    case Cancel(t) =>
      if s.futures[t].Pending? then s.(futures := s.futures[t := Cancelled]) else s
    case Get(w) => s.(queue := s.queue[1..], workers := s.workers[w := Holding(s.queue[0])])
    case TimeOut(w) => s.(workers := s.workers[w := GotEmpty])
    case CheckShutdown(w) => s.(workers := s.workers[w := if s.shutdown then Leaving else Polling])
    case Claim(w) =>
      var t := s.workers[w].task;
      if s.futures[t].Cancelled?
      then s.(futures := s.futures[t := CancelledAndNotified], workers := s.workers[w := Settled(t)])
      else s.(futures := s.futures[t := Running], workers := s.workers[w := Calling(t)],
              calls := s.calls[t := (if t in s.calls then s.calls[t] else 0) + 1])
    case Settle(w, outcome) =>
      var t := s.workers[w].task;
      s.(futures := s.futures[t := Finished(outcome)], workers := s.workers[w := Settled(t)])
    case TaskDone(w) => s.(unfinished := s.unfinished - 1, workers := s.workers[w := Polling])
    case Leave(w) => s.(workers := s.workers - {w}, threads := s.threads - {w})
  }

  // ---------- the invariant ----------

  predicate IsBusy(phase: Phase) {
    phase.Holding? || phase.Calling? || phase.Settled?
  }

  predicate Holds(s: State, w: WorkerId, t: TaskId) {
    w in s.workers && IsBusy(s.workers[w]) && s.workers[w].task == t
  }

  ghost predicate IsHeld(s: State, t: TaskId) {
    exists w :: Holds(s, w, t)
  }

  predicate IsTerminal(f: Future) {
    f.Finished? || f.CancelledAndNotified?
  }

  /** The future of a task agrees with how far its worker is with it. */
  predicate Fitting(phase: Phase, f: Future) {
    match phase
    case Holding(_) => f.Pending? || f.Cancelled?
    case Calling(_) => f.Running?
    case Settled(_) => IsTerminal(f)
    case _ => true
  }

  ghost predicate QueueOk(s: State) {
    && NoRepeats(s.queue)
    && forall t :: t in s.queue ==>
         t in s.futures && (s.futures[t].Pending? || s.futures[t].Cancelled?) && !IsHeld(s, t)
  }

  ghost predicate HoldersOk(s: State) {
    && (forall w, t :: Holds(s, w, t) ==> t in s.futures && Fitting(s.workers[w], s.futures[t]))
    && (forall w, w', t :: Holds(s, w, t) && Holds(s, w', t) ==> w == w')
  }

  ghost predicate FuturesOk(s: State) {
    forall t :: t in s.futures ==> IsTerminal(s.futures[t]) || t in s.queue || IsHeld(s, t)
  }

  predicate CallsOk(s: State) {
    && s.calls.Keys == s.futures.Keys
    && forall t :: t in s.futures ==>
         s.calls[t] == if s.futures[t].Running? || s.futures[t].Finished? then 1 else 0
  }

  ghost predicate ThreadsOk(s: State) {
    && s.threads == s.workers.Keys && |s.threads| <= s.maxWorkers
    && (s.shutdown ==> !s.submitting)
    && forall w :: In(s, w, Leaving) ==> s.shutdown
  }

  /** How far a live worker is from being gone, once the flag is set. */
  function Weight(phase: Phase): nat {
    match phase
    case Leaving => 1
    case GotEmpty => 2
    case Polling => 3
    case Settled(_) => 4
    case Calling(_) => 5
    case Holding(_) => 6
  }

  const BUSY := 4

  /** The live workers of at least a weight; those of weight `BUSY` or more hold a task. */
  function AtLeast(s: State, k: nat): set<WorkerId> {
    set w | w in s.workers && Weight(s.workers[w]) >= k
  }

  predicate CounterOk(s: State) {
    s.unfinished == |s.queue| + |AtLeast(s, BUSY)|
  }

  ghost predicate Inv(s: State) {
    QueueOk(s) && HoldersOk(s) && FuturesOk(s) && CallsOk(s) && ThreadsOk(s) && CounterOk(s)
  }

  lemma InitialInv(maxWorkers: nat)
    ensures Inv(Initial(maxWorkers))
  {
  }

  // ---------- every step keeps it ----------

  /** Moving one worker moves it in or out of each level, and no other worker. */
  lemma LevelMoves(s: State, s': State, w: WorkerId, k: nat)
    requires w in s.workers && w in s'.workers && s'.workers == s.workers[w := s'.workers[w]]
    ensures |AtLeast(s', k)| == |AtLeast(s, k)|
      - (if Weight(s.workers[w]) >= k then 1 else 0) + (if Weight(s'.workers[w]) >= k then 1 else 0)
  {
    hide Weight;
    assert AtLeast(s, k) - {w} == AtLeast(s', k) - {w};
    SizeMoves(AtLeast(s, k), AtLeast(s', k), w);
  }

  lemma SizeMoves<T>(before: set<T>, after: set<T>, x: T)
    requires before - {x} == after - {x}
    ensures |after| == |before| - (if x in before then 1 else 0) + (if x in after then 1 else 0)
  {
    SizeWithout(before, x);
    SizeWithout(after, x);
  }

  lemma SizeWithout<T>(a: set<T>, x: T)
    ensures |a - {x}| == |a| - (if x in a then 1 else 0)
  {
    if x in a {
      assert a == (a - {x}) + {x};
    } else {
      assert a == a - {x};
    }
  }

  lemma LevelGains(s: State, s': State, w: WorkerId, k: nat)
    requires w !in s.workers && s'.workers == s.workers[w := Polling]
    ensures |AtLeast(s', k)| == |AtLeast(s, k)| + (if Weight(Polling) >= k then 1 else 0)
  {
    if Weight(Polling) >= k {
      assert AtLeast(s', k) == AtLeast(s, k) + {w};
    } else {
      assert AtLeast(s', k) == AtLeast(s, k);
    }
  }

  lemma LevelLoses(s: State, s': State, w: WorkerId, k: nat)
    requires w in s.workers && s'.workers == s.workers - {w}
    ensures |AtLeast(s', k)| == |AtLeast(s, k)| - (if Weight(s.workers[w]) >= k then 1 else 0)
  {
    assert AtLeast(s', k) == AtLeast(s, k) - {w};
  }

  lemma CounterKept(s: State, step: Step)
    requires Inv(s) && Enabled(s, step)
    ensures CounterOk(Apply(s, step))
  {
    var s' := Apply(s, step);
    if step.SubmitFinish? {
      if |s.threads| < s.maxWorkers {
        LevelGains(s, s', step.spawned, BUSY);
      } else {
        assert AtLeast(s', BUSY) == AtLeast(s, BUSY);
      }
    } else if step.Leave? {
      LevelLoses(s, s', step.w, BUSY);
    } else if IsWorkerStep(step) {
      MovesOneWorker(s, step);
      LevelMoves(s, s', step.w, BUSY);
    } else {
      assert AtLeast(s', BUSY) == AtLeast(s, BUSY);
    }
  }

  lemma CallsKept(s: State, step: Step)
    requires Inv(s) && Enabled(s, step)
    ensures CallsOk(Apply(s, step))
  {
    hide QueueOk, FuturesOk, ThreadsOk, CounterOk;
    if step.Claim? || step.Settle? {
      assert Holds(s, step.w, s.workers[step.w].task);
    }
    hide HoldersOk;
  }

  /** What a step of a worker that does not leave looks like from the other workers. */
  lemma MovesOneWorker(s: State, step: Step)
    requires Enabled(s, step) && IsWorkerStep(step) && !step.Leave?
    ensures var s' := Apply(s, step);
      && step.w in s.workers && step.w in s'.workers && s'.workers == s.workers[step.w := s'.workers[step.w]]
      && s'.threads == s.threads && s'.shutdown == s.shutdown && s'.submitting == s.submitting
      && s'.maxWorkers == s.maxWorkers
      && (s'.workers[step.w].Leaving? ==> s.shutdown)
  {
  }

  lemma ThreadsKeptByMove(s: State, step: Step)
    requires ThreadsOk(s) && Enabled(s, step) && IsWorkerStep(step) && !step.Leave?
    ensures ThreadsOk(Apply(s, step))
  {
    MovesOneWorker(s, step);
    hide Apply, Enabled;
    var s' := Apply(s, step);
    assert s'.workers.Keys == s.workers.Keys;
    assert forall w :: In(s', w, Leaving) ==> In(s, w, Leaving) || w == step.w;
  }

  lemma ThreadsKeptByLeave(s: State, w: WorkerId)
    requires ThreadsOk(s) && Enabled(s, Leave(w))
    ensures ThreadsOk(Apply(s, Leave(w)))
  {
    var s' := Apply(s, Leave(w));
    assert s'.threads == s'.workers.Keys;
    assert |s'.threads| == |s.threads| - 1;
    assert forall v :: In(s', v, Leaving) ==> In(s, v, Leaving);
  }

  lemma ThreadsKeptBySpawn(s: State, w: WorkerId)
    requires ThreadsOk(s) && Enabled(s, SubmitFinish(w))
    ensures ThreadsOk(Apply(s, SubmitFinish(w)))
  {
    var s' := Apply(s, SubmitFinish(w));
    assert s'.threads == s'.workers.Keys;
    assert forall v :: In(s', v, Leaving) ==> In(s, v, Leaving);
  }

  lemma ThreadsKept(s: State, step: Step)
    requires ThreadsOk(s) && Enabled(s, step)
    ensures ThreadsOk(Apply(s, step))
  {
    match step
    case Leave(w) => ThreadsKeptByLeave(s, w);
    case SubmitFinish(w) => ThreadsKeptBySpawn(s, w);
    case SubmitPut(_) => assert forall v :: In(Apply(s, step), v, Leaving) ==> In(s, v, Leaving);
    case SetShutdown =>
    case Cancel(_) => assert forall v :: In(Apply(s, step), v, Leaving) ==> In(s, v, Leaving);
    case _ => ThreadsKeptByMove(s, step);
  }

  /** A step that leaves every busy worker with its task leaves the same tasks held. */
  lemma SameHolders(s: State, s': State)
    requires forall w, t :: Holds(s, w, t) <==> Holds(s', w, t)
    ensures forall t :: IsHeld(s, t) <==> IsHeld(s', t)
  {
  }

  lemma TasksKeptByPut(s: State, t: TaskId)
    requires Inv(s) && Enabled(s, SubmitPut(t))
    ensures var s' := Apply(s, SubmitPut(t)); QueueOk(s') && HoldersOk(s') && FuturesOk(s')
  {
    hide CallsOk, ThreadsOk, CounterOk;
    var s' := Apply(s, SubmitPut(t));
    assert forall w, u :: Holds(s, w, u) <==> Holds(s', w, u);
    SameHolders(s, s');
  }

  /** Who holds what is the same in both states, and in the same phase. */
  ghost predicate SameTasks(s: State, s': State) {
    && s'.queue == s.queue
    && (forall w, t :: Holds(s, w, t) <==> Holds(s', w, t))
    && (forall w, t :: Holds(s, w, t) ==> s'.workers[w] == s.workers[w])
  }

  /** At most pending futures are cancelled, which fits wherever a pending one does. */
  predicate OnlyCancels(before: map<TaskId, Future>, after: map<TaskId, Future>) {
    && after.Keys == before.Keys
    && forall t :: t in before ==> after[t] == before[t] || (before[t].Pending? && after[t].Cancelled?)
  }

  lemma TasksStay(s: State, s': State)
    requires QueueOk(s) && HoldersOk(s) && FuturesOk(s) && SameTasks(s, s') && OnlyCancels(s.futures, s'.futures)
    ensures QueueOk(s') && HoldersOk(s') && FuturesOk(s')
  {
    hide Holds;
    SameHolders(s, s');
  }

  predicate IsIdle(workers: map<WorkerId, Phase>, w: WorkerId) {
    w in workers ==> !IsBusy(workers[w])
  }

  /** Only `w` comes, goes or moves, and it holds nothing before or after. */
  lemma IdlerMoves(s: State, s': State, w: WorkerId)
    requires s'.queue == s.queue && IsIdle(s.workers, w) && IsIdle(s'.workers, w)
    requires s'.workers - {w} == s.workers - {w}
    ensures SameTasks(s, s')
  {
    hide IsBusy;
    forall v, t
      ensures Holds(s, v, t) <==> Holds(s', v, t)
      ensures Holds(s, v, t) ==> s'.workers[v] == s.workers[v]
    {
      assert v != w ==> (v in s.workers <==> v in s.workers - {w}) && (v in s'.workers <==> v in s'.workers - {w});
    }
  }

  lemma TasksKeptByClients(s: State, step: Step)
    requires Inv(s) && Enabled(s, step) && (step.SubmitFinish? || step.SetShutdown? || step.Cancel?)
    ensures QueueOk(Apply(s, step)) && HoldersOk(Apply(s, step)) && FuturesOk(Apply(s, step))
  {
    hide QueueOk, HoldersOk, FuturesOk, CallsOk, CounterOk, ThreadsOk, SameTasks, IsBusy;
    var s' := Apply(s, step);
    IdlePhases();
    if step.SubmitFinish? {
      IdlerMoves(s, s', step.spawned);
    } else {
      SameWorkers(s, s');
    }
    TasksStay(s, s');
  }

  lemma IdlePhases()
    ensures !IsBusy(Polling) && !IsBusy(GotEmpty) && !IsBusy(Leaving)
  {
  }

  lemma SameWorkers(s: State, s': State)
    requires s'.queue == s.queue && s'.workers == s.workers
    ensures SameTasks(s, s')
  {
  }

  lemma TasksKeptByIdlers(s: State, step: Step)
    requires Inv(s) && Enabled(s, step) && (step.TimeOut? || step.CheckShutdown? || step.Leave?)
    ensures QueueOk(Apply(s, step)) && HoldersOk(Apply(s, step)) && FuturesOk(Apply(s, step))
  {
    hide QueueOk, HoldersOk, FuturesOk, CallsOk, CounterOk, ThreadsOk, SameTasks, IsBusy;
    IdlePhases();
    IdlerMoves(s, Apply(s, step), step.w);
    TasksStay(s, Apply(s, step));
  }

  lemma TasksKeptByGet(s: State, w: WorkerId)
    requires Inv(s) && Enabled(s, Get(w))
    ensures QueueOk(Apply(s, Get(w))) && HoldersOk(Apply(s, Get(w))) && FuturesOk(Apply(s, Get(w)))
  {
    hide CallsOk, ThreadsOk, CounterOk;
    var s' := Apply(s, Get(w));
    var t := s.queue[0];
    assert Holds(s', w, t);
    assert forall v, u :: Holds(s', v, u) <==> Holds(s, v, u) || (v == w && u == t);
    assert !IsHeld(s, t);
    forall u | u in s'.queue
      ensures u in s.queue && u != t && !IsHeld(s', u)
    {
      var i :| 0 <= i < |s'.queue| && s'.queue[i] == u;
      assert s.queue[i + 1] == u;
      assert !IsHeld(s, u);
    }
    forall u | u in s'.futures && !IsTerminal(s'.futures[u])
      ensures u in s'.queue || IsHeld(s', u)
    {
      if u in s.queue {
        var i :| 0 <= i < |s.queue| && s.queue[i] == u;
        assert i > 0 ==> s'.queue[i - 1] == u;
      } else {
        var v :| Holds(s, v, u);
        assert Holds(s', v, u);
      }
    }
  }

  /** A worker goes on with its task, whose future goes on with it. */
  lemma TaskAdvances(s: State, s': State, w: WorkerId, t: TaskId, phase: Phase, f: Future)
    requires QueueOk(s) && HoldersOk(s) && FuturesOk(s) && Holds(s, w, t)
    requires IsBusy(phase) && phase.task == t && Fitting(phase, f)
    requires s'.queue == s.queue && s'.workers == s.workers[w := phase] && s'.futures == s.futures[t := f]
    ensures QueueOk(s') && HoldersOk(s') && FuturesOk(s')
  {
    assert forall v, u :: Holds(s, v, u) <==> Holds(s', v, u);
    SameHolders(s, s');
    assert IsHeld(s, t);
  }

  lemma TasksKeptByBusy(s: State, step: Step)
    requires Inv(s) && Enabled(s, step) && (step.Claim? || step.Settle?)
    ensures QueueOk(Apply(s, step)) && HoldersOk(Apply(s, step)) && FuturesOk(Apply(s, step))
  {
    hide QueueOk, HoldersOk, FuturesOk, CallsOk, ThreadsOk, CounterOk;
    var s', t := Apply(s, step), s.workers[step.w].task;
    TaskAdvances(s, s', step.w, t, s'.workers[step.w], s'.futures[t]);
  }

  lemma TasksKeptByTaskDone(s: State, w: WorkerId)
    requires Inv(s) && Enabled(s, TaskDone(w))
    ensures QueueOk(Apply(s, TaskDone(w))) && HoldersOk(Apply(s, TaskDone(w))) && FuturesOk(Apply(s, TaskDone(w)))
  {
    hide CallsOk, ThreadsOk, CounterOk;
    var s' := Apply(s, TaskDone(w));
    var t := s.workers[w].task;
    assert Holds(s, w, t);
    assert forall v, u :: Holds(s', v, u) <==> Holds(s, v, u) && v != w;
    forall u | u in s'.futures && !IsTerminal(s'.futures[u])
      ensures u in s'.queue || IsHeld(s', u)
    {
      if u !in s.queue {
        var v :| Holds(s, v, u);
        assert v != w;
        assert Holds(s', v, u);
      }
    }
  }

  lemma InvKept(s: State, step: Step)
    requires Inv(s) && Enabled(s, step)
    ensures Inv(Apply(s, step))
  {
    CounterKept(s, step);
    ThreadsKept(s, step);
    CallsKept(s, step);
    hide QueueOk, HoldersOk, FuturesOk, CallsOk, ThreadsOk, CounterOk, Apply;
    match step
    case SubmitPut(t) => TasksKeptByPut(s, t);
    case Get(w) => TasksKeptByGet(s, w);
    case Claim(_) => TasksKeptByBusy(s, step);
    case Settle(_, _) => TasksKeptByBusy(s, step);
    case TaskDone(w) => TasksKeptByTaskDone(s, w);
    case TimeOut(_) => TasksKeptByIdlers(s, step);
    case CheckShutdown(_) => TasksKeptByIdlers(s, step);
    case Leave(_) => TasksKeptByIdlers(s, step);
    case _ => TasksKeptByClients(s, step);
  }
}
