/**
 The executor as the object it is: its methods change the fields in place. Each method here runs
 undisturbed; `Executor.Step` says where other threads may come in between.
 */
module ExecutorPool {
  import opened Sequences
  import opened Executor

  class DaemonThreadPoolExecutor {
    const maxWorkers: nat
    var workQueue: seq<TaskId>
    var unfinished: int
    var isShutdown: bool
    var workers: map<WorkerId, Phase>
    var threads: set<WorkerId>
    var futures: map<TaskId, Future>
    var calls: map<TaskId, nat>

    function View(): State
      reads this
    {
      State(maxWorkers, workQueue, unfinished, isShutdown, false, workers, threads, futures, calls)
    }

    constructor (maxWorkers: nat)
      ensures View() == Initial(maxWorkers)
    {
      this.maxWorkers := maxWorkers;
      workQueue, unfinished, isShutdown := [], 0, false;
      workers, threads, futures, calls := map[], {}, map[], map[];
    }

    /** Answers false where the program raises `RuntimeError`. */
    method Submit(t: TaskId, thread: WorkerId) returns (accepted: bool)
      requires Inv(View()) && t !in futures && thread !in workers
      modifies this
      ensures Inv(View()) && accepted == !old(isShutdown)
      ensures accepted ==> IsSubmit(old(View()), t, thread, View())
      ensures accepted ==> workQueue == old(workQueue) + [t] && futures == old(futures)[t := Pending]
      ensures !accepted ==> View() == old(View())
    {
      if isShutdown {
        return false;
      }
      hide Inv, IsSubmit;
      ghost var before := View();
      SubmitMakes(before, t, thread);
      futures, calls := futures[t := Pending], calls[t := 0];
      workQueue, unfinished := workQueue + [t], unfinished + 1;
      if |threads| < maxWorkers {
        SpawnWorker(thread);
      }
      assert View() == Accepted(before, t, thread);
      return true;
    }

    method SpawnWorker(thread: WorkerId)
      modifies this`threads, this`workers
      ensures threads == old(threads) + {thread} && workers == old(workers)[thread := Polling]
    {
      threads := threads + {thread};
      workers := workers[thread := Polling];
    }

    /** `future.cancel()`: true when the future is cancelled afterwards. */
    method CancelFuture(t: TaskId) returns (cancelled: bool)
      requires Inv(View()) && t in futures
      modifies this
      ensures Inv(View()) && View() == Apply(old(View()), Cancel(t))
      ensures cancelled <==> !old(futures)[t].Running? && !old(futures)[t].Finished?
      ensures futures == if old(futures)[t].Pending? then old(futures)[t := Cancelled] else old(futures)
    {
      hide Inv;
      InvKept(View(), Cancel(t));
      if futures[t].Pending? {
        futures := futures[t := Cancelled];
      }
      cancelled := futures[t].Cancelled? || futures[t].CancelledAndNotified?;
    }

    method SignalShutdown()
      requires Inv(View())
      modifies this
      ensures Inv(View()) && View() == Apply(old(View()), SetShutdown)
    {
      hide Inv;
      InvKept(View(), SetShutdown);
      isShutdown := true;
    }

    /** The part of the worker's loop that follows a successful get. */
    method ServeOne(w: WorkerId, outcome: TaskId -> Outcome) returns (t: TaskId)
      requires Inv(View()) && In(View(), w, Polling) && workQueue != []
      modifies this
      ensures Inv(View()) && [t] + workQueue == old(workQueue) && t in old(futures) && t in old(calls)
      ensures View() == Served(old(View()), outcome(t)) && IsPass(old(View()), w, outcome(t), View())
    {
      hide Inv, IsPass;
      ghost var before := View();
      QueueHead(before);
      t := workQueue[0];
      workQueue := workQueue[1..];
      if futures[t].Cancelled? {
        futures := futures[t := CancelledAndNotified];
      } else {
        calls := calls[t := calls[t] + 1];
        futures := futures[t := Finished(outcome(t))];
      }
      unfinished := unfinished - 1;
      ServedIsPass(before, w, outcome(t));
      PassKeepsInv(before, w, outcome(t), View());
    }

    /**
     A worker left alone after the shutdown serves every queued task in order and goes: pending
     tasks get their function's outcome, cancelled ones are only notified, no other future changes.
     */
    method WorkAlone(w: WorkerId, outcome: TaskId -> Outcome) returns (served: seq<TaskId>)
      requires Inv(View()) && isShutdown && In(View(), w, Polling)
      modifies this
      ensures Inv(View()) && workQueue == [] && workers == old(workers) - {w} && threads == old(threads) - {w}
      ensures served == old(workQueue) && unfinished == old(unfinished) - |served|
      ensures AllServed(old(futures), futures, served, outcome)
    {
      ghost var start := View();
      served := [];
      assert NoRepeats(start.queue);
      hide Inv, IsPass, Served, Progress, AllServed;
      ProgressStart(start, outcome);
      while workQueue != []
        invariant Inv(View()) && isShutdown && In(View(), w, Polling)
        invariant Progress(start, View(), outcome, served)
        decreases |workQueue|
      {
        QueueHead(View());
        ProgressStep(start, View(), outcome, served);
        var t := ServeOne(w, outcome);
        served := served + [t];
      }
      ProgressEnd(start, View(), outcome, served);
      LeavesWhenEmpty(View(), w);
      workers, threads := workers - {w}, threads - {w};
    }
  }

  /** Served futures have their function's outcome, or are notified when cancelled; the others are as they were. */
  predicate AllServed(
      before: map<TaskId, Future>, after: map<TaskId, Future>, served: seq<TaskId>, outcome: TaskId -> Outcome)
  {
    && after.Keys == before.Keys
    && (forall t :: t in before && t !in served ==> after[t] == before[t])
    && forall t :: t in before && t in served ==>
         after[t] == if before[t].Cancelled? then CancelledAndNotified else Finished(outcome(t))
  }

  /** From `s0`, these tasks have been taken from the queue and served, and nothing else has happened. */
  ghost predicate Progress(s0: State, s: State, outcome: TaskId -> Outcome, served: seq<TaskId>) {
    && s0.queue == served + s.queue
    && s == s0.(queue := s.queue, unfinished := s0.unfinished - |served|, futures := s.futures, calls := s.calls)
    && AllServed(s0.futures, s.futures, served, outcome)
  }

  lemma ProgressStart(s0: State, outcome: TaskId -> Outcome)
    ensures Progress(s0, s0, outcome, [])
  {
  }

  lemma ProgressStep(s0: State, s: State, outcome: TaskId -> Outcome, served: seq<TaskId>)
    requires Progress(s0, s, outcome, served) && NoRepeats(s0.queue)
    requires s.queue != [] && s.queue[0] in s.futures && s.queue[0] in s.calls
    ensures Served(s, outcome(s.queue[0])).workers == s.workers
    ensures Served(s, outcome(s.queue[0])).queue == s.queue[1..]
    ensures Served(s, outcome(s.queue[0])).shutdown == s.shutdown
    ensures Progress(s0, Served(s, outcome(s.queue[0])), outcome, served + [s.queue[0]])
  {
    var t, s' := s.queue[0], Served(s, outcome(s.queue[0]));
    assert t == s0.queue[|served|];
    assert forall i :: 0 <= i < |served| ==> served[i] == s0.queue[i];
    assert t !in served;
    assert s0.queue == served + [t] + s'.queue;
  }

  lemma ProgressEnd(s0: State, s: State, outcome: TaskId -> Outcome, served: seq<TaskId>)
    requires Progress(s0, s, outcome, served) && s.queue == []
    ensures s == s0.(queue := [], unfinished := s0.unfinished - |s0.queue|, futures := s.futures, calls := s.calls)
    ensures served == s0.queue && AllServed(s0.futures, s.futures, served, outcome)
  {
  }

  /** What serving makes of a queued task's future. */
  function After(f: Future, outcome: Outcome): Future {
    if f.Cancelled? then CancelledAndNotified else Finished(outcome)
  }

  /** One undisturbed pass of the worker's loop. */
  function Served(s: State, outcome: Outcome): State
    requires s.queue != [] && s.queue[0] in s.futures && s.queue[0] in s.calls
  {
    var t := s.queue[0];
    s.(queue := s.queue[1..], unfinished := s.unfinished - 1,
       futures := s.futures[t := After(s.futures[t], outcome)],
       calls := if s.futures[t].Cancelled? then s.calls else s.calls[t := s.calls[t] + 1])
  }

  lemma QueueHead(s: State)
    requires Inv(s) && s.queue != []
    ensures s.queue[0] in s.futures && s.queue[0] in s.calls && s.queue[0] !in s.queue[1..]
    ensures s.futures[s.queue[0]].Pending? || s.futures[s.queue[0]].Cancelled?
  {
    assert s.queue[0] in s.queue;
  }

  /** The pass is the steps get, claim, settle (unless cancelled) and task_done, one after the other. */
  ghost predicate IsPass(s: State, w: WorkerId, outcome: Outcome, s': State) {
    Enabled(s, Get(w)) &&
    var s1 := Apply(s, Get(w));
    Enabled(s1, Claim(w)) &&
    var s2 := Apply(s1, Claim(w));
    var s3 := if Enabled(s2, Settle(w, outcome)) then Apply(s2, Settle(w, outcome)) else s2;
    Enabled(s3, TaskDone(w)) && s' == Apply(s3, TaskDone(w))
  }

  lemma CancelledIsPass(s: State, w: WorkerId, outcome: Outcome)
    requires s.queue != [] && s.queue[0] in s.futures && s.queue[0] in s.calls && In(s, w, Polling)
    requires s.futures[s.queue[0]].Cancelled?
    ensures IsPass(s, w, outcome, Served(s, outcome))
  {
    var t := s.queue[0];
    var s2 := Apply(Apply(s, Get(w)), Claim(w));
    assert s2 == s.(queue := s.queue[1..], workers := s.workers[w := Settled(t)],
                    futures := s.futures[t := CancelledAndNotified]);
    assert Apply(s2, TaskDone(w)).workers == s.workers;
  }

  lemma CalledIsPass(s: State, w: WorkerId, outcome: Outcome)
    requires s.queue != [] && s.queue[0] in s.futures && s.queue[0] in s.calls && In(s, w, Polling)
    requires !s.futures[s.queue[0]].Cancelled?
    ensures IsPass(s, w, outcome, Served(s, outcome))
  {
    var t := s.queue[0];
    var s2 := s.(queue := s.queue[1..], workers := s.workers[w := Calling(t)],
                 futures := s.futures[t := Running], calls := s.calls[t := s.calls[t] + 1]);
    var s3 := s2.(workers := s.workers[w := Settled(t)], futures := s.futures[t := Finished(outcome)]);
    TakenAndCalled(s, w, s2);
    SettledAndDone(s, w, t, outcome, s2, s3);
    assert s3.(workers := s.workers, unfinished := s.unfinished - 1) == Served(s, outcome);
    hide Apply, Enabled, Served;
  }

  lemma TakenAndCalled(s: State, w: WorkerId, s2: State)
    requires s.queue != [] && s.queue[0] in s.futures && s.queue[0] in s.calls && In(s, w, Polling)
    requires !s.futures[s.queue[0]].Cancelled?
    requires var t := s.queue[0];
      s2 == s.(queue := s.queue[1..], workers := s.workers[w := Calling(t)],
               futures := s.futures[t := Running], calls := s.calls[t := s.calls[t] + 1])
    ensures Enabled(s, Get(w)) && Enabled(Apply(s, Get(w)), Claim(w)) && Apply(Apply(s, Get(w)), Claim(w)) == s2
  {
  }

  lemma SettledAndDone(s: State, w: WorkerId, t: TaskId, outcome: Outcome, s2: State, s3: State)
    requires In(s, w, Polling) && t in s.futures
    requires s2.workers == s.workers[w := Calling(t)] && s2.futures == s.futures[t := Running]
    requires s3 == s2.(workers := s.workers[w := Settled(t)], futures := s.futures[t := Finished(outcome)])
    ensures Enabled(s2, Settle(w, outcome)) && Apply(s2, Settle(w, outcome)) == s3
    ensures Enabled(s3, TaskDone(w))
    ensures Apply(s3, TaskDone(w)) == s3.(workers := s.workers, unfinished := s3.unfinished - 1)
  {
  }

  lemma ServedIsPass(s: State, w: WorkerId, outcome: Outcome)
    requires s.queue != [] && s.queue[0] in s.futures && s.queue[0] in s.calls && In(s, w, Polling)
    ensures IsPass(s, w, outcome, Served(s, outcome))
  {
    hide IsPass, Served;
    if s.futures[s.queue[0]].Cancelled? {
      CancelledIsPass(s, w, outcome);
    } else {
      CalledIsPass(s, w, outcome);
    }
  }

  lemma PassKeepsInv(s: State, w: WorkerId, outcome: Outcome, s': State)
    requires Inv(s) && IsPass(s, w, outcome, s')
    ensures Inv(s')
  {
    hide Inv, Apply, Enabled;
    InvKept(s, Get(w));
    var s1 := Apply(s, Get(w));
    InvKept(s1, Claim(w));
    var s2 := Apply(s1, Claim(w));
    if Enabled(s2, Settle(w, outcome)) {
      InvKept(s2, Settle(w, outcome));
      InvKept(Apply(s2, Settle(w, outcome)), TaskDone(w));
    } else {
      InvKept(s2, TaskDone(w));
    }
  }

  lemma LeavesWhenEmpty(s: State, w: WorkerId)
    requires Inv(s) && s.shutdown && In(s, w, Polling) && s.queue == []
    ensures Inv(s.(workers := s.workers - {w}, threads := s.threads - {w}))
  {
    hide Inv;
    var s1 := Apply(s, TimeOut(w));
    InvKept(s, TimeOut(w));
    var s2 := Apply(s1, CheckShutdown(w));
    InvKept(s1, CheckShutdown(w));
    InvKept(s2, Leave(w));
    assert Apply(s2, Leave(w)) == s.(workers := s.workers - {w}, threads := s.threads - {w});
  }

  /** The two halves of the locked region of `submit`, with no worker in between. */
  ghost predicate IsSubmit(s: State, t: TaskId, thread: WorkerId, s': State) {
    && Enabled(s, SubmitPut(t)) && Enabled(Apply(s, SubmitPut(t)), SubmitFinish(thread))
    && s' == Apply(Apply(s, SubmitPut(t)), SubmitFinish(thread))
  }

  function Accepted(s: State, t: TaskId, thread: WorkerId): State {
    var s' := s.(queue := s.queue + [t], unfinished := s.unfinished + 1,
                 futures := s.futures[t := Pending], calls := s.calls[t := 0]);
    if |s.threads| < s.maxWorkers
    then s'.(workers := s.workers[thread := Polling], threads := s.threads + {thread})
    else s'
  }

  lemma NewThread(s: State, thread: WorkerId)
    requires Inv(s) && thread !in s.workers
    ensures thread !in s.threads
  {
    hide QueueOk, HoldersOk, FuturesOk, CallsOk, CounterOk;
  }

  lemma SubmitMakes(s: State, t: TaskId, thread: WorkerId)
    requires Inv(s) && !s.shutdown && !s.submitting && t !in s.futures && thread !in s.workers
    ensures IsSubmit(s, t, thread, Accepted(s, t, thread)) && Inv(Accepted(s, t, thread))
  {
    NewThread(s, thread);
    hide Inv;
    InvKept(s, SubmitPut(t));
    InvKept(Apply(s, SubmitPut(t)), SubmitFinish(thread));
  }
}
