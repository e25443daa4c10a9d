/** Discovery and subscriptions together: subscribers on one node get a URL for what another node has published. */
module PublishSubscribe {
  import opened Wrappers
  import opened NodeInfoCodec
  import opened NodeTable
  import opened Rosters
  import opened Displacement
  import opened DiscoveryLaws
  import D = Discovery
  import S = Subscriptions

  /** What a step of the network is on the node `r`, if anything; `ipc` are the answers its handlers get. */
  function OpOn(c: D.Config, r: D.Id, s: D.State, step: D.Step, ipc: seq<bool>): Option<S.Op>
    requires D.Enabled(c, s, step)
  {
    match step
    case Deliver(r', b) => if r' == r then Some(S.Heartbeat(b.id, s.clock[r])) else None
    case Reply(f) =>
      if s.fetches[f].receiver == r
      then Some(S.Reply(s.fetches[f].phase.info, s.fetches[f].beat.sourceIp, s.clock[r], ipc)) else None
    case Sweep(r', readings, _) => if r' == r then Some(S.Sweep(readings)) else None
    case _ => None
  }

  ghost predicate Moves(v: S.NodeState, op: Option<S.Op>, v': S.NodeState) {
    match op
    case None => v' == v
    case Some(op) => S.Enabled(v, op) && v' == S.Apply(v, op)
  }

  ghost predicate Runs(v: S.NodeState, ops: seq<S.Op>, v': S.NodeState)
    decreases |ops|
  {
    if ops == [] then v' == v
    else S.Enabled(v, ops[0]) && Runs(S.Apply(v, ops[0]), ops[1..], v')
  }

  /** The operations that the node's own program calls. */
  predicate IsLocal(op: S.Op) {
    op.Publish? || op.Offer? || op.Subscribe? || op.Stop?
  }

  predicate AllLocal(ops: seq<S.Op>) {
    forall i :: 0 <= i < |ops| ==> IsLocal(ops[i])
  }

  /**
   The life of the node `r` along a run of the network: it starts new, each step of the network moves
   it, and after each step it may publish, offer, subscribe and stop as often as it likes.
   */
  ghost predicate LivesIn(
      c: D.Config, r: D.Id, states: seq<D.State>, steps: seq<D.Step>,
      life: seq<S.NodeState>, ipc: seq<seq<bool>>, ops: seq<seq<S.Op>>)
    requires D.IsTrace(c, states, steps)
  {
    && |life| == |states| && |ipc| == |ops| == |steps|
    && life[0] == S.Initial(life[0].site, life[0].local)
    && forall i :: 0 <= i < |steps| ==> LivesOn(c, r, states[i], steps[i], life[i], ipc[i], ops[i], life[i + 1])
  }

  ghost predicate LivesOn(
      c: D.Config, r: D.Id, s: D.State, step: D.Step, v: S.NodeState, ipc: seq<bool>, ops: seq<S.Op>, v': S.NodeState)
    requires D.Enabled(c, s, step)
  {
    AllLocal(ops) && exists between :: Moves(v, OpOn(c, r, s, step, ipc), between) && Runs(between, ops, v')
  }

  lemma {:induction false} LocalOpsKeep(v: S.NodeState, ops: seq<S.Op>, v': S.NodeState)
    requires S.Inv(v) && AllLocal(ops) && Runs(v, ops, v')
    ensures S.Inv(v') && v'.table == v.table && v'.site == v.site
    decreases |ops|
  {
    hide S.Inv;
    if ops != [] {
      assert IsLocal(ops[0]);
      S.InvKept(v, ops[0]);
      LocalOpsKeep(S.Apply(v, ops[0]), ops[1..], v');
    }
  }

  /** The step does to the node's table what it does to the network's. */
  lemma MovesTable(c: D.Config, r: D.Id, s: D.State, step: D.Step, ipc: seq<bool>, v: S.NodeState, v': S.NodeState)
    requires D.Enabled(c, s, step) && Moves(v, OpOn(c, r, s, step, ipc), v')
    requires S.Inv(v) && r in s.tables && v.table == s.tables[r]
    ensures S.Inv(v') && v'.site == v.site
    ensures r in D.Apply(c, s, step).tables && v'.table == D.Apply(c, s, step).tables[r]
  {
    hide S.Inv, D.OwnerAfter, D.PhaseAfter, Updated, Contacted, Without, Stale, SweepRaises, CheckInfo, AtHome;
    var op := OpOn(c, r, s, step, ipc);
    if op.Some? {
      S.InvKept(v, op.value);
    }
  }

  lemma {:induction false} SharedTable(
      c: D.Config, r: D.Id, states: seq<D.State>, steps: seq<D.Step>,
      life: seq<S.NodeState>, ipc: seq<seq<bool>>, ops: seq<seq<S.Op>>, i: nat)
    requires D.IsRun(c, states, steps) && r in c && LivesIn(c, r, states, steps, life, ipc, ops) && i < |states|
    ensures S.Inv(life[i]) && life[i].site == life[0].site
    ensures r in states[i].tables && life[i].table == states[i].tables[r]
  {
    if i == 0 {
      assert S.Inv(life[0]);
    } else {
      hide S.Inv, D.Enabled, D.Apply, OpOn, Moves, Runs, S.Apply;
      SharedTable(c, r, states, steps, life, ipc, ops, i - 1);
      assert LivesOn(c, r, states[i - 1], steps[i - 1], life[i - 1], ipc[i - 1], ops[i - 1], life[i]);
      var between :| Moves(life[i - 1], OpOn(c, r, states[i - 1], steps[i - 1], ipc[i - 1]), between)
        && Runs(between, ops[i - 1], life[i]);
      MovesTable(c, r, states[i - 1], steps[i - 1], ipc[i - 1], life[i - 1], between);
      LocalOpsKeep(between, ops[i - 1], life[i]);
    }
  }

  /** The publication as others reach it: under the address its owner is heard at. */
  function Reachable(c: D.Config, n: D.Id, p: SocketInfo): SocketInfo
    requires n in c
  {
    p.(ip := c[n].sourceIp)
  }

  lemma SettledShows(c: D.Config, s: D.State, r: D.Id, n: D.Id, p: SocketInfo)
    requires D.Inv(c, s) && Settled(s, r, n) && p in s.own[n].topics
    ensures n in c && n in s.tables[r].info && Reachable(c, n, p) in s.tables[r].info[n].topics
  {
    hide D.BeatsOk, D.FetchesOk, D.OwnersOk;
    D.TableAt(c, s.own, s.tables, r);
    var info := s.tables[r].info[n];
    assert D.RecordOk(c, s.own, r, n, info) && Homed(info);
    var i :| 0 <= i < |s.own[n].topics| && s.own[n].topics[i] == p;
    assert info.topics[i].name == p.name && info.topics[i].port == p.port && info.topics[i].ip == info.ip;
  }

  /**
   Whenever the view of `n` at `r` is settled and `r` still listens, the list of each current subscriber
   of `r` holds a URL, TCP or on one host IPC, for every publication that `n` has registered for its topic.
   */
  lemma SettledIsSubscribed(
      c: D.Config, r: D.Id, states: seq<D.State>, steps: seq<D.Step>,
      life: seq<S.NodeState>, ipc: seq<seq<bool>>, ops: seq<seq<S.Op>>, i: nat, n: D.Id, p: SocketInfo, x: nat)
    requires D.IsRun(c, states, steps) && r in c && LivesIn(c, r, states, steps, life, ipc, ops) && i < |states|
    requires Settled(states[i], r, n) && life[i].listening && p in states[i].own[n].topics
    requires Current(life[i].roster, x) && life[i].roster.subs[x].topic == p.name
    ensures n in c && S.Covered(life[0].site, life[i].roster.subs[x].urls, Reachable(c, n, p))
  {
    hide D.Inv, D.Apply, D.Enabled, LivesOn, Coherent, S.Tidy, S.Covered;
    SharedTable(c, r, states, steps, life, ipc, ops, i);
    D.RunInv(c, states, steps, i);
    SettledShows(c, states[i], r, n, p);
    assert S.Published(life[i], Reachable(c, n, p));
    assert S.Lists(life[i])[p.name] == life[i].roster.subs[x].urls;
  }

  /**
   End to end. Once `n` has registered its topics, no outdated fetch is left that lands at `r`, a heartbeat
   that `n` sent afterwards was delivered at `r` and the fetch it started was answered: as long as `n` is not
   forgotten and `r` listens, every current subscriber of `r`, whenever it was added, holds a URL for all
   that `n` publishes under its topic.
   */
  lemma PublicationsAreReached(
      c: D.Config, r: D.Id, states: seq<D.State>, steps: seq<D.Step>,
      life: seq<S.NodeState>, ipc: seq<seq<bool>>, ops: seq<seq<S.Op>>,
      n: D.Id, a: nat, h: nat, i: nat, j: nat, k: nat, b: D.Beat, p: SocketInfo, x: nat)
    requires D.IsRun(c, states, steps) && r in c && LivesIn(c, r, states, steps, life, ipc, ops)
    requires a <= h < i < j < k < |states| && n in states[a].own && QuietFrom(steps, a, n)
    requires states[a].own[n].pending == 0 && OutdatedAt(states[a], r, n) == {}
    requires steps[h] == D.Send(n) && IsBeatOf(c, states[h], n, b) && steps[i] == D.Deliver(r, b)
    requires Exact(states[i + 1], r, n) || steps[j] == D.Reply(states[i].nextFetch)
    requires forall m :: i < m < k ==> !Forgets(c, states[m], steps[m], r, n)
    requires life[k].listening && p in states[a].own[n].topics
    requires Current(life[k].roster, x) && life[k].roster.subs[x].topic == p.name
    ensures b in states[h + 1].beats
    ensures S.Covered(life[0].site, life[k].roster.subs[x].urls, Reachable(c, n, p))
  {
    SendSends(c, states[h], n, b);
    hide D.Inv, D.Apply, D.Enabled, Settled, LivesOn, Forgets, OutdatedAt, Exact, S.Covered;
    D.RunInv(c, states, steps, a);
    StaysQuiet(c, states, steps, a, h, r, n);
    BeatSettles(c, states, steps, n, r, b, a, i, j, k);
    StaysQuiet(c, states, steps, a, k, r, n);
    SettledIsSubscribed(c, r, states, steps, life, ipc, ops, k, n, p, x);
  }

  // ---------- every running subscriber ----------

  /** None of these operations subscribes a topic that a running subscriber has. */
  ghost predicate RunsGently(v: S.NodeState, ops: seq<S.Op>)
    decreases |ops|
  {
    ops != [] ==> S.Enabled(v, ops[0]) && !Displaces(v, ops[0]) && RunsGently(S.Apply(v, ops[0]), ops[1..])
  }

  ghost predicate LivesGently(
      c: D.Config, r: D.Id, states: seq<D.State>, steps: seq<D.Step>,
      life: seq<S.NodeState>, ipc: seq<seq<bool>>, ops: seq<seq<S.Op>>)
    requires D.IsTrace(c, states, steps) && |life| == |states| && |ipc| == |ops| == |steps|
  {
    forall i, between :: 0 <= i < |steps| && Moves(life[i], OpOn(c, r, states[i], steps[i], ipc[i]), between) ==>
      RunsGently(between, ops[i])
  }

  lemma {:induction false} GentleOpsKeep(v: S.NodeState, ops: seq<S.Op>, v': S.NodeState)
    requires Runs(v, ops, v') && RunsGently(v, ops) && NoStrays(v.roster)
    ensures NoStrays(v'.roster)
    decreases |ops|
  {
    hide NoStrays, Displaces;
    if ops != [] {
      StraysStep(v, ops[0]);
      GentleOpsKeep(S.Apply(v, ops[0]), ops[1..], v');
    }
  }

  lemma MovesKeepNoStrays(
      c: D.Config, r: D.Id, s: D.State, step: D.Step, ipc: seq<bool>, v: S.NodeState, v': S.NodeState)
    requires D.Enabled(c, s, step) && Moves(v, OpOn(c, r, s, step, ipc), v') && NoStrays(v.roster)
    ensures NoStrays(v'.roster)
  {
    hide NoStrays, S.Enabled, S.Apply;
    var op := OpOn(c, r, s, step, ipc);
    if op.Some? {
      StraysStep(v, op.value);
    }
  }

  lemma {:induction false} GentleLife(
      c: D.Config, r: D.Id, states: seq<D.State>, steps: seq<D.Step>,
      life: seq<S.NodeState>, ipc: seq<seq<bool>>, ops: seq<seq<S.Op>>, i: nat)
    requires D.IsTrace(c, states, steps) && LivesIn(c, r, states, steps, life, ipc, ops) && i < |states|
    requires LivesGently(c, r, states, steps, life, ipc, ops)
    ensures NoStrays(life[i].roster)
  {
    hide D.Enabled, D.Apply, OpOn, Moves, Runs, RunsGently, S.Apply, NoStrays, S.Initial;
    if i == 0 {
      NewHasNoStrays(life[0]);
    } else {
      GentleLife(c, r, states, steps, life, ipc, ops, i - 1);
      assert LivesOn(c, r, states[i - 1], steps[i - 1], life[i - 1], ipc[i - 1], ops[i - 1], life[i]);
      var between :| Moves(life[i - 1], OpOn(c, r, states[i - 1], steps[i - 1], ipc[i - 1]), between)
        && Runs(between, ops[i - 1], life[i]);
      MovesKeepNoStrays(c, r, states[i - 1], steps[i - 1], ipc[i - 1], life[i - 1], between);
      GentleOpsKeep(between, ops[i - 1], life[i]);
    }
  }

  /** Along a life that never subscribes a topic a running subscriber has, a settled view serves every running one. */
  lemma EveryRunningIsSubscribed(
      c: D.Config, r: D.Id, states: seq<D.State>, steps: seq<D.Step>,
      life: seq<S.NodeState>, ipc: seq<seq<bool>>, ops: seq<seq<S.Op>>, i: nat, n: D.Id, p: SocketInfo, x: nat)
    requires D.IsRun(c, states, steps) && r in c && LivesIn(c, r, states, steps, life, ipc, ops) && i < |states|
    requires LivesGently(c, r, states, steps, life, ipc, ops)
    requires Settled(states[i], r, n) && life[i].listening && p in states[i].own[n].topics
    requires x < |life[i].roster.subs| && life[i].roster.subs[x].running && life[i].roster.subs[x].topic == p.name
    ensures n in c && S.Covered(life[0].site, life[i].roster.subs[x].urls, Reachable(c, n, p))
  {
    hide D.Apply, D.Enabled, LivesOn, LivesGently, Settled, S.Covered;
    GentleLife(c, r, states, steps, life, ipc, ops, i);
    SettledIsSubscribed(c, r, states, steps, life, ipc, ops, i, n, p, x);
  }
}
