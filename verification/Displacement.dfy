/**
 What becomes of a subscriber whose topic is subscribed again: it leaves the dictionary, hears of no
 publication from then on, and `stop` does not close it.
 */
module Displacement {
  import opened Utf8
  import opened NodeInfoCodec
  import opened NodeTable
  import opened Rosters
  import opened Subscriptions

  predicate Resubscribes(op: Op, topic: Text) {
    op.Subscribe? && op.topic == topic
  }

  // ---------- one operation ----------

  lemma RosterUnderAnnounce(s: NodeState, topics: seq<SocketInfo>, ipc: seq<bool>, i: nat)
    requires |ipc| == |topics| && i < |s.roster.subs|
    ensures var r := Announce(s, topics, ipc);
      && r.dict == s.roster.dict && |r.subs| == |s.roster.subs|
      && r.subs[i].topic == s.roster.subs[i].topic && r.subs[i].running == s.roster.subs[i].running
      && (!Current(s.roster, i) ==> r.subs[i] == s.roster.subs[i])
  {
    if s.listening {
      ToldSpares(s.site, s.roster, topics, ipc, i);
    }
  }

  /**
   One operation on one subscriber, exactly. A current subscriber stays current if and only if its topic
   is not subscribed again; a displaced one is changed by nothing; a running one is closed if and only if
   the operation is `stop` and it is current.
   */
  lemma SubscriberStep(s: NodeState, op: Op, i: nat)
    requires Enabled(s, op) && i < |s.roster.subs|
    ensures var r, r' := s.roster, Apply(s, op).roster;
      && i < |r'.subs| && r'.subs[i].topic == r.subs[i].topic
      && (Current(r', i) <==> Current(r, i) && !Resubscribes(op, r.subs[i].topic))
      && (!Current(r, i) ==> r'.subs[i] == r.subs[i])
      && (r'.subs[i].running <==> r.subs[i].running && !(op.Stop? && Current(r, i)))
  {
    hide Updated, Contacted, Without, Stale, SweepRaises, Lookup, ConnectedAll, Told;
    match op
    case Reply(info, nodeIp, _, ipc) => RosterUnderAnnounce(s, AtHome(info.(ip := nodeIp)).topics, ipc, i);
    case Publish(_, _, ipc) => RosterUnderAnnounce(s, Apply(s, op).local.topics, ipc, i);
    case _ =>
  }

  // ---------- runs ----------

  /** No operation from state `a` up to state `k` subscribes the topic. */
  predicate NotSubscribedIn(ops: seq<Op>, a: nat, k: nat, topic: Text)
    requires k <= |ops|
  {
    forall m :: a <= m < k ==> !Resubscribes(ops[m], topic)
  }

  /** A subscriber is current for as long as its topic is not subscribed again. */
  lemma {:induction false} CurrentExactly(states: seq<NodeState>, ops: seq<Op>, a: nat, k: nat, i: nat)
    requires IsTrace(states, ops) && a <= k < |states| && Current(states[a].roster, i)
    ensures i < |states[k].roster.subs| && states[k].roster.subs[i].topic == states[a].roster.subs[i].topic
    ensures Current(states[k].roster, i) <==> NotSubscribedIn(ops, a, k, states[a].roster.subs[i].topic)
    decreases k
  {
    hide Enabled, Apply, Current, Resubscribes;
    InRange(states[a].roster, i);
    if a < k {
      CurrentExactly(states, ops, a, k - 1, i);
      SubscriberStep(states[k - 1], ops[k - 1], i);
    }
  }

  lemma InRange(r: Roster, i: nat)
    requires Current(r, i)
    ensures i < |r.subs|
  {
  }

  /** A displaced subscriber keeps its list and its state, whatever is published or stopped. */
  lemma {:induction false} DisplacedForever(states: seq<NodeState>, ops: seq<Op>, a: nat, k: nat, i: nat)
    requires IsTrace(states, ops) && a <= k < |states| && i < |states[a].roster.subs| && !Current(states[a].roster, i)
    ensures i < |states[k].roster.subs| && !Current(states[k].roster, i)
    ensures states[k].roster.subs[i] == states[a].roster.subs[i]
    decreases k
  {
    hide Enabled, Apply, Current, Resubscribes;
    if a < k {
      DisplacedForever(states, ops, a, k - 1, i);
      SubscriberStep(states[k - 1], ops[k - 1], i);
    }
  }

  /** A running current subscriber is closed exactly by a `stop` that comes before its topic is subscribed again. */
  lemma {:induction false} ClosedExactly(states: seq<NodeState>, ops: seq<Op>, a: nat, k: nat, i: nat)
    requires IsTrace(states, ops) && a <= k < |states|
    requires Current(states[a].roster, i) && states[a].roster.subs[i].running
    ensures i < |states[k].roster.subs|
    ensures !states[k].roster.subs[i].running <==>
      exists m :: (a <= m < k && ops[m].Stop? && NotSubscribedIn(ops, a, m, states[a].roster.subs[i].topic))
    decreases k
  {
    hide Enabled, Apply, Current, Resubscribes, NotSubscribedIn;
    InRange(states[a].roster, i);
    if a < k {
      ClosedExactly(states, ops, a, k - 1, i);
      CurrentExactly(states, ops, a, k - 1, i);
      SubscriberStep(states[k - 1], ops[k - 1], i);
    }
  }

  // ---------- all subscribers ----------

  /** The operation subscribes a topic that a running subscriber has: the guard a caller can look at. */
  predicate Displaces(s: NodeState, op: Op) {
    op.Subscribe? && op.topic in s.roster.dict && s.roster.subs[s.roster.dict[op.topic]].running
  }

  /** No subscriber runs that the dictionary does not hold. */
  predicate NoStrays(r: Roster) {
    forall i :: 0 <= i < |r.subs| && r.subs[i].running ==> Current(r, i)
  }

  /** A new subscriber, if there is one, is current. */
  lemma NewIsCurrent(s: NodeState, op: Op, i: nat)
    requires Enabled(s, op) && |s.roster.subs| <= i < |Apply(s, op).roster.subs|
    ensures Current(Apply(s, op).roster, i)
  {
    hide Updated, Contacted, Without, Stale, SweepRaises, Lookup, ConnectedAll, Told;
  }

  lemma StraysStep(s: NodeState, op: Op)
    requires Enabled(s, op)
    ensures NoStrays(Apply(s, op).roster) <==> NoStrays(s.roster) && !Displaces(s, op)
  {
    var r, r' := s.roster, Apply(s, op).roster;
    hide Apply, Enabled;
    forall i | 0 <= i < |r.subs|
      ensures i < |r'.subs| && r'.subs[i].topic == r.subs[i].topic
      ensures Current(r', i) <==> Current(r, i) && !Resubscribes(op, r.subs[i].topic)
      ensures !Current(r, i) ==> r'.subs[i] == r.subs[i]
      ensures r'.subs[i].running <==> r.subs[i].running && !(op.Stop? && Current(r, i))
    {
      SubscriberStep(s, op, i);
    }
    forall i | |r.subs| <= i < |r'.subs|
      ensures Current(r', i)
    {
      NewIsCurrent(s, op, i);
    }
    if Displaces(s, op) {
      var i := r.dict[op.topic];
      assert Current(r, i) && !Current(r', i) && r'.subs[i].running;
    }
  }

  lemma NewHasNoStrays(s: NodeState)
    requires s == Initial(s.site, s.local)
    ensures NoStrays(s.roster)
  {
  }

  /** Every running subscriber is current if and only if no running one was displaced so far. */
  lemma {:induction false} NoStraysExactly(states: seq<NodeState>, ops: seq<Op>, k: nat)
    requires IsTrace(states, ops) && k < |states| && states[0] == Initial(states[0].site, states[0].local)
    ensures NoStrays(states[k].roster) <==> forall m :: 0 <= m < k ==> !Displaces(states[m], ops[m])
  {
    hide Enabled, Apply, Displaces, NoStrays, Initial;
    if k == 0 {
      NewHasNoStrays(states[0]);
    } else {
      NoStraysExactly(states, ops, k - 1);
      StraysStep(states[k - 1], ops[k - 1]);
    }
  }

  predicate NoneRuns(r: Roster) {
    forall i :: 0 <= i < |r.subs| ==> !r.subs[i].running
  }

  lemma StopClosesCurrent(s: NodeState)
    ensures NoStrays(s.roster) <==> NoneRuns(Apply(s, Stop).roster)
  {
    var r, r' := s.roster, Closed(s.roster);
    assert Apply(s, Stop).roster == r';
    assert forall i :: 0 <= i < |r.subs| ==> (r'.subs[i].running <==> r.subs[i].running && !Current(r, i));
  }

  /** A `stop` leaves no subscriber running if and only if no running one was displaced before it. */
  lemma StopClosesAllExactly(states: seq<NodeState>, ops: seq<Op>, k: nat)
    requires IsTrace(states, ops) && k < |ops| && ops[k].Stop?
    requires states[0] == Initial(states[0].site, states[0].local)
    ensures NoneRuns(states[k + 1].roster) <==> forall m :: 0 <= m < k ==> !Displaces(states[m], ops[m])
  {
    NoStraysExactly(states, ops, k);
    StopClosesCurrent(states[k]);
    hide Displaces, NoneRuns, NoStrays;
  }

  /** Until `stop`, and while no running subscriber is displaced, every running subscriber is complete. */
  lemma EveryoneIsComplete(states: seq<NodeState>, ops: seq<Op>, k: nat, i: nat, order: seq<Text>)
    requires IsTrace(states, ops) && k < |states| && states[0] == Initial(states[0].site, states[0].local)
    requires forall m :: 0 <= m < k ==> !Displaces(states[m], ops[m])
    requires states[k].listening && i < |states[k].roster.subs| && states[k].roster.subs[i].running
    requires Enumerates(order, states[k].table.info)
    ensures forall p :: p in Lookup(states[k].table, order, states[k].local, Topic, states[k].roster.subs[i].topic) ==>
      Covered(states[k].site, states[k].roster.subs[i].urls, p)
  {
    NoStraysExactly(states, ops, k);
    SubscriptionsComplete(states, ops, k, i, order);
  }

  // ---------- a run that shows it ----------

  /** Two running subscribers of the publication's topic, of which only the second has a URL for it. */
  ghost predicate FirstMisses(s: NodeState, p: SocketInfo) {
    && s.listening && Published(s, p) && |s.roster.subs| == 2
    && s.roster.subs[0].topic == s.roster.subs[1].topic == p.name
    && s.roster.subs[0].running && s.roster.subs[1].running
    && !Covered(s.site, s.roster.subs[0].urls, p) && Covered(s.site, s.roster.subs[1].urls, p)
  }

  predicate FirstRunsOn(s: NodeState) {
    |s.roster.subs| == 2 && s.roster.subs[0].running && !s.roster.subs[1].running
  }

  lemma TwiceAdded(topic: Text)
    ensures var one := Register([Sub(topic, [], true)], map[topic := 0]);
      && Added(Register([], map[]), topic, []) == one
      && Added(one, topic, []) == Register([Sub(topic, [], true), Sub(topic, [], true)], map[topic := 1])
  {
  }

  /** With nothing published, a new subscriber starts with an empty list. */
  lemma Subscribes(s: NodeState, topic: Text)
    requires s.table == EMPTY && s.local.topics == []
    ensures Enabled(s, Subscribe(topic, [], []))
    ensures Apply(s, Subscribe(topic, [], [])) == s.(roster := Added(s.roster, topic, []))
  {
    assert Lookup(s.table, [], s.local, Topic, topic) == [];
  }

  /** The publication reaches the second of two subscribers. */
  lemma Publishes(s: NodeState, topic: Text, port: int)
    requires s.listening && s.local.topics == []
    requires s.roster == Register([Sub(topic, [], true), Sub(topic, [], true)], map[topic := 1])
    ensures Enabled(s, Publish(topic, port, [false]))
    ensures var p, s' := SocketInfo(topic, s.local.ip, port), Apply(s, Publish(topic, port, [false]));
      && FirstMisses(s', p)
      && s'.roster == Register([Sub(topic, [], true), Sub(topic, [TcpUrl(p)], true)], map[topic := 1])
  {
    hide TcpUrl, IpcUrl, Told;
    var p := SocketInfo(topic, s.local.ip, port);
    assert s.local.topics + [p] == [p];
    SecondIsTold(s.site, s.roster, topic, p);
  }

  lemma SecondIsTold(site: Site, r: Roster, topic: Text, p: SocketInfo)
    requires r == Register([Sub(topic, [], true), Sub(topic, [], true)], map[topic := 1]) && p.name == topic
    ensures Told(site, r, [p], [false]) ==
      Register([Sub(topic, [], true), Sub(topic, [TcpUrl(p)], true)], map[topic := 1])
  {
    hide TcpUrl, IpcUrl;
    assert [p][..0] == [] && [false][..0] == [];
    assert Told(site, r, [p], [false]) == ToldOne(site, r, p, false);
    assert Connected([], ConnectUrl(site, p, false)) == [TcpUrl(p)];
  }

  lemma Stops(s: NodeState, topic: Text)
    requires |s.roster.subs| == 2 && s.roster.dict == map[topic := 1]
    requires s.roster.subs[0].topic == s.roster.subs[1].topic == topic && s.roster.subs[0].running
    ensures Enabled(s, Stop) && FirstRunsOn(Apply(s, Stop))
  {
    assert Current(s.roster, 1) && !Current(s.roster, 0);
  }

  lemma FourOps(
      s0: NodeState, o0: Op, s1: NodeState, o1: Op, s2: NodeState, o2: Op, s3: NodeState, o3: Op, s4: NodeState)
    requires Enabled(s0, o0) && s1 == Apply(s0, o0) && Enabled(s1, o1) && s2 == Apply(s1, o1)
    requires Enabled(s2, o2) && s3 == Apply(s2, o2) && Enabled(s3, o3) && s4 == Apply(s3, o3)
    ensures IsTrace([s0, s1, s2, s3, s4], [o0, o1, o2, o3])
  {
    hide Enabled, Apply;
    var states, ops := [s0, s1, s2, s3, s4], [o0, o1, o2, o3];
    forall i | 0 <= i < |ops|
      ensures Enabled(states[i], ops[i]) && states[i + 1] == Apply(states[i], ops[i])
    {
      assert i == 0 || i == 1 || i == 2 || i == 3;
    }
  }

  lemma SubscribesTwice(site: Site, local: NodeInfo, topic: Text) returns (s1: NodeState, s2: NodeState)
    ensures var op, s0 := Subscribe(topic, [], []), Initial(site, local);
      Enabled(s0, op) && s1 == Apply(s0, op) && Enabled(s1, op) && s2 == Apply(s1, op)
    ensures s2.listening && s2.local.topics == [] && s2.local.ip == local.ip
    ensures s2.roster == Register([Sub(topic, [], true), Sub(topic, [], true)], map[topic := 1])
  {
    var s0 := Initial(site, local);
    TwiceAdded(topic);
    Subscribes(s0, topic);
    s1 := Apply(s0, Subscribe(topic, [], []));
    hide Apply, Enabled, Added;
    Subscribes(s1, topic);
    s2 := Apply(s1, Subscribe(topic, [], []));
  }

  /** Subscribe twice, publish, stop: on every new node the first subscriber misses the publication and runs on. */
  lemma SecondSubscriberDisplaces(site: Site, local: NodeInfo, topic: Text, port: int)
      returns (states: seq<NodeState>, ops: seq<Op>)
    ensures IsTrace(states, ops) && states[0] == Initial(site, local)
    ensures ops == [Subscribe(topic, [], []), Subscribe(topic, [], []), Publish(topic, port, [false]), Stop]
    ensures FirstMisses(states[3], SocketInfo(topic, local.ip, port)) && FirstRunsOn(states[4])
  {
    var s1, s2 := SubscribesTwice(site, local, topic);
    Publishes(s2, topic, port);
    hide *;
    var publish := Publish(topic, port, [false]);
    var s3 := Apply(s2, publish);
    Stops(s3, topic);
    var subscribe := Subscribe(topic, [], []);
    FourOps(Initial(site, local), subscribe, s1, subscribe, s2, publish, s3, Stop, Apply(s3, Stop));
    states, ops := [Initial(site, local), s1, s2, s3, Apply(s3, Stop)], [subscribe, subscribe, publish, Stop];
  }
}
