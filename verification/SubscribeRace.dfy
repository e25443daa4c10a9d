/**
 `add_subscriber` in its two halves: the lookup with the connections to what it finds, and the entry in the
 dictionary. What is announced between them reaches the manager while the new subscriber is not entered yet.
 */
module SubscribeRace {
  import opened Sequences
  import opened Utf8
  import opened NodeInfoCodec
  import opened NodeTable
  import opened Rosters
  import opened Subscriptions
  import opened UrlSources

  /** The list of URLs the first half leads to. */
  function Found(s: NodeState, topic: Text, order: seq<Text>, ipc: seq<bool>): seq<Text>
    requires forall id :: id in order ==> id in s.table.info
    requires |ipc| == |Lookup(s.table, order, s.local, Topic, topic)|
  {
    ConnectedAll(s.site, Lookup(s.table, order, s.local, Topic, topic), ipc)
  }

  /** The second half. */
  function Entered(s: NodeState, topic: Text, urls: seq<Text>): NodeState {
    s.(roster := Added(s.roster, topic, urls))
  }

  /** With nothing in between the halves make the operation. */
  lemma HalvesMakeSubscribe(s: NodeState, topic: Text, order: seq<Text>, ipc: seq<bool>)
    requires Enabled(s, Subscribe(topic, order, ipc))
    ensures Entered(s, topic, Found(s, topic, order, ipc)) == Apply(s, Subscribe(topic, order, ipc))
  {
  }

  lemma {:induction false} KnownSince(states: seq<NodeState>, ops: seq<Op>, k: nat, p: SocketInfo)
    requires IsTrace(states, ops) && k < |states| && Published(states[k], p)
    ensures Published(states[0], p) || exists j :: 0 <= j < k && Reports(states[j], ops[j], p)
  {
    hide Enabled, Apply, Published, Reports;
    if k > 0 {
      KnownStep(states[k - 1], ops[k - 1], p);
      if Published(states[k - 1], p) {
        KnownSince(states, ops, k - 1, p);
      }
    }
  }

  /** Between the halves the node is told of a publication of the topic that the list has no URL for. */
  ghost predicate Misses(states: seq<NodeState>, ops: seq<Op>, topic: Text, urls: seq<Text>, p: SocketInfo)
    requires IsTrace(states, ops)
  {
    && p.name == topic && Published(states[|ops|], p) && !Covered(states[0].site, urls, p)
    && exists j :: 0 <= j < |ops| && Reports(states[j], ops[j], p)
  }

  /**
   The exact condition. Whatever operations come between the halves, the invariant holds when the subscriber
   is entered, and so, as every operation keeps it, from then on, if and only if in between the node was told
   of no publication of the topic, still known at the end, that has no URL among those found.
   */
  lemma RaceExactly(
      states: seq<NodeState>, ops: seq<Op>, topic: Text, order: seq<Text>, ipc: seq<bool>)
    requires IsTrace(states, ops) && Inv(states[0]) && Enabled(states[0], Subscribe(topic, order, ipc))
    requires states[|ops|].listening
    ensures var urls := Found(states[0], topic, order, ipc);
      Inv(Entered(states[|ops|], topic, urls)) <==> forall p :: !Misses(states, ops, topic, urls, p)
  {
    var urls, last := Found(states[0], topic, order, ipc), states[|ops|];
    SiteStays(states, ops, |ops|);
    TraceInv(states, ops, |ops|);
    FoundCovers(states[0], topic, order, ipc);
    hide Enabled, Apply, Found, Reports, Published, Covered;
    if Inv(Entered(last, topic, urls)) {
      EnteredCovers(last, topic, urls);
    } else if forall p :: !Misses(states, ops, topic, urls, p) {
      forall p: SocketInfo | p.name == topic && Published(last, p)
        ensures Covered(last.site, urls, p)
      {
        KnownSince(states, ops, |ops|, p);
        assert !Misses(states, ops, topic, urls, p);
      }
      hide Inv;
      NewListKeeps(last, topic, urls);
    }
  }

  lemma FoundCovers(s: NodeState, topic: Text, order: seq<Text>, ipc: seq<bool>)
    requires Enabled(s, Subscribe(topic, order, ipc))
    ensures NoRepeats(Found(s, topic, order, ipc))
    ensures forall p: SocketInfo :: p.name == topic && Published(s, p) ==>
      Covered(s.site, Found(s, topic, order, ipc), p)
  {
    var pubs := Lookup(s.table, order, s.local, Topic, topic);
    hide Covered, NoRepeats, Lookup, ConnectedAll, Published;
    ConnectedAllCovers(s.site, pubs, ipc);
    forall p: SocketInfo | p.name == topic && Published(s, p)
      ensures p in pubs
    {
      LookupFindsPublished(s, order, p);
    }
  }

  lemma EnteredCovers(s: NodeState, topic: Text, urls: seq<Text>)
    requires Inv(Entered(s, topic, urls)) && s.listening
    ensures forall p: SocketInfo :: p.name == topic && Published(s, p) ==> Covered(s.site, urls, p)
  {
    AddedUrls(s.roster, topic, urls);
    var after := Entered(s, topic, urls);
    assert Lists(after)[topic] == urls;
    hide Covered;
    assert forall p :: Published(after, p) <==> Published(s, p);
  }

  /** What was missed stays missed until an announcement adds a URL for it. */
  lemma MissedUntilAdded(
      states: seq<NodeState>, ops: seq<Op>, a: nat, k: nat, i: nat, p: SocketInfo)
    requires IsTrace(states, ops) && a <= k < |states| && i < |states[a].roster.subs|
    ensures i < |states[k].roster.subs|
    ensures var site, topic := states[a].site, states[a].roster.subs[i].topic;
      Covered(site, states[k].roster.subs[i].urls, p) <==>
        || Covered(site, states[a].roster.subs[i].urls, p)
        || exists j :: (a <= j < k && Current(states[j].roster, i)
             && (Adds(states[j], ops[j], topic, TcpUrl(p))
                 || (p.ip == site.localIp && Adds(states[j], ops[j], topic, IpcUrl(site, p.name)))))
  {
    hide Enabled, Apply, Adds, Current, TcpUrl, IpcUrl;
    ListExactly(states, ops, a, k, i, TcpUrl(p));
    ListExactly(states, ops, a, k, i, IpcUrl(states[a].site, p.name));
  }

  /** On every new node a record that arrives between the halves is missed. */
  lemma RecordIsMissed(site: Site, local: NodeInfo, topic: Text, info: NodeInfo, nodeIp: Text, now: real)
    requires info.infoID != -1 && |info.topics| == 1 && info.topics[0].name == topic
    ensures var s, op := Initial(site, local), Reply(info, nodeIp, now, [false]);
      && Enabled(s, Subscribe(topic, [], [])) && Found(s, topic, [], []) == []
      && IsTrace([s, Apply(s, op)], [op])
      && Misses([s, Apply(s, op)], [op], topic, [], info.topics[0].(ip := nodeIp))
      && !Inv(Entered(Apply(s, op), topic, []))
  {
    var s, op := Initial(site, local), Reply(info, nodeIp, now, [false]);
    var s', p := Apply(s, op), info.topics[0].(ip := nodeIp);
    assert Inv(s);
    assert p in s'.table.info[info.nodeID].topics;
    assert Reports(s, op, p);
    assert Misses([s, s'], [op], topic, [], p);
    RaceExactly([s, s'], [op], topic, [], []);
  }
}
