/**
 One node's table, own record and subscribers together: every operation that changes one of them, and
 the agreement between what the node knows to be published and what its subscribers connect to.
 */
module Subscriptions {
  import opened Sequences
  import opened Utf8
  import opened NodeInfoCodec
  import opened NodeTable
  import opened Rosters

  datatype NodeState = NodeState(
    site: Site, table: Table, local: NodeInfo, roster: Roster,
    listening: bool)   // the manager is subscribed to the update event

  datatype Op =
    | Heartbeat(id: Text, now: real)
    | Reply(info: NodeInfo, nodeIp: Text, now: real, ipc: seq<bool>)
    | Sweep(clock: map<Text, real>)
    | Publish(topic: Text, port: int, ipc: seq<bool>)
    | Offer(service: Text, port: int)
    | Subscribe(topic: Text, order: seq<Text>, ipc: seq<bool>)
    | Stop

  function Initial(site: Site, local: NodeInfo): NodeState {
    NodeState(site, EMPTY, local.(topics := [], services := []), Register([], map[]), true)
  }

  ghost predicate Enabled(s: NodeState, op: Op) {
    match op
    case Reply(info, _, _, ipc) => |ipc| == |info.topics|
    case Sweep(clock) => s.table.beat.Keys <= clock.Keys
    case Publish(_, _, ipc) => |ipc| == |s.local.topics| + 1
    case Subscribe(topic, order, ipc) =>
      Enumerates(order, s.table.info) && |ipc| == |Lookup(s.table, order, s.local, Topic, topic)|
    case _ => true
  }

  function Announce(s: NodeState, topics: seq<SocketInfo>, ipc: seq<bool>): Roster
    requires |ipc| == |topics|
  {
    if s.listening then Told(s.site, s.roster, topics, ipc) else s.roster
  }

  ghost function Apply(s: NodeState, op: Op): NodeState
    requires Enabled(s, op)
  {
    match op
    case Heartbeat(id, now) => s.(table := Contacted(s.table, id, now))
    case Reply(info, nodeIp, now, ipc) =>
      var n := info.(ip := nodeIp);
      s.(table := Updated(s.table, n, now), roster := Announce(s, AtHome(n).topics, ipc))
    case Sweep(clock) =>
      if SweepRaises(s.table, clock) then s else s.(table := Without(s.table, Stale(s.table, clock)))
    case Publish(topic, port, ipc) =>
      var local := s.local.(
        topics := s.local.topics + [SocketInfo(topic, s.local.ip, port)], infoID := s.local.infoID + 1);
      s.(local := local, roster := Announce(s, local.topics, ipc))
    case Offer(service, port) =>
      s.(local := s.local.(
        services := s.local.services + [SocketInfo(service, s.local.ip, port)], infoID := s.local.infoID + 1))
    case Subscribe(topic, order, ipc) =>
      s.(roster := Added(s.roster, topic, ConnectedAll(s.site, Lookup(s.table, order, s.local, Topic, topic), ipc)))
    case Stop => s.(listening := false, roster := Closed(s.roster))
  }

  // ---------- agreement ----------

  /** The list holds a URL for the publication: its TCP URL, or its IPC URL when it is on the same host. */
  predicate Covered(site: Site, urls: seq<Text>, p: SocketInfo) {
    TcpUrl(p) in urls || (p.ip == site.localIp && IpcUrl(site, p.name) in urls)
  }

  /** The node knows of the publication. */
  ghost predicate Published(s: NodeState, p: SocketInfo) {
    p in s.local.topics || exists id :: id in s.table.info && p in s.table.info[id].topics
  }

  /** The URL lists of the current subscribers, by topic. */
  function Lists(s: NodeState): Urls {
    UrlsOf(s.roster)
  }

  ghost predicate Complete(s: NodeState) {
    forall p: SocketInfo :: p.name in Lists(s) && Published(s, p) ==> Covered(s.site, Lists(s)[p.name], p)
  }

  predicate Tidy(urls: Urls) {
    forall t :: t in urls ==> NoRepeats(urls[t])
  }

  ghost predicate Inv(s: NodeState) {
    Coherent(s.table) && Tidy(Lists(s)) && (s.listening ==> Complete(s))
  }

  lemma ConnectedCovers(site: Site, urls: seq<Text>, p: SocketInfo, ipcExists: bool)
    requires NoRepeats(urls)
    ensures var more := Connected(urls, ConnectUrl(site, p, ipcExists));
      NoRepeats(more) && Covered(site, more, p) && urls <= more
  {
    hide IpcUrl, TcpUrl;
    var url := ConnectUrl(site, p, ipcExists);
    var more := Connected(urls, url);
    assert url in more;
  }

  lemma CoveredStays(site: Site, urls: seq<Text>, more: seq<Text>, p: SocketInfo)
    requires urls <= more && Covered(site, urls, p)
    ensures Covered(site, more, p)
  {
    hide IpcUrl, TcpUrl;
    assert forall url :: url in urls ==> url in more;
  }

  predicate CoversAll(site: Site, urls: seq<Text>, pubs: seq<SocketInfo>) {
    forall p :: p in pubs ==> Covered(site, urls, p)
  }

  lemma CoversOneMore(site: Site, urls: seq<Text>, pubs: seq<SocketInfo>, p: SocketInfo, ipcExists: bool)
    requires NoRepeats(urls) && CoversAll(site, urls, pubs)
    ensures var more := Connected(urls, ConnectUrl(site, p, ipcExists));
      NoRepeats(more) && CoversAll(site, more, pubs + [p])
  {
    ConnectedCovers(site, urls, p, ipcExists);
    hide ConnectUrl, Covered, NoRepeats, Connected;
    var more := Connected(urls, ConnectUrl(site, p, ipcExists));
    forall q | q in pubs + [p]
      ensures Covered(site, more, q)
    {
      if q != p {
        assert q in pubs;
        CoveredStays(site, urls, more, q);
      }
    }
  }

  lemma {:induction false} ConnectedAllCovers(site: Site, pubs: seq<SocketInfo>, ipc: seq<bool>)
    requires |ipc| == |pubs|
    ensures NoRepeats(ConnectedAll(site, pubs, ipc)) && CoversAll(site, ConnectedAll(site, pubs, ipc), pubs)
  {
    if pubs != [] {
      hide ConnectUrl, CoversAll, NoRepeats, Connected;
      var n := |pubs| - 1;
      ConnectedAllCovers(site, pubs[..n], ipc[..n]);
      CoversOneMore(site, ConnectedAll(site, pubs[..n], ipc[..n]), pubs[..n], pubs[n], ipc[n]);
      assert pubs[..n] + [pubs[n]] == pubs;
    }
  }

  /** No subscriber disappears, no list loses a URL or repeats one, and there is one for each announced topic. */
  ghost predicate Extends(site: Site, before: Urls, after: Urls, topics: seq<SocketInfo>) {
    && after.Keys == before.Keys
    && (forall t :: t in before ==> before[t] <= after[t])
    && Tidy(after)
    && forall p :: p in topics && p.name in after ==> Covered(site, after[p.name], p)
  }

  lemma TopicExtends(site: Site, start: Urls, before: Urls, topics: seq<SocketInfo>, p: SocketInfo, ipcExists: bool)
    requires Extends(site, start, before, topics)
    ensures Extends(site, start, ConnectTopic(site, before, p, ipcExists), topics + [p])
  {
    var after := ConnectTopic(site, before, p, ipcExists);
    if p.name in before {
      ConnectedCovers(site, before[p.name], p, ipcExists);
    }
    hide ConnectUrl, Covered, NoRepeats, Connected;
    assert forall t :: t in before ==> before[t] <= after[t];
    forall q | q in topics + [p] && q.name in after
      ensures Covered(site, after[q.name], q)
    {
      if q != p {
        assert q in topics;
        CoveredStays(site, before[q.name], after[q.name], q);
      }
    }
  }

  lemma {:induction false} AnnouncedExtends(site: Site, subs: Urls, topics: seq<SocketInfo>, ipc: seq<bool>)
    requires |ipc| == |topics| && Tidy(subs)
    ensures Extends(site, subs, Announced(site, subs, topics, ipc), topics)
  {
    if topics != [] {
      hide Extends, ConnectTopic, Tidy;
      var n := |topics| - 1;
      AnnouncedExtends(site, subs, topics[..n], ipc[..n]);
      TopicExtends(site, subs, Announced(site, subs, topics[..n], ipc[..n]), topics[..n], topics[n], ipc[n]);
      assert topics == topics[..n] + [topics[n]];
    }
  }

  /** What is covered stays covered when lists only grow, so only what is new has to be announced. */
  lemma CompleteStays(s: NodeState, s': NodeState, topics: seq<SocketInfo>)
    requires Complete(s) && s'.site == s.site && Extends(s.site, Lists(s), Lists(s'), topics)
    requires forall p :: Published(s', p) ==> Published(s, p) || p in topics
    ensures Complete(s')
  {
    hide Published, Covered, Tidy;
    forall p: SocketInfo | p.name in Lists(s') && Published(s', p)
      ensures Covered(s'.site, Lists(s')[p.name], p)
    {
      if p !in topics {
        CoveredStays(s.site, Lists(s)[p.name], Lists(s')[p.name], p);
      }
    }
  }

  lemma SameUrlsExtend(site: Site, urls: Urls)
    requires Tidy(urls)
    ensures Extends(site, urls, urls, [])
  {
  }

  lemma ReplyKeeps(s: NodeState, info: NodeInfo, nodeIp: Text, now: real, ipc: seq<bool>)
    requires Inv(s) && |ipc| == |info.topics|
    ensures Inv(Apply(s, Reply(info, nodeIp, now, ipc)))
  {
    var s' := Apply(s, Reply(info, nodeIp, now, ipc));
    var n := info.(ip := nodeIp);
    UpdateCoherent(s.table, n, now);
    if s.listening {
      ToldUrls(s.site, s.roster, AtHome(n).topics, ipc);
      AnnouncedExtends(s.site, Lists(s), AtHome(n).topics, ipc);
      CompleteStays(s, s', AtHome(n).topics);
    }
  }

  lemma PublishKeeps(s: NodeState, topic: Text, port: int, ipc: seq<bool>)
    requires Inv(s) && |ipc| == |s.local.topics| + 1
    ensures Inv(Apply(s, Publish(topic, port, ipc)))
  {
    var s' := Apply(s, Publish(topic, port, ipc));
    if s.listening {
      ToldUrls(s.site, s.roster, s'.local.topics, ipc);
      AnnouncedExtends(s.site, Lists(s), s'.local.topics, ipc);
      CompleteStays(s, s', s'.local.topics);
    }
  }

  lemma LookupFindsPublished(s: NodeState, order: seq<Text>, p: SocketInfo)
    requires Enumerates(order, s.table.info)
    ensures p in Lookup(s.table, order, s.local, Topic, p.name) <==> Published(s, p)
  {
    LookupExactly(s.table, order, s.local, Topic, p.name, p);
    hide Lookup, Enumerates;
    if Published(s, p) && p !in s.local.topics {
      var id :| id in s.table.info && p in s.table.info[id].topics;
      assert p in Entries(s.table.info[id], Topic);
    }
  }

  lemma NewListKeeps(s: NodeState, topic: Text, list: seq<Text>)
    requires Inv(s) && NoRepeats(list)
    requires forall p: SocketInfo :: p.name == topic && Published(s, p) ==> Covered(s.site, list, p)
    ensures Inv(s.(roster := Added(s.roster, topic, list)))
  {
    var s' := s.(roster := Added(s.roster, topic, list));
    AddedUrls(s.roster, topic, list);
    assert Lists(s') == Lists(s)[topic := list];
    hide Covered, NoRepeats, Coherent, Lists, Added;
    assert forall p :: Published(s', p) <==> Published(s, p);
  }

  lemma SubscribeKeeps(s: NodeState, topic: Text, order: seq<Text>, ipc: seq<bool>)
    requires Inv(s) && Enabled(s, Subscribe(topic, order, ipc))
    ensures Inv(Apply(s, Subscribe(topic, order, ipc)))
  {
    var pubs := Lookup(s.table, order, s.local, Topic, topic);
    hide Covered, NoRepeats, Lookup, ConnectedAll, Enumerates, Published, Inv;
    ConnectedAllCovers(s.site, pubs, ipc);
    forall p: SocketInfo | p.name == topic && Published(s, p)
      ensures p in pubs
    {
      LookupFindsPublished(s, order, p);
    }
    NewListKeeps(s, topic, ConnectedAll(s.site, pubs, ipc));
  }

  lemma TableOnlyKeeps(s: NodeState, s': NodeState)
    requires Inv(s) && Coherent(s'.table) && s' == s.(table := s'.table)
    requires forall id :: id in s'.table.info ==> id in s.table.info && s'.table.info[id] == s.table.info[id]
    ensures Inv(s')
  {
    if s.listening {
      SameUrlsExtend(s.site, Lists(s));
      CompleteStays(s, s', []);
    }
  }

  lemma InvKept(s: NodeState, op: Op)
    requires Inv(s) && Enabled(s, op)
    ensures Inv(Apply(s, op))
  {
    match op
    case Heartbeat(id, now) => TableOnlyKeeps(s, Apply(s, op));
    case Reply(info, nodeIp, now, ipc) => ReplyKeeps(s, info, nodeIp, now, ipc);
    case Sweep(clock) =>
      WithoutCoherent(s.table, Stale(s.table, clock));
      TableOnlyKeeps(s, Apply(s, op));
    case Publish(topic, port, ipc) => PublishKeeps(s, topic, port, ipc);
    case Offer(_, _) =>
      if s.listening {
        SameUrlsExtend(s.site, Lists(s));
        CompleteStays(s, Apply(s, op), []);
      }
    case Subscribe(topic, order, ipc) => SubscribeKeeps(s, topic, order, ipc);
    case Stop => ClosedUrls(s.roster);
  }

  ghost predicate IsTrace(states: seq<NodeState>, ops: seq<Op>) {
    && |states| == |ops| + 1
    && forall i :: 0 <= i < |ops| ==> Enabled(states[i], ops[i]) && states[i + 1] == Apply(states[i], ops[i])
  }

  lemma {:induction false} TraceInv(states: seq<NodeState>, ops: seq<Op>, i: nat)
    requires IsTrace(states, ops) && Inv(states[0]) && i < |states|
    ensures Inv(states[i])
  {
    if i > 0 {
      TraceInv(states, ops, i - 1);
      InvKept(states[i - 1], ops[i - 1]);
    }
  }

  /**
   After any operations of a new node, until `stop`, the list of each current subscriber holds a URL for
   every publication a lookup of its topic returns, whatever the dictionary's order, and no URL twice.
   */
  lemma SubscriptionsComplete(states: seq<NodeState>, ops: seq<Op>, k: nat, i: nat, order: seq<Text>)
    requires IsTrace(states, ops) && k < |states| && states[0] == Initial(states[0].site, states[0].local)
    requires Current(states[k].roster, i) && Enumerates(order, states[k].table.info)
    ensures NoRepeats(states[k].roster.subs[i].urls)
    ensures states[k].listening ==>
      forall p :: p in Lookup(states[k].table, order, states[k].local, Topic, states[k].roster.subs[i].topic) ==>
        Covered(states[k].site, states[k].roster.subs[i].urls, p)
  {
    assert Inv(states[0]);
    TraceInv(states, ops, k);
    var s, topic := states[k], states[k].roster.subs[i].topic;
    assert Lists(s)[topic] == s.roster.subs[i].urls;
    hide Covered, NoRepeats, Lookup, Enumerates, Coherent;
    if s.listening {
      forall p | p in Lookup(s.table, order, s.local, Topic, topic)
        ensures Covered(s.site, s.roster.subs[i].urls, p)
      {
        LookupExactly(s.table, order, s.local, Topic, topic, p);
        LookupFindsPublished(s, order, p);
      }
    }
  }
}
