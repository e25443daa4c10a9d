/** Where the URLs of a node's subscribers come from. */
module UrlSources {
  import opened Utf8
  import opened NodeInfoCodec
  import opened NodeTable
  import opened Rosters
  import opened Subscriptions

  /** The link for a publication: IPC on the same host when its socket file is there, and TCP otherwise. */
  predicate IsLink(site: Site, p: SocketInfo, ipcExists: bool, url: Text) {
    if ipcExists && p.ip == site.localIp then url == IpcUrl(site, p.name) else url == TcpUrl(p)
  }

  lemma LinkConnects(site: Site, p: SocketInfo, ipcExists: bool, urls: seq<Text>, url: Text)
    ensures url in Connected(urls, ConnectUrl(site, p, ipcExists)) <==> url in urls || IsLink(site, p, ipcExists, url)
  {
    hide IpcUrl, TcpUrl;
  }

  /** A new subscriber's list: the links for the publications it was given, and nothing else. */
  lemma {:induction false} ConnectedAllExactly(site: Site, pubs: seq<SocketInfo>, ipc: seq<bool>, url: Text)
    requires |ipc| == |pubs|
    ensures url in ConnectedAll(site, pubs, ipc)
       <==> exists j :: 0 <= j < |pubs| && IsLink(site, pubs[j], ipc[j], url)
  {
    hide IsLink, Connected, ConnectUrl;
    if pubs != [] {
      var n := |pubs| - 1;
      ConnectedAllExactly(site, pubs[..n], ipc[..n], url);
      LinkConnects(site, pubs[n], ipc[n], ConnectedAll(site, pubs[..n], ipc[..n]), url);
    }
  }

  lemma ToldOneExactly(site: Site, r: Roster, p: SocketInfo, ipcExists: bool, i: nat, url: Text)
    requires i < |r.subs|
    ensures var r' := ToldOne(site, r, p, ipcExists);
      && r'.subs[i].topic == r.subs[i].topic && r'.dict == r.dict
      && (url in r'.subs[i].urls <==>
           url in r.subs[i].urls || (Current(r, i) && p.name == r.subs[i].topic && IsLink(site, p, ipcExists, url)))
  {
    hide IsLink, ConnectUrl, Connected;
    LinkConnects(site, p, ipcExists, r.subs[i].urls, url);
  }

  /** What an announcement adds: to each current subscriber the links for the announced publications of its topic. */
  lemma {:induction false} ToldExactly(
      site: Site, r: Roster, topics: seq<SocketInfo>, ipc: seq<bool>, i: nat, url: Text)
    requires |ipc| == |topics| && i < |r.subs|
    ensures var r' := Told(site, r, topics, ipc);
      && r'.subs[i].topic == r.subs[i].topic
      && (url in r'.subs[i].urls <==>
           || url in r.subs[i].urls
           || (Current(r, i) && exists j :: (0 <= j < |topics|
                && topics[j].name == r.subs[i].topic && IsLink(site, topics[j], ipc[j], url))))
  {
    hide IsLink, ToldOne;
    if topics != [] {
      var n := |topics| - 1;
      ToldExactly(site, r, topics[..n], ipc[..n], i, url);
      ToldOneExactly(site, Told(site, r, topics[..n], ipc[..n]), topics[n], ipc[n], i, url);
    }
  }

  // ---------- every URL has a source ----------

  /** This operation tells the node of the publication: a reply lists it, or the node publishes it itself. */
  predicate Reports(s: NodeState, op: Op, p: SocketInfo) {
    match op
    case Reply(info, nodeIp, _, _) =>
      p.ip == nodeIp && exists j :: 0 <= j < |info.topics| && info.topics[j].(ip := nodeIp) == p
    case Publish(topic, port, _) => p == SocketInfo(topic, s.local.ip, port)
    case _ => false
  }

  /** One of the two URLs under which the publication can be reached. */
  predicate HasLink(site: Site, p: SocketInfo, url: Text) {
    url == TcpUrl(p) || (p.ip == site.localIp && url == IpcUrl(site, p.name))
  }

  lemma LinkIsOne(site: Site, p: SocketInfo, ipcExists: bool, url: Text)
    requires IsLink(site, p, ipcExists, url)
    ensures HasLink(site, p, url)
  {
  }

  /** What the node knows after an operation it knew before, or the operation told it. */
  lemma KnownStep(s: NodeState, op: Op, p: SocketInfo)
    requires Enabled(s, op) && Published(Apply(s, op), p)
    ensures Published(s, p) || Reports(s, op, p)
  {
    hide Announce, Stale, SweepRaises, ConnectedAll, Lookup, Closed;
  }

  ghost predicate Tells(s: NodeState, op: Op, p: SocketInfo) {
    Published(s, p) || Reports(s, op, p)
  }

  lemma AnnouncedAreTold(s: NodeState, op: Op, p: SocketInfo)
    requires Enabled(s, op)
    requires || (op.Reply? && p in AtHome(op.info.(ip := op.nodeIp)).topics)
             || (op.Publish? && p in Apply(s, op).local.topics)
    ensures Tells(s, op, p)
  {
    hide Announce;
  }

  /** A URL that an operation leaves in a list was there before, or the operation knows its publication. */
  lemma UrlStep(s: NodeState, op: Op, i: nat, url: Text)
    requires Enabled(s, op) && i < |Apply(s, op).roster.subs| && url in Apply(s, op).roster.subs[i].urls
    ensures i < |s.roster.subs| ==> Apply(s, op).roster.subs[i].topic == s.roster.subs[i].topic
    ensures (i < |s.roster.subs| && url in s.roster.subs[i].urls)
      || exists p :: Tells(s, op, p) && p.name == Apply(s, op).roster.subs[i].topic && HasLink(s.site, p, url)
  {
    hide IsLink, HasLink, Told, Tells, Lookup, ConnectedAll, Enumerates;
    match op
    case Reply(info, nodeIp, _, ipc) =>
      TellsUrl(s, op, AtHome(info.(ip := nodeIp)).topics, ipc, i, url);
    case Publish(_, _, ipc) =>
      TellsUrl(s, op, Apply(s, op).local.topics, ipc, i, url);
    case Subscribe(topic, order, ipc) =>
      if i == |s.roster.subs| {
        FindsUrl(s, topic, order, ipc, url);
      }
    case _ =>
  }

  lemma TellsUrl(s: NodeState, op: Op, topics: seq<SocketInfo>, ipc: seq<bool>, i: nat, url: Text)
    requires Enabled(s, op) && |ipc| == |topics| && i < |s.roster.subs|
    requires (op.Reply? && topics == AtHome(op.info.(ip := op.nodeIp)).topics)
      || (op.Publish? && topics == Apply(s, op).local.topics)
    requires url in Announce(s, topics, ipc).subs[i].urls
    ensures Announce(s, topics, ipc).subs[i].topic == s.roster.subs[i].topic
    ensures url in s.roster.subs[i].urls
      || exists p :: Tells(s, op, p) && p.name == s.roster.subs[i].topic && HasLink(s.site, p, url)
  {
    hide IsLink, HasLink, Told, Tells, Apply;
    ToldExactly(s.site, s.roster, topics, ipc, i, url);
    if url !in s.roster.subs[i].urls {
      var j :| (0 <= j < |topics| && topics[j].name == s.roster.subs[i].topic
        && IsLink(s.site, topics[j], ipc[j], url));
      AnnouncedAreTold(s, op, topics[j]);
      LinkIsOne(s.site, topics[j], ipc[j], url);
    }
  }

  lemma FindsUrl(s: NodeState, topic: Text, order: seq<Text>, ipc: seq<bool>, url: Text)
    requires Enabled(s, Subscribe(topic, order, ipc))
    requires url in ConnectedAll(s.site, Lookup(s.table, order, s.local, Topic, topic), ipc)
    ensures exists p :: Tells(s, Subscribe(topic, order, ipc), p) && p.name == topic && HasLink(s.site, p, url)
  {
    hide IsLink, HasLink, Lookup, ConnectedAll, Published, Reports;
    var pubs := Lookup(s.table, order, s.local, Topic, topic);
    ConnectedAllExactly(s.site, pubs, ipc, url);
    var j :| 0 <= j < |pubs| && IsLink(s.site, pubs[j], ipc[j], url);
    LookupExactly(s.table, order, s.local, Topic, topic, pubs[j]);
    LookupFindsPublished(s, order, pubs[j]);
    LinkIsOne(s.site, pubs[j], ipc[j], url);
  }

  lemma {:induction false} SiteStays(states: seq<NodeState>, ops: seq<Op>, k: nat)
    requires IsTrace(states, ops) && k < |states|
    ensures states[k].site == states[0].site
  {
    if k > 0 {
      SiteStays(states, ops, k - 1);
    }
  }

  /** Whatever a new node comes to know was told to it. */
  lemma {:induction false} KnownWasReported(states: seq<NodeState>, ops: seq<Op>, k: nat, p: SocketInfo)
      returns (j: nat)
    requires IsTrace(states, ops) && k < |states| && states[0] == Initial(states[0].site, states[0].local)
    requires Published(states[k], p)
    ensures j < k && Reports(states[j], ops[j], p)
  {
    hide Enabled, Apply, Reports;
    if k == 0 {
      assert false;
    }
    KnownStep(states[k - 1], ops[k - 1], p);
    if Reports(states[k - 1], ops[k - 1], p) {
      return k - 1;
    }
    j := KnownWasReported(states, ops, k - 1, p);
  }

  /**
   No URL is made up: each one in the list of a subscriber, current or displaced, is one of the two of a
   publication of its topic that a reply listed or the node itself published, some time before.
   */
  lemma {:induction false} EveryUrlHasASource(
      states: seq<NodeState>, ops: seq<Op>, k: nat, i: nat, url: Text) returns (p: SocketInfo, j: nat)
    requires IsTrace(states, ops) && k < |states| && states[0] == Initial(states[0].site, states[0].local)
    requires i < |states[k].roster.subs| && url in states[k].roster.subs[i].urls
    ensures j < k && Reports(states[j], ops[j], p)
    ensures p.name == states[k].roster.subs[i].topic && HasLink(states[k].site, p, url)
  {
    hide Enabled, Apply, HasLink, Reports, Published;
    if k == 0 {
      assert false;
    }
    var s, op := states[k - 1], ops[k - 1];
    UrlStep(s, op, i, url);
    SiteStays(states, ops, k - 1);
    SiteStays(states, ops, k);
    if i < |s.roster.subs| && url in s.roster.subs[i].urls {
      p, j := EveryUrlHasASource(states, ops, k - 1, i, url);
    } else {
      p :| Tells(s, op, p) && p.name == states[k].roster.subs[i].topic
        && HasLink(s.site, p, url);
      if Reports(s, op, p) {
        return p, k - 1;
      }
      j := KnownWasReported(states, ops, k - 1, p);
    }
  }

  // ---------- the history of one list ----------

  /** The announcement that follows a reply or a publication leads to this URL in a list of the topic. */
  predicate Adds(s: NodeState, op: Op, topic: Text, url: Text) {
    s.listening &&
    match op
    case Reply(info, nodeIp, _, ipc) =>
      exists m :: (0 <= m < |info.topics| && m < |ipc| && info.topics[m].name == topic
        && IsLink(s.site, info.topics[m].(ip := nodeIp), ipc[m], url))
    case Publish(name, port, ipc) =>
      var topics := s.local.topics + [SocketInfo(name, s.local.ip, port)];
      exists m :: 0 <= m < |topics| && m < |ipc| && topics[m].name == topic && IsLink(s.site, topics[m], ipc[m], url)
    case _ => false
  }

  lemma ReplyAdds(s: NodeState, op: Op, i: nat, url: Text)
    requires Enabled(s, op) && op.Reply? && i < |s.roster.subs|
    ensures i < |Apply(s, op).roster.subs| && Apply(s, op).roster.subs[i].topic == s.roster.subs[i].topic
    ensures url in Apply(s, op).roster.subs[i].urls <==>
      url in s.roster.subs[i].urls || (Current(s.roster, i) && Adds(s, op, s.roster.subs[i].topic, url))
  {
    hide IsLink, Told;
    ToldExactly(s.site, s.roster, AtHome(op.info.(ip := op.nodeIp)).topics, op.ipc, i, url);
  }

  lemma PublishAdds(s: NodeState, op: Op, i: nat, url: Text)
    requires Enabled(s, op) && op.Publish? && i < |s.roster.subs|
    ensures i < |Apply(s, op).roster.subs| && Apply(s, op).roster.subs[i].topic == s.roster.subs[i].topic
    ensures url in Apply(s, op).roster.subs[i].urls <==>
      url in s.roster.subs[i].urls || (Current(s.roster, i) && Adds(s, op, s.roster.subs[i].topic, url))
  {
    hide IsLink, Told;
    ToldExactly(s.site, s.roster, Apply(s, op).local.topics, op.ipc, i, url);
  }

  lemma ListStep(s: NodeState, op: Op, i: nat, url: Text)
    requires Enabled(s, op) && i < |s.roster.subs|
    ensures i < |Apply(s, op).roster.subs| && Apply(s, op).roster.subs[i].topic == s.roster.subs[i].topic
    ensures url in Apply(s, op).roster.subs[i].urls <==>
      url in s.roster.subs[i].urls || (Current(s.roster, i) && Adds(s, op, s.roster.subs[i].topic, url))
  {
    hide IsLink, Announce, Lookup, ConnectedAll;
    if op.Reply? {
      ReplyAdds(s, op, i, url);
    } else if op.Publish? {
      PublishAdds(s, op, i, url);
    }
  }

  /**
   The history of a list. A subscriber's URLs are those it began with and those of the announcements made
   while the manager listened and the subscriber was current, and no others.
   */
  lemma {:induction false} ListExactly(
      states: seq<NodeState>, ops: seq<Op>, a: nat, k: nat, i: nat, url: Text)
    requires IsTrace(states, ops) && a <= k < |states| && i < |states[a].roster.subs|
    ensures i < |states[k].roster.subs| && states[k].roster.subs[i].topic == states[a].roster.subs[i].topic
    ensures url in states[k].roster.subs[i].urls <==>
      || url in states[a].roster.subs[i].urls
      || exists j :: (a <= j < k && Current(states[j].roster, i)
           && Adds(states[j], ops[j], states[a].roster.subs[i].topic, url))
    decreases k
  {
    hide Enabled, Apply, Adds, Current;
    if a < k {
      ListExactly(states, ops, a, k - 1, i, url);
      ListStep(states[k - 1], ops[k - 1], i, url);
    }
  }

  // ---------- after stop ----------

  lemma StoppedStep(s: NodeState, op: Op, i: nat)
    requires Enabled(s, op) && !s.listening && i < |s.roster.subs|
    ensures var s' := Apply(s, op);
      !s'.listening && i < |s'.roster.subs| && s'.roster.subs[i].urls == s.roster.subs[i].urls
  {
    hide Told, Stale, SweepRaises, ConnectedAll, Lookup, Updated;
  }

  /** After `stop` no publication, near or far, is connected to by any subscriber there is. */
  lemma {:induction false} StoppedConnectsNoMore(states: seq<NodeState>, ops: seq<Op>, a: nat, k: nat, i: nat)
    requires IsTrace(states, ops) && a < k < |states| && ops[a] == Stop && i < |states[a].roster.subs|
    ensures !states[k].listening && i < |states[k].roster.subs|
    ensures states[k].roster.subs[i].urls == states[a].roster.subs[i].urls
  {
    if k == a + 1 {
      hide Enabled;
    } else {
      hide Enabled, Apply;
      StoppedConnectsNoMore(states, ops, a, k - 1, i);
      StoppedStep(states[k - 1], ops[k - 1], i);
    }
  }
}
