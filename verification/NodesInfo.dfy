/** `NodesInfoManager`: the dictionaries changed in place, and the node's own record. */
module NodesInfo {
  import opened Wrappers
  import opened Sequences
  import opened Utf8
  import opened NodeInfoCodec
  import opened NodeInfoLaws
  import opened NodeTable
  import opened Subscribers

  /** A record as an object: the table and whoever unpacked it share it. */
  class NodeRecord {
    const nodeID: Text
    const name: Text
    var infoID: int
    var ip: Text
    var topics: seq<SocketInfo>
    var services: seq<SocketInfo>

    constructor (v: NodeInfo)
      ensures Value() == v
    {
      nodeID, name := v.nodeID, v.name;
      infoID, ip, topics, services := v.infoID, v.ip, v.topics, v.services;
    }

    function Value(): NodeInfo
      reads this
    {
      NodeInfo(nodeID, infoID, name, ip, topics, services)
    }

    /** The two loops that give every socket the record's address. */
    method RewriteIps()
      modifies this`topics, this`services
      ensures Value() == AtHome(old(Value()))
    {
      for i := 0 to |services|
        invariant topics == old(topics) && |services| == |old(services)|
        invariant forall j :: 0 <= j < |services| ==>
          services[j] == if j < i then old(services)[j].(ip := ip) else old(services)[j]
      {
        services := services[i := services[i].(ip := ip)];
      }
      for i := 0 to |topics|
        invariant services == Rehomed(old(services), ip) && |topics| == |old(topics)|
        invariant forall j :: 0 <= j < |topics| ==>
          topics[j] == if j < i then old(topics)[j].(ip := ip) else old(topics)[j]
      {
        topics := topics[i := topics[i].(ip := ip)];
      }
      assert topics == Rehomed(old(topics), ip);
    }
  }

  class NodesInfoManager {
    const local: NodeRecord
    const updateEvent: Event
    var nodesInfo: map<Text, NodeRecord>
    var nodesInfoId: map<Text, int>
    var nodesHeartbeat: map<Text, real>

    ghost function View(): Table
      reads this, nodesInfo.Values
    {
      Table(map id | id in nodesInfo :: nodesInfo[id].Value(), nodesInfoId, nodesHeartbeat)
    }

    ghost predicate Valid()
      reads this, nodesInfo.Values
    {
      Coherent(View()) && local !in nodesInfo.Values
    }

    constructor (name: Text, ip: Text, nodeID: Text)
      ensures Valid() && View() == EMPTY && fresh(local) && fresh(updateEvent) && updateEvent.handlers == []
      ensures local.Value() == NodeInfo(nodeID, 0, name, ip, [], [])
    {
      local := new NodeRecord(NodeInfo(nodeID, 0, name, ip, [], []));
      updateEvent := new Event();
      nodesInfo, nodesInfoId, nodesHeartbeat := map[], map[], map[];
    }

    /**
     `info` may be a record the table already holds. The sockets get their addresses after the record
     is stored and before the handlers see it.
     */
    method UpdateNode(info: NodeRecord, now: real, ipc: Answers)
      requires Valid() && updateEvent.Valid() && info != local
      requires Answer(ipc, updateEvent.handlers, |info.topics|)
      modifies this, info, updateEvent.Footprint()
      ensures Valid() && updateEvent.Valid() && updateEvent.handlers == old(updateEvent.handlers)
      ensures View() == Updated(old(View()), old(info.Value()), now)
      ensures info.Value() == AtHome(old(info.Value()))
      ensures updateEvent.Rosters() == ToldAll(old(updateEvent.Rosters()), info.topics, ipc)
    {
      hide Updated, Coherent, ToldAll, AtHome, View, NodeRecord.Value, Event.Rosters, SubscriberManager.View;
      StoreRecord(info, now);
      Announce(info, ipc);
    }

    /** The handlers are called; no record changes by that. */
    method Announce(info: NodeRecord, ipc: Answers)
      requires Valid() && updateEvent.Valid() && Answer(ipc, updateEvent.handlers, |info.topics|)
      modifies updateEvent.Footprint()
      ensures Valid() && View() == old(View())
      ensures info.Value() == old(info.Value()) && info.topics == old(info.topics)
      ensures local.Value() == old(local.Value())
      ensures updateEvent.Valid() && updateEvent.handlers == old(updateEvent.handlers)
      ensures updateEvent.Rosters() == ToldAll(old(updateEvent.Rosters()), info.topics, ipc)
    {
      hide Coherent, ToldAll, View, NodeRecord.Value, SubscriberManager.View;
      hide Event.Rosters, Event.Footprint, Event.Valid;
      updateEvent.FootprintIsTheirs();
      updateEvent.Emit(info.topics, ipc);
    }

    method StoreRecord(info: NodeRecord, now: real)
      requires Valid() && info != local
      modifies this, info
      ensures Valid() && View() == Updated(old(View()), old(info.Value()), now)
      ensures info.Value() == AtHome(old(info.Value())) && |info.topics| == |old(info.topics)|
    {
      ghost var after := Updated(View(), info.Value(), now);
      ghost var records := StoreMeans(info, now);
      hide Coherent, AtHome, View, Updated, CheckInfo;
      WriteRecord(info, now);
      assert nodesInfo == records;
      ViewIs(after);
    }

    /** What the table is to hold after a record is stored, in terms of the records there are before. */
    lemma StoreMeans(info: NodeRecord, now: real) returns (records: map<Text, NodeRecord>)
      requires Valid()
      ensures var known := CheckInfo(View(), info.nodeID, info.infoID);
        && records == (if known then nodesInfo else nodesInfo[info.nodeID := info])
        && Updated(View(), info.Value(), now).tag ==
             (if known then nodesInfoId else nodesInfoId[info.nodeID := info.infoID])
      ensures var after := Updated(View(), info.Value(), now);
        && Coherent(after) && after.info.Keys == records.Keys
        && after.beat == nodesHeartbeat[info.nodeID := now]
        && forall k :: k in records ==>
          after.info[k] == if records[k] == info then AtHome(info.Value()) else records[k].Value()
      ensures |AtHome(info.Value()).topics| == |info.topics|
    {
      var before, value := View(), info.Value();
      records := if CheckInfo(before, info.nodeID, info.infoID) then nodesInfo else nodesInfo[info.nodeID := info];
      hide Coherent, CheckInfo, Updated;
      UpdateCoherent(before, value, now);
      UpdatedRecords(before, value, now);
      SharedRecordIsStored(info);
      ViewSays();
      hide AtHome, View;
    }

    /** The assignments of `update_node`, in its order. */
    method WriteRecord(info: NodeRecord, now: real)
      requires info != local && local !in nodesInfo.Values
      modifies this, info`topics, info`services
      ensures local !in nodesInfo.Values
      ensures var known := CheckInfo(old(View()), info.nodeID, info.infoID);
        && nodesInfo == (if known then old(nodesInfo) else old(nodesInfo)[info.nodeID := info])
        && nodesInfoId == (if known then old(nodesInfoId) else old(nodesInfoId)[info.nodeID := info.infoID])
        && nodesHeartbeat == old(nodesHeartbeat)[info.nodeID := now]
      ensures info.Value() == AtHome(old(info.Value()))
      ensures forall k :: k in nodesInfo ==>
        nodesInfo[k].Value() == if nodesInfo[k] == info then AtHome(old(info.Value())) else old(nodesInfo[k].Value())
    {
      hide CheckInfo, AtHome, NodeRecord.Value, View;
      PutRecord(info);
      RewriteShared(info);
      nodesHeartbeat := nodesHeartbeat[info.nodeID := now];
    }

    /** A record under the tag already stored is not put in the table. */
    method PutRecord(info: NodeRecord)
      requires info != local && local !in nodesInfo.Values
      modifies this`nodesInfo, this`nodesInfoId
      ensures local !in nodesInfo.Values
      ensures var known := CheckInfo(old(View()), info.nodeID, info.infoID);
        && nodesInfo == (if known then old(nodesInfo) else old(nodesInfo)[info.nodeID := info])
        && nodesInfoId == (if known then old(nodesInfoId) else old(nodesInfoId)[info.nodeID := info.infoID])
    {
      var id := info.nodeID;
      var known := CheckInfoId(id, info.infoID);
      if !known {
        nodesInfo := nodesInfo[id := info];
        nodesInfoId := nodesInfoId[id := info.infoID];
      }
    }

    /** The view, key by key. */
    lemma ViewSays()
      ensures View().info.Keys == nodesInfo.Keys && View().tag == nodesInfoId && View().beat == nodesHeartbeat
      ensures forall k :: k in nodesInfo ==> nodesInfo[k].Value() == View().info[k]
    {
    }

    lemma ViewIs(t: Table)
      requires t.info.Keys == nodesInfo.Keys && t.tag == nodesInfoId && t.beat == nodesHeartbeat
      requires forall k :: k in nodesInfo ==> nodesInfo[k].Value() == t.info[k]
      ensures View() == t
    {
      assert View().info == t.info;
    }

    /** Rewriting the addresses of a record changes the table exactly where the table holds that record. */
    method RewriteShared(info: NodeRecord)
      requires info != local
      modifies info`topics, info`services
      ensures info.Value() == AtHome(old(info.Value()))
      ensures forall k :: k in nodesInfo ==>
        nodesInfo[k].Value() == if nodesInfo[k] == info then AtHome(old(info.Value())) else old(nodesInfo[k].Value())
    {
      info.RewriteIps();
    }

    /** A record the table shares with the caller is stored under its own id and is at home already. */
    lemma SharedRecordIsStored(info: NodeRecord)
      requires Valid()
      ensures forall k :: k in nodesInfo && nodesInfo[k] == info ==>
        k == info.nodeID && CheckInfo(View(), info.nodeID, info.infoID) && AtHome(info.Value()) == info.Value()
    {
      if info.nodeID in nodesInfo && nodesInfo[info.nodeID] == info {
        assert View().info[info.nodeID] == info.Value();
        assert AtHome(info.Value()) == info.Value();
      }
      forall k | k in nodesInfo && nodesInfo[k] == info
        ensures k == info.nodeID
      {
        assert View().info[k] == info.Value();
      }
    }

    method CheckInfoId(id: Text, infoId: int) returns (same: bool)
      ensures same == CheckInfo(View(), id, infoId)
    {
      same := (if id in nodesInfoId then nodesInfoId[id] else -1) == infoId;
    }

    /** The part of `handle_heartbeat_async` ahead of its await: whether the record is to be fetched. */
    method HeartbeatArrives(id: Text, infoId: int, now: real) returns (fetch: bool)
      requires Valid()
      modifies this`nodesHeartbeat
      ensures Valid() && View() == Contacted(old(View()), id, now)
      ensures fetch == !CheckInfo(old(View()), id, infoId)
      ensures !fetch <==> (id in nodesInfoId && nodesInfoId[id] == infoId) || (id !in nodesInfoId && infoId == -1)
    {
      nodesHeartbeat := nodesHeartbeat[id := now];
      var known := CheckInfoId(id, infoId);
      fetch := !known;
      assert View() == Contacted(old(View()), id, now);
    }

    /** A record the table does not hold can change without the table. */
    method TakeAddress(info: NodeRecord, nodeIp: Text)
      requires Valid() && info != local && info !in nodesInfo.Values
      modifies info`ip
      ensures Valid() && View() == old(View()) && info.Value() == old(info.Value()).(ip := nodeIp)
    {
      hide Coherent;
      info.ip := nodeIp;
      assert View() == old(View());
    }

    /** The part behind it: the fetched record gets the address the heartbeat came from. */
    method ReplyArrives(info: NodeRecord, nodeIp: Text, now: real, ipc: Answers)
      requires Valid() && updateEvent.Valid() && info != local && info !in nodesInfo.Values
      requires Answer(ipc, updateEvent.handlers, |info.topics|)
      modifies this, info, updateEvent.Footprint()
      ensures Valid() && View() == Updated(old(View()), old(info.Value()).(ip := nodeIp), now)
      ensures updateEvent.Valid() && updateEvent.handlers == old(updateEvent.handlers)
      ensures info.topics == AtHome(old(info.Value()).(ip := nodeIp)).topics
      ensures updateEvent.Rosters() == ToldAll(old(updateEvent.Rosters()), info.topics, ipc)
    {
      hide Updated, Coherent, ToldAll, Event.Rosters, SubscriberManager.View;
      TakeAddress(info, nodeIp);
      hide View;
      UpdateNode(info, now, ipc);
    }

    /** Answers false, with nothing popped, where the program raises `KeyError`. */
    method RemoveNode(id: Text) returns (ok: bool)
      requires Valid()
      modifies this
      ensures Valid() && ok == (id in old(View()).info)
      ensures View() == if ok then Without(old(View()), {id}) else old(View())
    {
      if id !in nodesInfo {
        return false;
      }
      WithoutCoherent(View(), {id});
      hide Coherent, NodeRecord.Value;
      nodesInfo := nodesInfo - {id};
      nodesInfoId := nodesInfoId - {id};
      nodesHeartbeat := nodesHeartbeat - {id};
      assert View() == Without(old(View()), {id});
      return true;
    }

    /**
     One pass of `check_heartbeat`; `order` is the dictionary's order and `clock` the time read at each
     key. A pass that answers false has raised, and the loop it belongs to has ended with it.
     */
    method SweepOnce(order: seq<Text>, clock: map<Text, real>) returns (ok: bool)
      requires Valid() && Enumerates(order, nodesHeartbeat) && nodesHeartbeat.Keys <= clock.Keys
      modifies this
      ensures Valid() && ok == !SweepRaises(old(View()), clock)
      ensures View() == if ok then Without(old(View()), Stale(old(View()), clock)) else old(View())
    {
      ghost var before := View();
      var removed: seq<Text> := [];
      for i := 0 to |order|
        invariant forall id :: id in removed <==> id in order[..i] && id in Stale(before, clock)
        invariant forall id :: id in removed ==> id in nodesInfo
        invariant NoRepeats(removed)
      {
        var id := order[i];
        assert id in nodesHeartbeat && id !in order[..i] && order[..i + 1] == order[..i] + [id];
        if clock[id] - nodesHeartbeat[id] > TIMEOUT {
          assert id in Stale(before, clock);
          if id !in nodesInfo {
            return false;
          }
          removed := removed + [id];
        }
      }
      assert order[..|order|] == order;
      assert forall id :: id in removed <==> id in Stale(before, clock);
      assert Elements(removed) == Stale(before, clock);
      RemoveAll(removed);
      return true;
    }

    method RemoveAll(removed: seq<Text>)
      requires Valid() && Elements(removed) <= View().info.Keys
      requires NoRepeats(removed)
      modifies this
      ensures Valid() && View() == Without(old(View()), Elements(removed))
    {
      ghost var before := View();
      hide View, Coherent, Elements, Without;
      NothingRemoved(before);
      assert removed[..0] == [];
      for i := 0 to |removed|
        invariant Valid() && View() == Without(before, Elements(removed[..i]))
      {
        OneMore(before, removed, i);
        var ok := RemoveNode(removed[i]);
      }
      assert removed[..|removed|] == removed;
    }

    // ---------- the node's own record ----------

    method RegisterLocalPublisher(topicName: Text, port: int, ipc: Answers)
      requires Valid() && updateEvent.Valid()
      requires Answer(ipc, updateEvent.handlers, |local.topics| + 1)
      modifies local, updateEvent.Footprint()
      ensures Valid() && View() == old(View())
      ensures local.Value() == old(local.Value()).(
        topics := old(local.topics) + [SocketInfo(topicName, old(local.ip), port)], infoID := old(local.infoID) + 1)
      ensures updateEvent.Valid() && updateEvent.handlers == old(updateEvent.handlers)
      ensures updateEvent.Rosters() == ToldAll(old(updateEvent.Rosters()), local.topics, ipc)
    {
      hide ToldAll, Coherent, View, NodeRecord.Value, Event.Rosters, SubscriberManager.View;
      AppendTopic(topicName, port);
      Announce(local, ipc);
    }

    /** The two writes of a registration, the list first and the counter after it. */
    method AppendTopic(topicName: Text, port: int)
      requires Valid()
      modifies local
      ensures Valid() && View() == old(View()) && |local.topics| == |old(local.topics)| + 1
      ensures local.Value() == old(local.Value()).(
        topics := old(local.topics) + [SocketInfo(topicName, old(local.ip), port)], infoID := old(local.infoID) + 1)
    {
      hide Coherent;
      local.topics := local.topics + [SocketInfo(topicName, local.ip, port)];
      local.infoID := local.infoID + 1;
      assert View() == old(View());
    }

    /** Answers false where the program raises `ValueError`. */
    method RegisterLocalService(serviceName: Text, port: int, order: seq<Text>) returns (ok: bool)
      requires Valid() && Enumerates(order, nodesInfo)
      modifies local
      ensures Valid() && View() == old(View())
      ensures ok <==> !Offered(old(View()), old(local.Value()), serviceName)
      ensures local.Value() == if ok
        then old(local.Value()).(
          services := old(local.services) + [SocketInfo(serviceName, old(local.ip), port)],
          infoID := old(local.infoID) + 1)
        else old(local.Value())
    {
      hide Lookup, Coherent, Offered, First, View;
      OfferedHere(View(), local.Value(), serviceName);
      ViewSays();
      var isLocal := CheckLocalService(serviceName);
      if isLocal {
        return false;
      }
      var known := GetServiceInfo(serviceName, order);
      OfferedExactly(View(), order, local.Value(), serviceName);
      if known.Some? {
        return false;
      }
      AppendService(serviceName, port);
      return true;
    }

    /** The same two writes for a service. */
    method AppendService(serviceName: Text, port: int)
      requires Valid()
      modifies local
      ensures Valid() && View() == old(View())
      ensures local.Value() == old(local.Value()).(
        services := old(local.services) + [SocketInfo(serviceName, old(local.ip), port)],
        infoID := old(local.infoID) + 1)
    {
      hide Coherent;
      local.services := local.services + [SocketInfo(serviceName, local.ip, port)];
      local.infoID := local.infoID + 1;
      assert View() == old(View());
    }

    method CheckLocalService(serviceName: Text) returns (found: bool)
      ensures found <==> exists p :: p in local.services && p.name == serviceName
    {
      for i := 0 to |local.services|
        invariant forall j :: 0 <= j < i ==> local.services[j].name != serviceName
      {
        if local.services[i].name == serviceName {
          return true;
        }
      }
      return false;
    }

    // ---------- lookups ----------

    method GetPublisherInfo(topicName: Text, order: seq<Text>) returns (publishers: seq<SocketInfo>)
      requires forall id :: id in order ==> id in nodesInfo
      ensures publishers == Lookup(View(), order, local.Value(), Topic, topicName)
    {
      ghost var info := View().info;
      assert forall id :: id in nodesInfo ==> info[id] == nodesInfo[id].Value();
      hide View, Named;
      publishers := [];
      for i := 0 to |order|
        invariant publishers == Remote(info, order[..i], Topic, topicName)
      {
        var more := Matching(nodesInfo[order[i]].topics, topicName);
        publishers := publishers + more;
        assert order[..i + 1][..i] == order[..i];
      }
      assert order[..|order|] == order;
      var own := Matching(local.topics, topicName);
      publishers := publishers + own;
    }

    /** The inner loop of the lookups. */
    method Matching(xs: seq<SocketInfo>, name: Text) returns (found: seq<SocketInfo>)
      ensures found == Named(xs, name)
    {
      found := [];
      for i := 0 to |xs|
        invariant found == Named(xs[..i], name)
      {
        if xs[i].name == name {
          found := found + [xs[i]];
        }
        assert xs[..i + 1][..i] == xs[..i];
      }
      assert xs[..|xs|] == xs;
    }

    method GetServiceInfo(serviceName: Text, order: seq<Text>) returns (service: Option<SocketInfo>)
      requires Enumerates(order, nodesInfo)
      ensures service == First(Lookup(View(), order, local.Value(), Service, serviceName))
    {
      hide View, Named, Remote, First;
      ViewSays();
      service := FirstRemote(serviceName, order);
      FirstOfBoth(Remote(View().info, order, Service, serviceName), Named(local.services, serviceName));
      if service.None? {
        service := FirstMatching(local.services, serviceName);
      }
    }

    /** The loop over the stored records. */
    method FirstRemote(serviceName: Text, order: seq<Text>) returns (service: Option<SocketInfo>)
      requires forall id :: id in order ==> id in nodesInfo
      ensures service == First(Remote(View().info, order, Service, serviceName))
    {
      ghost var info := View().info;
      ViewSays();
      hide View, Named, Remote, NodeRecord.Value, First;
      RemoteNothing(info, Service, serviceName);
      assert order[..0] == [];
      for i := 0 to |order|
        invariant Remote(info, order[..i], Service, serviceName) == []
      {
        ServicesOf(order[i]);
        service := FirstMatching(nodesInfo[order[i]].services, serviceName);
        FirstGoesOn(info, order, i, Service, serviceName);
        if service.Some? {
          return;
        }
      }
      assert order[..|order|] == order;
      FirstOfNone();
      return None;
    }

    lemma ServicesOf(id: Text)
      requires id in nodesInfo
      ensures Entries(View().info[id], Service) == nodesInfo[id].services
    {
    }

    method FirstMatching(xs: seq<SocketInfo>, name: Text) returns (found: Option<SocketInfo>)
      ensures found == First(Named(xs, name))
    {
      for i := 0 to |xs|
        invariant Named(xs[..i], name) == []
      {
        assert xs[..i + 1][..i] == xs[..i];
        if xs[i].name == name {
          NamedPrefix(xs, i + 1, name);
          return Some(xs[i]);
        }
      }
      assert xs[..|xs|] == xs;
      return None;
    }
  }

  lemma UpdatedRecords(t: Table, n: NodeInfo, now: real)
    ensures var u, known := Updated(t, n, now), CheckInfo(t, n.nodeID, n.infoID);
      && u.info == (if known then t.info else t.info[n.nodeID := AtHome(n)])
      && u.tag == (if known then t.tag else t.tag[n.nodeID := n.infoID])
      && u.beat == t.beat[n.nodeID := now]
  {
  }

  function Elements(ids: seq<Text>): set<Text> {
    set id | id in ids
  }

  lemma NothingRemoved(t: Table)
    ensures Without(t, Elements([])) == t
  {
  }

  lemma OneMore(t: Table, ids: seq<Text>, i: nat)
    requires i < |ids| && Elements(ids) <= t.info.Keys
    requires NoRepeats(ids)
    ensures ids[i] in Without(t, Elements(ids[..i])).info
    ensures Without(Without(t, Elements(ids[..i])), {ids[i]}) == Without(t, Elements(ids[..i + 1]))
  {
    assert ids[i] in ids && ids[i] !in ids[..i];
    assert ids[..i + 1] == ids[..i] + [ids[i]];
    assert Elements(ids[..i + 1]) == Elements(ids[..i]) + {ids[i]};
  }

  function First(xs: seq<SocketInfo>): Option<SocketInfo> {
    if xs == [] then None else Some(xs[0])
  }

  /** Some known node, or this one, has a service of the name. */
  ghost predicate Offered(t: Table, local: NodeInfo, name: Text) {
    || (exists p :: p in local.services && p.name == name)
    || (exists id, p :: id in t.info && p in t.info[id].services && p.name == name)
  }

  lemma OfferedHere(t: Table, local: NodeInfo, name: Text)
    ensures (exists p :: p in local.services && p.name == name) ==> Offered(t, local, name)
  {
  }

  lemma OfferedExactly(t: Table, order: seq<Text>, local: NodeInfo, name: Text)
    requires Enumerates(order, t.info)
    ensures First(Lookup(t, order, local, Service, name)).Some? <==> Offered(t, local, name)
  {
    var found := Lookup(t, order, local, Service, name);
    if found != [] {
      LookupExactly(t, order, local, Service, name, found[0]);
    }
    if exists p :: p in local.services && p.name == name {
      var p :| p in local.services && p.name == name;
      LookupExactly(t, order, local, Service, name, p);
    }
    if exists id, p :: id in t.info && p in t.info[id].services && p.name == name {
      var id, p :| id in t.info && p in t.info[id].services && p.name == name;
      assert p in Entries(t.info[id], Service);
      LookupExactly(t, order, local, Service, name, p);
    }
  }

  lemma {:induction false} NamedPrefix(xs: seq<SocketInfo>, n: nat, name: Text)
    requires n <= |xs|
    ensures Named(xs[..n], name) <= Named(xs, name)
  {
    if n < |xs| {
      NamedPrefix(xs[..|xs| - 1], n, name);
      assert xs[..|xs| - 1][..n] == xs[..n];
    } else {
      assert xs[..n] == xs;
    }
  }

  lemma RemoteNothing(info: map<Text, NodeInfo>, kind: Kind, name: Text)
    ensures Remote(info, [], kind, name) == []
  {
  }

  lemma RemoteSnoc(info: map<Text, NodeInfo>, order: seq<Text>, i: nat, kind: Kind, name: Text)
    requires i < |order| && forall id :: id in order ==> id in info
    ensures Remote(info, order[..i + 1], kind, name)
         == Remote(info, order[..i], kind, name) + Named(Entries(info[order[i]], kind), name)
  {
    assert order[..i + 1][..i] == order[..i];
  }

  /** With nothing found so far, the next record's first match decides the lookup, and no match leaves it open. */
  lemma FirstGoesOn(info: map<Text, NodeInfo>, order: seq<Text>, i: nat, kind: Kind, name: Text)
    requires i < |order| && forall id :: id in order ==> id in info
    requires Remote(info, order[..i], kind, name) == []
    ensures var found := First(Named(Entries(info[order[i]], kind), name));
      if found.Some? then found == First(Remote(info, order, kind, name))
      else Remote(info, order[..i + 1], kind, name) == []
  {
    hide Remote, Named;
    RemoteSnoc(info, order, i, kind, name);
    RemotePrefix(info, order, i + 1, kind, name);
  }

  lemma FirstOfBoth(xs: seq<SocketInfo>, ys: seq<SocketInfo>)
    ensures First(xs + ys) == if First(xs).Some? then First(xs) else First(ys)
  {
    if xs == [] {
      assert xs + ys == ys;
    }
  }

  lemma FirstOfNone()
    ensures First([]) == None
  {
  }

  lemma {:induction false} RemotePrefix(info: map<Text, NodeInfo>, order: seq<Text>, n: nat, kind: Kind, name: Text)
    requires n <= |order| && forall id :: id in order ==> id in info
    ensures Remote(info, order[..n], kind, name) <= Remote(info, order, kind, name)
  {
    if n < |order| {
      RemotePrefix(info, order[..|order| - 1], n, kind, name);
      assert order[..|order| - 1][..n] == order[..n];
    } else {
      assert order[..n] == order;
    }
  }
}
