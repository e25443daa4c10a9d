/** A node's wiring: its table, and a subscriber manager subscribed to the table's update event. */
module Node {
  import opened Sequences
  import opened Utf8
  import opened NodeInfoCodec
  import opened NodeTable
  import opened Rosters
  import opened Subscribers
  import opened NodesInfo
  import opened Subscriptions

  lemma TopicsAtHome(n: NodeInfo)
    ensures |AtHome(n).topics| == |n.topics|
  {
  }

  /** Each method carries out one operation of `Subscriptions` on the objects. */
  class LanComNode {
    const nodes: NodesInfoManager
    const subscribers: SubscriberManager

    ghost predicate Valid()
      reads this, nodes, nodes.nodesInfo.Values, nodes.updateEvent, nodes.updateEvent.handlers,
        nodes.updateEvent.Footprint(), subscribers, subscribers.Repr
    {
      && nodes.Valid() && nodes.updateEvent.Valid() && subscribers.Valid()
      && nodes.updateEvent.handlers <= [subscribers]
    }

    ghost function View(): NodeState
      reads this, nodes, nodes.local, nodes.nodesInfo.Values, nodes.updateEvent, subscribers, subscribers.Repr
      requires subscribers.Valid()
    {
      NodeState(subscribers.site, nodes.View(), nodes.local.Value(), subscribers.View(),
        nodes.updateEvent.handlers == [subscribers])
    }

    constructor (name: Text, ip: Text, nodeID: Text, groupName: Text)
      ensures Valid() && View() == Initial(Site(ip, groupName), NodeInfo(nodeID, 0, name, ip, [], []))
    {
      nodes := new NodesInfoManager(name, ip, nodeID);
      subscribers := new SubscriberManager(Site(ip, groupName));
      new;
      nodes.updateEvent.Subscribe(subscribers);
    }

    method ReplyArrives(info: NodeRecord, nodeIp: Text, now: real, ipc: seq<bool>)
      requires Valid() && info != nodes.local && info !in nodes.nodesInfo.Values && |ipc| == |info.topics|
      modifies nodes, info, nodes.updateEvent.Footprint()
      ensures Valid() && View() == Apply(old(View()), Reply(old(info.Value()), nodeIp, now, ipc))
    {
      hide Updated, Told, Coherent, AtHome, NodesInfoManager.View, SubscriberManager.View, NodesInfoManager.Valid;
      TopicsAtHome(info.Value().(ip := nodeIp));
      hide NodeRecord.Value, Event.Footprint, Event.Rosters, ToldAll, SubscriberManager.Valid;
      ghost var event, before := nodes.updateEvent, nodes.updateEvent.Rosters();
      event.OneHandler(subscribers);
      nodes.ReplyArrives(info, nodeIp, now, map[subscribers := ipc]);
      event.OneHandler(subscribers);
      if event.handlers == [subscribers] {
        ToldAllAt(before, info.topics, map[subscribers := ipc], subscribers);
      }
    }

    /** Answers whether the node's record is to be fetched. */
    method HeartbeatArrives(id: Text, infoId: int, now: real) returns (fetch: bool)
      requires Valid()
      modifies nodes
      ensures Valid() && View() == Apply(old(View()), Heartbeat(id, now))
      ensures fetch == !CheckInfo(old(View()).table, id, infoId)
    {
      hide Coherent, CheckInfo, Contacted, NodesInfoManager.View, NodeRecord.Value, SubscriberManager.View;
      fetch := nodes.HeartbeatArrives(id, infoId, now);
    }

    /** Answers false where the sweep raises. */
    method SweepOnce(order: seq<Text>, clock: map<Text, real>) returns (ok: bool)
      requires Valid() && Enumerates(order, View().table.beat) && Enabled(View(), Op.Sweep(clock))
      modifies nodes
      ensures Valid() && View() == Apply(old(View()), Op.Sweep(clock))
      ensures ok == !SweepRaises(old(View()).table, clock)
    {
      hide Coherent, Stale, SweepRaises, Without, NodeRecord.Value, SubscriberManager.View, Enumerates;
      ok := nodes.SweepOnce(order, clock);
    }

    /** Answers false where the program raises `ValueError`. */
    method Offer(service: Text, port: int, order: seq<Text>) returns (ok: bool)
      requires Valid() && Enumerates(order, View().table.info)
      modifies nodes.local
      ensures Valid() && ok == !Offered(old(View()).table, old(View()).local, service)
      ensures View() == if ok then Apply(old(View()), Op.Offer(service, port)) else old(View())
    {
      hide Coherent, Offered, NodesInfoManager.View, SubscriberManager.View;
      nodes.ViewSays();
      assert Enumerates(order, nodes.nodesInfo);
      ok := nodes.RegisterLocalService(service, port, order);
    }

    method Publish(topic: Text, port: int, ipc: seq<bool>)
      requires Valid() && |ipc| == |nodes.local.topics| + 1
      modifies nodes.local, nodes.updateEvent.Footprint()
      ensures Valid() && View() == Apply(old(View()), Op.Publish(topic, port, ipc))
    {
      assert nodes.local !in subscribers.Repr;
      hide Updated, Told, Coherent, NodesInfoManager.View, SubscriberManager.View, NodesInfoManager.Valid;
      hide Event.Footprint, Event.Rosters, ToldAll, SubscriberManager.Valid;
      ghost var event, before := nodes.updateEvent, nodes.updateEvent.Rosters();
      event.OneHandler(subscribers);
      nodes.RegisterLocalPublisher(topic, port, map[subscribers := ipc]);
      assert nodes.local.topics == nodes.local.Value().topics;
      event.OneHandler(subscribers);
      if event.handlers == [subscribers] {
        ToldAllAt(before, nodes.local.topics, map[subscribers := ipc], subscribers);
      }
    }

    method Subscribe(topic: Text, order: seq<Text>, ipc: seq<bool>)
      requires Valid() && Enabled(View(), Op.Subscribe(topic, order, ipc))
      modifies subscribers
      ensures Valid() && View() == Apply(old(View()), Op.Subscribe(topic, order, ipc))
    {
      hide Lookup, ConnectedAll, Coherent, NodeRecord.Value, NodesInfoManager.View, SubscriberManager.View;
      nodes.ViewSays();
      var pubs := nodes.GetPublisherInfo(topic, order);
      subscribers.AddSubscriber(topic, pubs, ipc);
    }

    method Stop(order: seq<Text>)
      requires Valid() && forall t :: t in order <==> t in subscribers.subscriberDict
      modifies nodes.updateEvent, subscribers.Repr
      ensures Valid() && View() == Apply(old(View()), Op.Stop)
    {
      hide Coherent, NodesInfoManager.View, NodeRecord.Value, SubscriberManager.View;
      hide TakenOut, Closed;
      ghost var before := nodes.updateEvent.handlers;
      nodes.updateEvent.Unsubscribe(subscribers);
      if subscribers in before {
        TakenOutOfOne(before, subscribers, nodes.updateEvent.handlers);
      }
      subscribers.CloseAll(order);
    }
  }
}
