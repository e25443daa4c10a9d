/** Subscribers, their manager, and the event through which node updates reach it. */
module Subscribers {
  import opened Sequences
  import opened Utf8
  import opened NodeInfoCodec
  import opened Rosters

  class Subscriber {
    const name: Text
    var running: bool
    var connected: bool
    var subUrls: seq<Text>

    constructor (topicName: Text)
      ensures name == topicName && running && !connected && subUrls == []
    {
      name := topicName;
      running, connected, subUrls := true, false, [];
    }

    function Value(): Sub
      reads this
    {
      Sub(name, subUrls, running)
    }

    method Connect(url: Text)
      modifies this`connected, this`subUrls
      ensures subUrls == Connected(old(subUrls), url)
      ensures connected == (old(connected) || url !in old(subUrls))
    {
      if url in subUrls {
        return;
      }
      connected := true;
      subUrls := subUrls + [url];
    }

    method Close()
      modifies this`running
      ensures !running
    {
      running := false;
    }
  }

  class SubscriberManager {
    const site: Site
    var subscriberDict: map<Text, Subscriber>
    ghost var Repr: set<object>
    ghost var made: seq<Subscriber>       // every subscriber, displaced ones too
    ghost var place: map<Text, nat>       // where the dictionary's are among them

    ghost predicate Valid()
      reads this, Repr
    {
      && this in Repr
      && (forall o: object :: o in Repr ==> o == this || o is Subscriber)
      && (forall i :: 0 <= i < |made| ==> made[i] in Repr)
      && NoRepeats(made)
      && place.Keys == subscriberDict.Keys
      && (forall t :: t in place ==>
            place[t] < |made| && made[place[t]] == subscriberDict[t] && subscriberDict[t].name == t)
    }

    ghost function View(): (r: Roster)
      reads this, Repr
      requires Valid()
      ensures |r.subs| == |made| && r.dict == place
      ensures forall i :: 0 <= i < |made| ==> r.subs[i] == made[i].Value()
    {
      var all := made;
      Register(seq(|all|, i requires 0 <= i < |all| reads all => all[i].Value()), place)
    }

    constructor (site: Site)
      ensures Valid() && fresh(Repr) && this.site == site && View() == Register([], map[])
    {
      this.site := site;
      subscriberDict := map[];
      Repr, made, place := {this}, [], map[];
    }

    method AddSubscriber(topicName: Text, pubs: seq<SocketInfo>, ipc: seq<bool>)
      requires Valid() && |ipc| == |pubs|
      modifies this
      ensures Valid() && fresh(Repr - old(Repr)) && old(Repr) <= Repr
      ensures View() == Added(old(View()), topicName, ConnectedAll(site, pubs, ipc))
    {
      var subscriber := new Subscriber(topicName);
      ConnectPublishers(subscriber, pubs, ipc);
      hide ConnectedAll, View, Added;
      Enter(subscriber);
    }

    /** The dictionary's entry for the topic is this subscriber from now on. */
    method Enter(subscriber: Subscriber)
      requires Valid() && subscriber !in Repr && subscriber.running
      modifies this
      ensures Valid() && Repr == old(Repr) + {subscriber}
      ensures View() == Added(old(View()), subscriber.name, subscriber.subUrls)
    {
      subscriberDict := subscriberDict[subscriber.name := subscriber];
      place := place[subscriber.name := |made|];
      made := made + [subscriber];
      Repr := Repr + {subscriber};
      assert View().subs == Added(old(View()), subscriber.name, subscriber.subUrls).subs;
    }

    method ConnectPublishers(subscriber: Subscriber, pubs: seq<SocketInfo>, ipc: seq<bool>)
      requires |ipc| == |pubs| && subscriber.subUrls == []
      modifies subscriber`connected, subscriber`subUrls
      ensures subscriber.subUrls == ConnectedAll(site, pubs, ipc)
    {
      hide ConnectUrl;
      for i := 0 to |pubs|
        invariant subscriber.subUrls == ConnectedAll(site, pubs[..i], ipc[..i])
      {
        var url := ConnectUrl(site, pubs[i], ipc[i]);
        subscriber.Connect(url);
        assert pubs[..i + 1][..i] == pubs[..i] && ipc[..i + 1][..i] == ipc[..i];
      }
      assert pubs[..|pubs|] == pubs && ipc[..|ipc|] == ipc;
    }

    method CheckNewNode(topics: seq<SocketInfo>, ipc: seq<bool>)
      requires Valid() && |ipc| == |topics|
      modifies Repr
      ensures Valid() && Repr == old(Repr) && subscriberDict == old(subscriberDict)
      ensures View() == Told(site, old(View()), topics, ipc)
    {
      hide ToldOne, View;
      for i := 0 to |topics|
        invariant Valid() && Repr == old(Repr) && subscriberDict == old(subscriberDict)
        invariant View() == Told(site, old(View()), topics[..i], ipc[..i])
      {
        ConnectIfSubscribed(topics[i], ipc[i]);
        assert topics[..i + 1][..i] == topics[..i] && ipc[..i + 1][..i] == ipc[..i];
      }
      assert topics[..|topics|] == topics && ipc[..|ipc|] == ipc;
    }

    /** The body of the loop. */
    method ConnectIfSubscribed(topic: SocketInfo, ipcExists: bool)
      requires Valid()
      modifies Repr
      ensures Valid() && Repr == old(Repr) && subscriberDict == old(subscriberDict)
      ensures View() == ToldOne(site, old(View()), topic, ipcExists)
    {
      hide ConnectUrl;
      if topic.name in subscriberDict {
        var url := ConnectUrl(site, topic, ipcExists);
        var subscriber := subscriberDict[topic.name];
        if url !in subscriber.subUrls {
          subscriber.Connect(url);
        }
      }
      assert View().subs == ToldOne(site, old(View()), topic, ipcExists).subs;
    }

    /** Closes what the dictionary holds; the caller has unsubscribed the manager from the update event. */
    method CloseAll(order: seq<Text>)
      requires Valid() && forall t :: t in order <==> t in subscriberDict
      modifies Repr
      ensures Valid() && Repr == old(Repr) && subscriberDict == old(subscriberDict)
      ensures View() == Closed(old(View()))
    {
      hide View, ClosedOne;
      ghost var before := View();
      for i := 0 to |order|
        invariant Valid() && Repr == old(Repr) && subscriberDict == old(subscriberDict)
        invariant View() == ClosedIn(before, order[..i])
      {
        CloseOne(order[i]);
        assert order[..i + 1][..i] == order[..i];
      }
      assert order[..|order|] == order;
      ClosedInAll(before, order);
    }

    method CloseOne(topic: Text)
      requires Valid() && topic in subscriberDict
      modifies Repr
      ensures Valid() && Repr == old(Repr) && subscriberDict == old(subscriberDict)
      ensures View() == ClosedOne(old(View()), topic)
    {
      subscriberDict[topic].Close();
      assert View().subs == ClosedOne(old(View()), topic).subs;
    }
  }

  /** `Event`, whose handlers are bound `check_new_node` methods, each known by its manager. */
  class Event {
    var handlers: seq<SubscriberManager>

    ghost predicate Valid()
      reads this, handlers, set h, o | h in handlers && o in h.Repr :: o
    {
      && (forall i :: 0 <= i < |handlers| ==> handlers[i].Valid())
      && (forall i, j :: 0 <= i < j < |handlers| ==> handlers[i].Repr !! handlers[j].Repr)
    }

    constructor ()
      ensures handlers == [] && Valid()
    {
      handlers := [];
    }

    method Subscribe(handler: SubscriberManager)
      modifies this
      ensures handlers == if handler in old(handlers) then old(handlers) else old(handlers) + [handler]
    {
      if handler !in handlers {
        handlers := handlers + [handler];
      }
    }

    method Unsubscribe(handler: SubscriberManager)
      modifies this
      ensures if handler in old(handlers) then TakenOut(old(handlers), handler, handlers) else handlers == old(handlers)
      ensures NoRepeats(old(handlers)) ==> NoRepeats(handlers) && handler !in handlers
    {
      if handler in handlers {
        ghost var before := handlers;
        handlers := WithoutFirst(handlers, handler);
        if NoRepeats(before) {
          TakenOutOnce(before, handler, handlers);
        }
      }
    }

    ghost function Rosters(): map<SubscriberManager, Roster>
      reads this, handlers, set h, o | h in handlers && o in h.Repr :: o
      requires Valid()
    {
      map h | h in handlers :: h.View()
    }

    /** The objects the handlers may change: managers and their subscribers. */
    ghost function Footprint(): set<object>
      reads this, handlers
    {
      set h, o | h in handlers && o in h.Repr :: o
    }

    lemma OneHandler(h: SubscriberManager)
      requires Valid() && handlers <= [h]
      ensures Footprint() == if handlers == [] then {} else h.Repr
      ensures forall g :: g in Rosters() ==> g == h
      ensures handlers == [h] ==> h in Rosters() && Rosters()[h] == h.View() && h.Valid()
    {
      if handlers != [] {
        assert handlers == [h];
      }
    }

    /** They are no others. */
    lemma FootprintIsTheirs()
      requires Valid()
      ensures forall o :: o in Footprint() ==> o is SubscriberManager || o is Subscriber
    {
      forall o | o in Footprint()
        ensures o is SubscriberManager || o is Subscriber
      {
        var h :| h in handlers && o in h.Repr;
        assert h.Valid();
      }
    }

    /** Every handler subscribed at the call runs once; `ipc` holds the answers each of them gets. */
    method Emit(topics: seq<SocketInfo>, ipc: Answers)
      requires Valid() && Answer(ipc, handlers, |topics|)
      modifies Footprint()
      ensures Valid() && handlers == old(handlers) && Footprint() == old(Footprint())
      ensures Rosters() == ToldAll(old(Rosters()), topics, ipc)
    {
      hide Told, SubscriberManager.View, ToldAll;
      ghost var before := Rosters();
      CallAll(handlers, topics, ipc);
      ToldAllSays(before, Rosters(), topics, ipc);
    }

    /** The loop over the copied list. */
    static method CallAll(copy: seq<SubscriberManager>, topics: seq<SocketInfo>, ipc: Answers)
      requires Answer(ipc, copy, |topics|)
      requires forall i :: 0 <= i < |copy| ==> copy[i].Valid()
      requires forall i, j :: 0 <= i < j < |copy| ==> copy[i].Repr !! copy[j].Repr
      modifies set h, o | h in copy && o in h.Repr :: o
      ensures forall h :: h in copy ==> h.Valid() && h.Repr == old(h.Repr)
      ensures forall h :: h in copy ==> h.View() == Told(h.site, old(h.View()), topics, ipc[h])
    {
      assert forall k :: 0 <= k < |copy| ==> copy[k] in copy[k].Repr;
      hide Told, SubscriberManager.View, SubscriberManager.Valid;
      for i := 0 to |copy|
        invariant forall k :: 0 <= k < |copy| ==> copy[k].Valid() && copy[k].Repr == old(copy[k].Repr)
        invariant forall k :: 0 <= k < i ==>
          copy[k].View() == Told(copy[k].site, old(copy[k].View()), topics, ipc[copy[k]])
        invariant forall k :: i <= k < |copy| ==> copy[k].View() == old(copy[k].View())
      {
        var handler := copy[i];
        assert forall k :: 0 <= k < |copy| && k != i ==> copy[k].Repr !! handler.Repr;
        handler.CheckNewNode(topics, ipc[handler]);
      }
    }
  }

  /** What `os.path.exists` answers each handler, entry by entry. */
  type Answers = map<SubscriberManager, seq<bool>>

  ghost predicate Answer(ipc: Answers, handlers: seq<SubscriberManager>, entries: nat) {
    forall h :: h in handlers ==> h in ipc && |ipc[h]| == entries
  }

  ghost function ToldAll(
      before: map<SubscriberManager, Roster>, topics: seq<SocketInfo>, ipc: Answers): map<SubscriberManager, Roster>
    requires forall h :: h in before ==> h in ipc && |ipc[h]| == |topics|
  {
    map h | h in before :: Told(h.site, before[h], topics, ipc[h])
  }

  lemma ToldAllAt(
      before: map<SubscriberManager, Roster>, topics: seq<SocketInfo>, ipc: Answers, h: SubscriberManager)
    requires forall g :: g in before ==> g in ipc && |ipc[g]| == |topics|
    requires h in before
    ensures h in ToldAll(before, topics, ipc)
    ensures ToldAll(before, topics, ipc)[h] == Told(h.site, before[h], topics, ipc[h])
  {
    hide Told;
  }

  lemma ToldAllSays(
      before: map<SubscriberManager, Roster>, after: map<SubscriberManager, Roster>,
      topics: seq<SocketInfo>, ipc: Answers)
    requires forall h :: h in before ==> h in ipc && |ipc[h]| == |topics|
    requires forall h :: h in before <==> h in after
    requires forall h :: h in before ==> after[h] == Told(h.site, before[h], topics, ipc[h])
    ensures after == ToldAll(before, topics, ipc)
  {
    hide Told;
  }
}
