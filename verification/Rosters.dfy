/** The subscribers a manager has made, as values: their URL lists, and which of them its dictionary holds. */
module Rosters {
  import opened Utf8
  import opened Literals
  import opened NodeInfoCodec

  /** Where a manager stands: its own address and the directory name of its group's IPC sockets. */
  datatype Site = Site(localIp: Text, groupName: Text)

  /** Decimal digits, as an f-string writes an integer. */
  function Decimal(n: int): Text
    decreases if n < 0 then 1 - n else n
  {
    if n < 0 then Literal("-") + Decimal(-n)
    else if n < 10 then [0x30 + n]
    else Decimal(n / 10) + [0x30 + n % 10]
  }

  function TcpUrl(p: SocketInfo): Text {
    Literal("tcp://") + p.ip + Literal(":") + Decimal(p.port)
  }

  function IpcUrl(site: Site, name: Text): Text {
    Literal("ipc:///tmp/zlc/") + site.groupName + Literal("/") + name + Literal("/topic.sock")
  }

  /** `ipcExists` is the answer `os.path.exists` gives at this call. */
  function ConnectUrl(site: Site, p: SocketInfo, ipcExists: bool): Text {
    if p.ip == site.localIp && ipcExists then IpcUrl(site, p.name) else TcpUrl(p)
  }

  /** The URL lists of the registered subscribers, by topic. */
  type Urls = map<Text, seq<Text>>

  function Connected(urls: seq<Text>, url: Text): seq<Text> {
    if url in urls then urls else urls + [url]
  }

  /** A new subscriber's list after it connected to these publications in order. */
  function ConnectedAll(site: Site, pubs: seq<SocketInfo>, ipc: seq<bool>): seq<Text>
    requires |ipc| == |pubs|
  {
    if pubs == [] then []
    else
      var n := |pubs| - 1;
      Connected(ConnectedAll(site, pubs[..n], ipc[..n]), ConnectUrl(site, pubs[n], ipc[n]))
  }

  function ConnectTopic(site: Site, subs: Urls, p: SocketInfo, ipcExists: bool): Urls {
    if p.name in subs then subs[p.name := Connected(subs[p.name], ConnectUrl(site, p, ipcExists))] else subs
  }

  /** What `check_new_node` makes of the lists when a node with these topics is announced. */
  function Announced(site: Site, subs: Urls, topics: seq<SocketInfo>, ipc: seq<bool>): Urls
    requires |ipc| == |topics|
  {
    if topics == [] then subs
    else
      var n := |topics| - 1;
      ConnectTopic(site, Announced(site, subs, topics[..n], ipc[..n]), topics[n], ipc[n])
  }

  datatype Sub = Sub(topic: Text, urls: seq<Text>, running: bool)

  /** Every subscriber ever made, in order, and the one the dictionary holds for each topic. */
  datatype Register = Register(subs: seq<Sub>, dict: map<Text, nat>)

  predicate Placed(r: Register) {
    forall t :: t in r.dict ==> r.dict[t] < |r.subs| && r.subs[r.dict[t]].topic == t
  }

  type Roster = r: Register | Placed(r) witness Register([], map[])

  /** The dictionary holds this subscriber; one that it holds no longer has been displaced. */
  predicate Current(r: Roster, i: nat) {
    i < |r.subs| && r.subs[i].topic in r.dict && r.dict[r.subs[i].topic] == i
  }

  function UrlsOf(r: Roster): Urls {
    map t | t in r.dict :: r.subs[r.dict[t]].urls
  }

  /** A second subscriber of a topic takes the dictionary's entry; the first stays as it is. */
  function Added(r: Roster, topic: Text, urls: seq<Text>): Roster {
    Register(r.subs + [Sub(topic, urls, true)], r.dict[topic := |r.subs|])
  }

  function ToldOne(site: Site, r: Roster, p: SocketInfo, ipcExists: bool): (r': Roster)
    ensures r'.dict == r.dict && |r'.subs| == |r.subs|
  {
    if p.name !in r.dict then r
    else
      var i := r.dict[p.name];
      Register(r.subs[i := r.subs[i].(urls := Connected(r.subs[i].urls, ConnectUrl(site, p, ipcExists)))], r.dict)
  }

  /** What `check_new_node` does to the subscribers when a node with these topics is announced. */
  function Told(site: Site, r: Roster, topics: seq<SocketInfo>, ipc: seq<bool>): (r': Roster)
    requires |ipc| == |topics|
    ensures r'.dict == r.dict && |r'.subs| == |r.subs|
  {
    if topics == [] then r
    else
      var n := |topics| - 1;
      ToldOne(site, Told(site, r, topics[..n], ipc[..n]), topics[n], ipc[n])
  }

  function ClosedIf(s: Sub, closes: bool): Sub {
    if closes then s.(running := false) else s
  }

  /** What `stop` does: it closes the subscribers the dictionary holds. */
  function Closed(r: Roster): (r': Roster)
    ensures r'.dict == r.dict && |r'.subs| == |r.subs|
    ensures forall i :: 0 <= i < |r.subs| ==>
      r'.subs[i] == ClosedIf(r.subs[i], Current(r, i))
  {
    var subs := seq(|r.subs|, i requires 0 <= i < |r.subs| => ClosedIf(r.subs[i], Current(r, i)));
    Register(subs, r.dict)
  }

  function ClosedOne(r: Roster, topic: Text): Roster
    requires topic in r.dict
  {
    Register(r.subs[r.dict[topic] := r.subs[r.dict[topic]].(running := false)], r.dict)
  }

  /** The current subscribers of these topics are closed, one after the other. */
  function ClosedIn(r: Roster, topics: seq<Text>): (r': Roster)
    requires forall t :: t in topics ==> t in r.dict
    ensures r'.dict == r.dict && |r'.subs| == |r.subs|
    ensures forall i :: 0 <= i < |r.subs| ==>
      r'.subs[i] == ClosedIf(r.subs[i], Current(r, i) && r.subs[i].topic in topics)
  {
    if topics == [] then r
    else
      var n := |topics| - 1;
      assert topics == topics[..n] + [topics[n]];
      ClosedOne(ClosedIn(r, topics[..n]), topics[n])
  }

  lemma ClosedInAll(r: Roster, topics: seq<Text>)
    requires forall t :: t in topics <==> t in r.dict
    ensures ClosedIn(r, topics) == Closed(r)
  {
    assert ClosedIn(r, topics).subs == Closed(r).subs;
  }

  // ---------- the lists of the current subscribers ----------

  lemma AddedUrls(r: Roster, topic: Text, urls: seq<Text>)
    ensures UrlsOf(Added(r, topic, urls)) == UrlsOf(r)[topic := urls]
  {
  }

  lemma ToldOneUrls(site: Site, r: Roster, p: SocketInfo, ipcExists: bool)
    ensures UrlsOf(ToldOne(site, r, p, ipcExists)) == ConnectTopic(site, UrlsOf(r), p, ipcExists)
  {
    hide ConnectUrl, Connected;
  }

  lemma {:induction false} ToldUrls(site: Site, r: Roster, topics: seq<SocketInfo>, ipc: seq<bool>)
    requires |ipc| == |topics|
    ensures UrlsOf(Told(site, r, topics, ipc)) == Announced(site, UrlsOf(r), topics, ipc)
  {
    hide UrlsOf, ToldOne, ConnectTopic;
    if topics != [] {
      var n := |topics| - 1;
      ToldUrls(site, r, topics[..n], ipc[..n]);
      ToldOneUrls(site, Told(site, r, topics[..n], ipc[..n]), topics[n], ipc[n]);
    }
  }

  lemma ClosedUrls(r: Roster)
    ensures UrlsOf(Closed(r)) == UrlsOf(r)
  {
  }

  // ---------- the displaced ----------

  /** A subscriber that is told has kept its topic and its state, and a displaced one everything. */
  lemma {:induction false} ToldSpares(site: Site, r: Roster, topics: seq<SocketInfo>, ipc: seq<bool>, i: nat)
    requires |ipc| == |topics| && i < |r.subs|
    ensures var r' := Told(site, r, topics, ipc);
      && r'.subs[i].topic == r.subs[i].topic && r'.subs[i].running == r.subs[i].running
      && (!Current(r, i) ==> r'.subs[i] == r.subs[i])
  {
    hide ConnectUrl, Connected;
    if topics != [] {
      var n := |topics| - 1;
      ToldSpares(site, r, topics[..n], ipc[..n], i);
    }
  }
}
