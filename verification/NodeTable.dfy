/** The three dictionaries in which a node keeps what it knows of the others, as values. */
module NodeTable {
  import opened Sequences
  import opened Utf8
  import opened NodeInfoCodec
  import opened NodeInfoLaws

  /** Keyed by node id: the records, the tag each was stored under, and when each node was last heard. */
  datatype Table = Table(info: map<Text, NodeInfo>, tag: map<Text, int>, beat: map<Text, real>)

  const EMPTY := Table(map[], map[], map[])
  const TIMEOUT := 3.0

  /** Every socket of the record carries the record's address. */
  predicate Homed(n: NodeInfo) {
    HomedAt(n.topics, n.ip) && HomedAt(n.services, n.ip)
  }

  predicate Coherent(t: Table) {
    && t.info.Keys == t.tag.Keys && t.info.Keys <= t.beat.Keys
    && forall id :: id in t.info ==> t.info[id].nodeID == id && t.tag[id] == t.info[id].infoID && Homed(t.info[id])
  }

  predicate CheckInfo(t: Table, id: Text, infoId: int) {
    (if id in t.tag then t.tag[id] else -1) == infoId
  }

  function AtHome(n: NodeInfo): (h: NodeInfo)
    ensures Homed(h) && h.nodeID == n.nodeID && h.infoID == n.infoID && h.name == n.name && h.ip == n.ip
  {
    n.(topics := Rehomed(n.topics, n.ip), services := Rehomed(n.services, n.ip))
  }

  function Contacted(t: Table, id: Text, now: real): Table {
    t.(beat := t.beat[id := now])
  }

  /** A record under the tag already stored counts as a contact and is otherwise dropped. */
  function Updated(t: Table, n: NodeInfo, now: real): Table {
    var heard := Contacted(t, n.nodeID, now);
    if CheckInfo(t, n.nodeID, n.infoID) then heard
    else heard.(info := t.info[n.nodeID := AtHome(n)], tag := t.tag[n.nodeID := n.infoID])
  }

  function Without(t: Table, ids: set<Text>): Table {
    Table(t.info - ids, t.tag - ids, t.beat - ids)
  }

  /** The nodes a sweep finds silent; `clock` gives the reading taken at each node's turn. */
  function Stale(t: Table, clock: map<Text, real>): set<Text>
    requires t.beat.Keys <= clock.Keys
  {
    set id | id in t.beat && clock[id] - t.beat[id] > TIMEOUT
  }

  /** A stale node without a record makes the log line of the sweep raise `KeyError`. */
  predicate SweepRaises(t: Table, clock: map<Text, real>)
    requires t.beat.Keys <= clock.Keys
  {
    exists id :: id in Stale(t, clock) && id !in t.info
  }

  lemma UpdateCoherent(t: Table, n: NodeInfo, now: real)
    requires Coherent(t)
    ensures Coherent(Updated(t, n, now))
  {
    var u := Updated(t, n, now);
    if CheckInfo(t, n.nodeID, n.infoID) {
      assert u.info == t.info && u.tag == t.tag;
    }
  }

  /**
   What an update does to a coherent table. The record is stored, with its sockets at its own address, unless
   one of the same tag is there already, which then stays; a node never stored before must not carry -1, the
   tag that stands for none. The contact is noted in any case, and nothing changes for any other node.
   */
  lemma UpdateExactly(t: Table, n: NodeInfo, now: real)
    requires Coherent(t)
    ensures var u, id := Updated(t, n, now), n.nodeID;
      && (id in u.info <==> id in t.info || n.infoID != -1)
      && (id in u.info ==>
           && u.tag[id] == n.infoID
           && u.info[id] ==
                if id in t.info && t.info[id].infoID == n.infoID then t.info[id]
                else n.(topics := Rehomed(n.topics, n.ip), services := Rehomed(n.services, n.ip)))
      && u.beat == t.beat[id := now]
      && u.info - {id} == t.info - {id} && u.tag - {id} == t.tag - {id}
  {
    hide Homed;
  }

  lemma WithoutCoherent(t: Table, ids: set<Text>)
    requires Coherent(t)
    ensures Coherent(Without(t, ids))
  {
  }

  /**
   Exactness of a sweep that does not raise and whose readings lie between its start and its end. It
   forgets every node already stale at the start, no node still fresh at the end, and nothing of any
   node it keeps.
   */
  lemma SweepExactly(t: Table, clock: map<Text, real>, start: real, end: real)
    requires Coherent(t) && t.beat.Keys <= clock.Keys
    requires forall id :: id in t.beat ==> start <= clock[id] <= end
    ensures var swept := Without(t, Stale(t, clock));
      && Coherent(swept)
      && (forall id :: id in t.beat && start - t.beat[id] > 3.0 ==>
            id !in swept.info && id !in swept.tag && id !in swept.beat)
      && (forall id :: id in t.beat && end - t.beat[id] <= 3.0 ==>
            id in swept.beat && (id in t.info ==> id in swept.info))
      && (forall id :: id in swept.beat ==> swept.beat[id] == t.beat[id] && start - 3.0 <= swept.beat[id])
      && (forall id :: id in swept.info ==> swept.info[id] == t.info[id])
  {
    WithoutCoherent(t, Stale(t, clock));
  }

  // ---------- lookups ----------

  datatype Kind = Topic | Service

  function Entries(n: NodeInfo, kind: Kind): seq<SocketInfo> {
    if kind.Topic? then n.topics else n.services
  }

  /** The entries of a name, in order. */
  function Named(xs: seq<SocketInfo>, name: Text): seq<SocketInfo> {
    if xs == [] then []
    else
      var n := |xs| - 1;
      Named(xs[..n], name) + if xs[n].name == name then [xs[n]] else []
  }

  /** A dictionary's iteration order: each key once. */
  ghost predicate Enumerates<V>(order: seq<Text>, m: map<Text, V>) {
    && NoRepeats(order)
    && (forall id :: id in order <==> id in m)
  }

  /** The entries of a name in the stored records, in the order of the dictionary. */
  function Remote(info: map<Text, NodeInfo>, order: seq<Text>, kind: Kind, name: Text): seq<SocketInfo>
    requires forall id :: id in order ==> id in info
  {
    if order == [] then []
    else
      var n := |order| - 1;
      Remote(info, order[..n], kind, name) + Named(Entries(info[order[n]], kind), name)
  }

  /** What a lookup sees: the stored records first, the node's own entries last. */
  function Lookup(t: Table, order: seq<Text>, local: NodeInfo, kind: Kind, name: Text): seq<SocketInfo>
    requires forall id :: id in order ==> id in t.info
  {
    Remote(t.info, order, kind, name) + Named(Entries(local, kind), name)
  }

  lemma {:induction false} NamedExactly(xs: seq<SocketInfo>, name: Text, p: SocketInfo)
    ensures p in Named(xs, name) <==> p in xs && p.name == name
  {
    if xs != [] {
      var n := |xs| - 1;
      NamedExactly(xs[..n], name, p);
      assert xs == xs[..n] + [xs[n]];
    }
  }

  lemma {:induction false} RemoteExactly(
      info: map<Text, NodeInfo>, order: seq<Text>, kind: Kind, name: Text, p: SocketInfo)
    requires forall id :: id in order ==> id in info
    ensures p in Remote(info, order, kind, name)
       <==> p.name == name && exists id :: id in order && p in Entries(info[id], kind)
  {
    if order != [] {
      var n := |order| - 1;
      RemoteExactly(info, order[..n], kind, name, p);
      NamedExactly(Entries(info[order[n]], kind), name, p);
      assert order == order[..n] + [order[n]];
      assert forall id :: id in order <==> id in order[..n] || id == order[n];
    }
  }

  /** A lookup returns the publications of its name in the table and on the node itself, and no others. */
  lemma LookupExactly(t: Table, order: seq<Text>, local: NodeInfo, kind: Kind, name: Text, p: SocketInfo)
    requires Enumerates(order, t.info)
    ensures p in Lookup(t, order, local, kind, name)
       <==> p.name == name && (p in Entries(local, kind) || exists id :: id in t.info && p in Entries(t.info[id], kind))
  {
    RemoteExactly(t.info, order, kind, name, p);
    NamedExactly(Entries(local, kind), name, p);
  }
}
