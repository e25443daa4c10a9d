/** The order in which a lookup returns what it finds, and what the first find is. */
module LookupLaws {
  import opened Utf8
  import opened NodeInfoCodec
  import opened NodeTable

  /** Where an entry stands: in the list of the `node`-th record, behind all records in the node's own list. */
  datatype Place = Place(node: nat, entry: nat)

  predicate Before(a: Place, b: Place) {
    a.node < b.node || (a.node == b.node && a.entry < b.entry)
  }

  /** The lists a lookup reads: the stored records' in the dictionary's order, and then the node's own. */
  function ListsRead(t: Table, order: seq<Text>, local: NodeInfo, kind: Kind): seq<seq<SocketInfo>>
    requires forall id :: id in order ==> id in t.info
  {
    seq(|order|, i requires 0 <= i < |order| => Entries(t.info[order[i]], kind)) + [Entries(local, kind)]
  }

  predicate IsNamedAt(lists: seq<seq<SocketInfo>>, name: Text, p: Place) {
    p.node < |lists| && p.entry < |lists[p.node]| && lists[p.node][p.entry].name == name
  }

  /** These are the entries of the name, all of them, each once, in the order of their places. */
  ghost predicate InOrder(lists: seq<seq<SocketInfo>>, name: Text, found: seq<SocketInfo>, places: seq<Place>) {
    && |places| == |found|
    && (forall i :: 0 <= i < |places| ==>
          IsNamedAt(lists, name, places[i]) && found[i] == lists[places[i].node][places[i].entry])
    && (forall i, j :: 0 <= i < j < |places| ==> Before(places[i], places[j]))
    && forall p :: IsNamedAt(lists, name, p) ==> p in places
  }

  /** The entries of the name in all lists. */
  function NamedIn(lists: seq<seq<SocketInfo>>, name: Text): seq<SocketInfo> {
    if lists == [] then []
    else NamedIn(lists[..|lists| - 1], name) + Named(lists[|lists| - 1], name)
  }

  /** One more entry behind all others. */
  lemma EntryInOrder(
      lists: seq<seq<SocketInfo>>, xs: seq<SocketInfo>, x: SocketInfo, name: Text,
      found: seq<SocketInfo>, places: seq<Place>) returns (places': seq<Place>)
    requires InOrder(lists + [xs], name, found, places)
    ensures InOrder(lists + [xs + [x]], name, found + (if x.name == name then [x] else []), places')
  {
    var here := Place(|lists|, |xs|);
    places' := places + if x.name == name then [here] else [];
    var longer := lists + [xs + [x]];
    forall p
      ensures IsNamedAt(longer, name, p) <==> IsNamedAt(lists + [xs], name, p) || (p == here && x.name == name)
      ensures IsNamedAt(lists + [xs], name, p) ==>
        longer[p.node][p.entry] == (lists + [xs])[p.node][p.entry] && Before(p, here)
    {
    }
    hide IsNamedAt, Before;
  }

  lemma EmptyInOrder(lists: seq<seq<SocketInfo>>, name: Text, found: seq<SocketInfo>, places: seq<Place>)
    requires InOrder(lists, name, found, places)
    ensures InOrder(lists + [[]], name, found, places)
  {
    assert forall p :: IsNamedAt(lists + [[]], name, p) <==> IsNamedAt(lists, name, p);
  }

  lemma {:induction false} ListInOrder(
      lists: seq<seq<SocketInfo>>, xs: seq<SocketInfo>, name: Text, found: seq<SocketInfo>, places: seq<Place>)
      returns (places': seq<Place>)
    requires InOrder(lists, name, found, places)
    ensures InOrder(lists + [xs], name, found + Named(xs, name), places')
  {
    hide InOrder;
    if xs == [] {
      EmptyInOrder(lists, name, found, places);
      assert found + Named(xs, name) == found;
      return places;
    }
    var n := |xs| - 1;
    places' := ListInOrder(lists, xs[..n], name, found, places);
    places' := EntryInOrder(lists, xs[..n], xs[n], name, found + Named(xs[..n], name), places');
    var last := if xs[n].name == name then [xs[n]] else [];
    assert xs[..n] + [xs[n]] == xs;
    assert found + Named(xs[..n], name) + last == found + Named(xs, name);
  }

  lemma {:induction false} ListsInOrder(lists: seq<seq<SocketInfo>>, name: Text) returns (places: seq<Place>)
    ensures InOrder(lists, name, NamedIn(lists, name), places)
  {
    if lists == [] {
      return [];
    }
    hide InOrder;
    var n := |lists| - 1;
    places := ListsInOrder(lists[..n], name);
    places := ListInOrder(lists[..n], lists[n], name, NamedIn(lists[..n], name), places);
    assert lists[..n] + [lists[n]] == lists;
  }

  lemma {:induction false} LookupReads(
      t: Table, order: seq<Text>, local: NodeInfo, kind: Kind, name: Text)
    requires forall id :: id in order ==> id in t.info
    ensures Lookup(t, order, local, kind, name) == NamedIn(ListsRead(t, order, local, kind), name)
    decreases |order|
  {
    var lists := ListsRead(t, order, local, kind);
    assert lists[..|order|] + [Entries(local, kind)] == lists;
    if order == [] {
      assert lists[..0] == [];
    } else {
      var n := |order| - 1;
      LookupReads(t, order[..n], t.info[order[n]], kind, name);
      assert ListsRead(t, order[..n], t.info[order[n]], kind) == lists[..|order|];
    }
  }

  /**
   A lookup returns every entry of its name, each once, record by record in the dictionary's order and
   the node's own entries last, each record's in the order of their registration.
   */
  lemma LookupInOrder(t: Table, order: seq<Text>, local: NodeInfo, kind: Kind, name: Text) returns (places: seq<Place>)
    requires forall id :: id in order ==> id in t.info
    ensures InOrder(ListsRead(t, order, local, kind), name, Lookup(t, order, local, kind, name), places)
  {
    hide InOrder;
    LookupReads(t, order, local, kind, name);
    places := ListsInOrder(ListsRead(t, order, local, kind), name);
  }

  /** The first find: an entry that no other of its name stands before. The node's own list comes behind all records. */
  lemma FirstFound(t: Table, order: seq<Text>, local: NodeInfo, kind: Kind, name: Text, p: Place)
    requires forall id :: id in order ==> id in t.info
    requires var lists := ListsRead(t, order, local, kind);
      IsNamedAt(lists, name, p) && forall q :: IsNamedAt(lists, name, q) ==> q == p || Before(p, q)
    ensures var found := Lookup(t, order, local, kind, name);
      && found != [] && p.node <= |order|
      && (p.node < |order| ==>
           var list := Entries(t.info[order[p.node]], kind); p.entry < |list| && found[0] == list[p.entry])
      && (p.node == |order| ==> p.entry < |Entries(local, kind)| && found[0] == Entries(local, kind)[p.entry])
  {
    var lists := ListsRead(t, order, local, kind);
    var places := LookupInOrder(t, order, local, kind, name);
    FirstIsFirst(lists, name, Lookup(t, order, local, kind, name), places, p);
  }

  lemma FirstIsFirst(
      lists: seq<seq<SocketInfo>>, name: Text, found: seq<SocketInfo>, places: seq<Place>, p: Place)
    requires InOrder(lists, name, found, places) && IsNamedAt(lists, name, p)
    requires forall q :: IsNamedAt(lists, name, q) ==> q == p || Before(p, q)
    ensures found != [] && found[0] == lists[p.node][p.entry]
  {
    var i :| 0 <= i < |places| && places[i] == p;
    assert i == 0 || Before(places[0], p);
  }
}
