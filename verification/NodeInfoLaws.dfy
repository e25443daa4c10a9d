/**
 What the node record codec promises. One statement carries the rest: the reader accepts exactly
 the layouts of well-formed records, whatever bytes follow, and returns the record it was given.
 */
module NodeInfoLaws {
  import opened Wrappers
  import opened Utf8
  import opened Binary
  import opened NodeInfoCodec

  /** `b` stands in `d` at position `p`. */
  predicate At(d: seq<Byte>, p: nat, b: seq<Byte>) {
    p + |b| <= |d| && d[p..p + |b|] == b
  }

  predicate HomedAt(xs: seq<SocketInfo>, ip: Text) {
    forall i :: 0 <= i < |xs| ==> xs[i].ip == ip
  }

  /** The node id fills its field and every socket carries its node's address. */
  predicate WellFormed(r: NodeInfo) {
    && Fits(r) && |Encode(r.nodeID)| == NODE_ID_BYTES
    && HomedAt(r.topics, r.ip) && HomedAt(r.services, r.ip)
  }

  lemma AtConcat(d: seq<Byte>, p: nat, a: seq<Byte>, b: seq<Byte>)
    ensures At(d, p, a + b) <==> At(d, p, a) && At(d, p + |a|, b)
  {
    if At(d, p, a + b) {
      assert d[p..p + |a|] == (a + b)[..|a|];
      assert d[p + |a|..p + |a| + |b|] == (a + b)[|a|..];
    }
    if At(d, p, a) && At(d, p + |a|, b) {
      assert d[p..p + |a + b|] == d[p..p + |a|] + d[p + |a|..p + |a| + |b|];
    }
  }

  lemma U16AtExactly(d: seq<Byte>, p: nat, v: int, q: nat)
    ensures U16At(d, p) == Some((v, q)) <==> FitsU16(v) && At(d, p, U16(v)) && q == p + 2
  {
    if p + 2 <= |d| {
      U16Exactly(d[p..p + 2], v);
    }
  }

  lemma U32AtExactly(d: seq<Byte>, p: nat, v: int, q: nat)
    ensures U32At(d, p) == Some((v, q)) <==> 0 <= v < U32_END && At(d, p, U32(v)) && q == p + 4
  {
    if p + 4 <= |d| {
      U32Exactly(d[p..p + 4], v);
    }
  }

  /** Only a read that ends inside the data is tied to it; `StringAt` itself may run past the end. */
  lemma StringAtExactly(d: seq<Byte>, p: nat, s: Text, q: nat)
    requires q <= |d|
    ensures StringAt(d, p) == Some((s, q))
       <==> FitsString(s) && At(d, p, StringBytes(s)) && q == p + |StringBytes(s)|
  {
    hide Encode, Decode, U16, U32, FromU16, FromU32, Encodable;
    if StringAt(d, p) == Some((s, q)) {
      StringReadStands(d, p, s, q);
    }
    if FitsString(s) && At(d, p, StringBytes(s)) && q == p + |StringBytes(s)| {
      AtConcat(d, p, U16(|Encode(s)|), Encode(s));
      U16AtExactly(d, p, |Encode(s)|, p + 2);
      DecodesExactly(d[p + 2..q], s);
    }
  }

  lemma StringReadStands(d: seq<Byte>, p: nat, s: Text, q: nat)
    requires q <= |d| && StringAt(d, p) == Some((s, q))
    ensures FitsString(s) && At(d, p, StringBytes(s)) && q == p + |StringBytes(s)|
  {
    hide Encode, Decode, U16, U32, FromU16, FromU32, Encodable;
    var length := U16At(d, p).value.0;
    U16AtExactly(d, p, length, p + 2);
    DecodesExactly(d[p + 2..q], s);
    var bytes := Encode(s);
    assert |bytes| == length && At(d, p + 2, bytes);
    AtConcat(d, p, U16(length), bytes);
  }

  /** The checked port read behind the unchecked name read is what rejects a cut name. */
  lemma SocketAtExactly(d: seq<Byte>, p: nat, ip: Text, x: SocketInfo, q: nat)
    ensures SocketAt(d, p, ip) == Some((x, q))
       <==> FitsSocket(x) && x.ip == ip && At(d, p, SocketBytes(x)) && q == p + |SocketBytes(x)|
  {
    hide Encode, Decode, U16, U32, FromU16, FromU32, Encodable;
    if SocketAt(d, p, ip) == Some((x, q)) {
      var e := StringAt(d, p).value.1;
      U16AtExactly(d, e, x.port, q);
      StringAtExactly(d, p, x.name, e);
      AtConcat(d, p, StringBytes(x.name), U16(x.port));
    }
    if FitsSocket(x) && x.ip == ip && At(d, p, SocketBytes(x)) && q == p + |SocketBytes(x)| {
      var e := p + |StringBytes(x.name)|;
      AtConcat(d, p, StringBytes(x.name), U16(x.port));
      StringAtExactly(d, p, x.name, e);
      U16AtExactly(d, e, x.port, q);
    }
  }

  predicate ReadsAs(d: seq<Byte>, p: nat, count: nat, ip: Text, xs: seq<SocketInfo>, q: nat) {
    && |xs| == count && FitSockets(xs) && HomedAt(xs, ip)
    && At(d, p, SocketsBytes(xs)) && q == p + |SocketsBytes(xs)|
  }

  lemma FirstSocketRead(d: seq<Byte>, p: nat, count: nat, ip: Text, xs: seq<SocketInfo>, q: nat)
    returns (x: SocketInfo, e: nat, rest: seq<SocketInfo>)
    requires count > 0 && SocketsAt(d, p, count, ip) == Some((xs, q))
    ensures SocketAt(d, p, ip) == Some((x, e))
    ensures SocketsAt(d, e, count - 1, ip) == Some((rest, q)) && xs == [x] + rest
  {
    var first := SocketAt(d, p, ip).value;
    return first.0, first.1, SocketsAt(d, first.1, count - 1, ip).value.0;
  }

  lemma NoSocketRead(d: seq<Byte>, p: nat, ip: Text, xs: seq<SocketInfo>, q: nat)
    requires p <= |d| && SocketsAt(d, p, 0, ip) == Some((xs, q))
    ensures ReadsAs(d, p, 0, ip, xs, q)
  {
  }

  lemma {:induction false} SocketsReadStand(d: seq<Byte>, p: nat, count: nat, ip: Text, xs: seq<SocketInfo>, q: nat)
    requires p <= |d| && SocketsAt(d, p, count, ip) == Some((xs, q))
    ensures ReadsAs(d, p, count, ip, xs, q)
    decreases count
  {
    hide *;
    if count == 0 {
      NoSocketRead(d, p, ip, xs, q);
    } else {
      var x, e, rest := FirstSocketRead(d, p, count, ip, xs, q);
      SocketAtExactly(d, p, ip, x, e);
      SocketEndsInside(d, p, ip);
      SocketsReadStand(d, e, count - 1, ip, rest, q);
      ReadsAsCons(d, p, count, ip, x, rest, q);
    }
  }

  lemma SocketEndsInside(d: seq<Byte>, p: nat, ip: Text)
    ensures SocketAt(d, p, ip).Some? ==> SocketAt(d, p, ip).value.1 <= |d|
  {
  }

  lemma {:induction false} StandingSocketsRead(d: seq<Byte>, p: nat, count: nat, ip: Text, xs: seq<SocketInfo>, q: nat)
    requires ReadsAs(d, p, count, ip, xs, q)
    ensures SocketsAt(d, p, count, ip) == Some((xs, q))
    decreases count
  {
    hide Encode, Decode, U16, U32, FromU16, FromU32, Encodable;
    if count > 0 {
      var x, rest := xs[0], xs[1..];
      assert [x] + rest == xs;
      var e := p + |SocketBytes(x)|;
      ReadsAsCons(d, p, count, ip, x, rest, q);
      SocketAtExactly(d, p, ip, x, e);
      StandingSocketsRead(d, e, count - 1, ip, rest, q);
    }
  }

  lemma ReadsAsCons(d: seq<Byte>, p: nat, count: nat, ip: Text, x: SocketInfo, rest: seq<SocketInfo>, q: nat)
    requires count > 0 && FitsSocket(x) && x.ip == ip
    ensures ReadsAs(d, p, count, ip, [x] + rest, q)
       <==> At(d, p, SocketBytes(x)) && ReadsAs(d, p + |SocketBytes(x)|, count - 1, ip, rest, q)
  {
    hide SocketBytes, FitsSocket, At;
    var xs := [x] + rest;
    assert xs[1..] == rest;
    assert FitSockets(xs) <==> FitSockets(rest) by {
      assert FitSockets(rest) ==> forall i :: 0 < i < |xs| ==> xs[i] == rest[i - 1];
      assert forall i :: 0 <= i < |rest| ==> rest[i] == xs[i + 1];
    }
    assert HomedAt(xs, ip) <==> HomedAt(rest, ip) by {
      assert forall i :: 0 <= i < |rest| ==> rest[i] == xs[i + 1];
    }
    if FitSockets(rest) {
      AtConcat(d, p, SocketBytes(x), SocketsBytes(rest));
    }
  }

  lemma ListAtExactly(d: seq<Byte>, p: nat, ip: Text, xs: seq<SocketInfo>, q: nat)
    ensures ListAt(d, p, ip) == Some((xs, q))
       <==> FitsList(xs) && HomedAt(xs, ip) && At(d, p, ListBytes(xs)) && q == p + |ListBytes(xs)|
  {
    hide Encode, Decode, U16, U32, FromU16, FromU32, Encodable;
    if ListAt(d, p, ip) == Some((xs, q)) {
      var count := U16At(d, p).value.0;
      U16AtExactly(d, p, count, p + 2);
      SocketsReadStand(d, p + 2, count, ip, xs, q);
      AtConcat(d, p, U16(count), SocketsBytes(xs));
    }
    if FitsList(xs) && HomedAt(xs, ip) && At(d, p, ListBytes(xs)) && q == p + |ListBytes(xs)| {
      AtConcat(d, p, U16(|xs|), SocketsBytes(xs));
      U16AtExactly(d, p, |xs|, p + 2);
      StandingSocketsRead(d, p + 2, |xs|, ip, xs, q);
    }
  }

  lemma HeadFieldsRead(d: seq<Byte>, h: NodeInfo, q: nat) returns (e: nat)
    requires HeadAt(d) == Some((h, q)) && q <= |d|
    ensures e <= |d| && 40 <= |d|
    ensures Decode(d[..36]) == Some(h.nodeID) && U32At(d, 36) == Some((h.infoID, 40))
    ensures StringAt(d, 40) == Some((h.name, e)) && StringAt(d, e) == Some((h.ip, q))
  {
    hide Decode, FromU16, FromU32;
    return StringAt(d, 40).value.1;
  }

  lemma HeadConcat(d: seq<Byte>, h: NodeInfo)
    requires FitsHead(h) && |Encode(h.nodeID)| == NODE_ID_BYTES
    ensures var name, ip := StringBytes(h.name), StringBytes(h.ip);
      && |HeadBytes(h)| == 40 + |name| + |ip|
      && (At(d, 0, HeadBytes(h)) <==>
           At(d, 0, Encode(h.nodeID)) && At(d, 36, U32(h.infoID)) && At(d, 40, name) && At(d, 40 + |name|, ip))
  {
    hide Encode, U32, StringBytes, FitsString, Encodable, At;
    AtConcat(d, 0, Encode(h.nodeID), U32(h.infoID));
    AtConcat(d, 0, Encode(h.nodeID) + U32(h.infoID), StringBytes(h.name));
    AtConcat(d, 0, Encode(h.nodeID) + U32(h.infoID) + StringBytes(h.name), StringBytes(h.ip));
  }

  /** Only a head whose reads all ended inside the data is tied to it. */
  lemma HeadReadStands(d: seq<Byte>, h: NodeInfo, q: nat)
    requires HeadAt(d) == Some((h, q)) && q <= |d|
    ensures FitsHead(h) && |Encode(h.nodeID)| == NODE_ID_BYTES
    ensures At(d, 0, HeadBytes(h)) && q == |HeadBytes(h)|
  {
    var e := HeadFieldsRead(d, h, q);
    hide Encode, Decode, U32, HeadAt, HeadBytes, StringAt, U32At, StringBytes, FitsString, Encodable;
    StringAtExactly(d, e, h.ip, q);
    StringAtExactly(d, 40, h.name, e);
    U32AtExactly(d, 36, h.infoID, 40);
    DecodesExactly(d[..36], h.nodeID);
    HeadConcat(d, h);
  }

  lemma StandingHeadRead(d: seq<Byte>, h: NodeInfo)
    requires FitsHead(h) && |Encode(h.nodeID)| == NODE_ID_BYTES && At(d, 0, HeadBytes(h))
    ensures HeadAt(d) == Some((h.(topics := [], services := []), |HeadBytes(h)|))
  {
    hide Encode, Decode, U32, HeadBytes, StringAt, U32At, StringBytes, FitsString, Encodable;
    HeadConcat(d, h);
    var e := 40 + |StringBytes(h.name)|;
    DecodesExactly(d[..36], h.nodeID);
    U32AtExactly(d, 36, h.infoID, 40);
    StringAtExactly(d, 40, h.name, e);
    StringAtExactly(d, e, h.ip, |HeadBytes(h)|);
  }

  lemma PartsRead(d: seq<Byte>, r: NodeInfo, n: nat) returns (h: NodeInfo, p3: nat, p4: nat)
    requires NodeInfoAt(d) == Some((r, n))
    ensures HeadAt(d) == Some((h, p3)) && h == r.(topics := [], services := [])
    ensures ListAt(d, p3, r.ip) == Some((r.topics, p4)) && ListAt(d, p4, r.ip) == Some((r.services, n))
  {
    hide Encode, Decode, U16, U32, FromU16, FromU32, Encodable;
    var head := HeadAt(d).value;
    HeadHasNoLists(d);
    return head.0, head.1, ListAt(d, head.1, head.0.ip).value.1;
  }

  lemma HeadHasNoLists(d: seq<Byte>)
    ensures HeadAt(d).Some? ==> HeadAt(d).value.0.topics == [] && HeadAt(d).value.0.services == []
  {
  }

  lemma HeadIgnoresLists(r: NodeInfo, h: NodeInfo)
    requires h == r.(topics := [], services := [])
    ensures FitsHead(h) == FitsHead(r) && (FitsHead(r) ==> HeadBytes(h) == HeadBytes(r))
  {
  }

  lemma AcceptedIsLayout(d: seq<Byte>, r: NodeInfo, n: nat)
    requires NodeInfoAt(d) == Some((r, n))
    ensures WellFormed(r) && At(d, 0, Layout(r)) && n == |Layout(r)|
  {
    hide NodeInfoAt, HeadAt, ListAt, ListBytes, Encode, HeadBytes, FitsHead, At, HomedAt, FitSockets;
    var h, p3, p4 := PartsRead(d, r, n);
    HeadIgnoresLists(r, h);
    ListAtExactly(d, p4, r.ip, r.services, n);
    SeenInside(d, p4, ListBytes(r.services));
    ListAtExactly(d, p3, r.ip, r.topics, p4);
    HeadReadStands(d, h, p3);
    hide FitsList;
    LayoutConcat(d, r);
  }

  lemma SeenInside(d: seq<Byte>, p: nat, b: seq<Byte>)
    ensures At(d, p, b) ==> p + |b| <= |d|
  {
  }

  lemma LayoutConcat(d: seq<Byte>, r: NodeInfo)
    requires Fits(r)
    ensures |Layout(r)| == |HeadBytes(r)| + |ListBytes(r.topics)| + |ListBytes(r.services)|
    ensures var head, topics, services := |HeadBytes(r)|, ListBytes(r.topics), ListBytes(r.services);
      At(d, 0, Layout(r)) <==> At(d, 0, HeadBytes(r)) && At(d, head, topics) && At(d, head + |topics|, services)
  {
    hide HeadBytes, ListBytes, At, FitsHead;
    AtConcat(d, 0, HeadBytes(r), ListBytes(r.topics));
    AtConcat(d, 0, HeadBytes(r) + ListBytes(r.topics), ListBytes(r.services));
  }

  lemma LayoutIsAccepted(d: seq<Byte>, r: NodeInfo)
    requires WellFormed(r) && At(d, 0, Layout(r))
    ensures NodeInfoAt(d) == Some((r, |Layout(r)|))
  {
    hide Encode, Decode, Encodable, HeadAt, ListAt, HeadBytes, ListBytes, Layout, At, HomedAt, FitsHead, FitSockets;
    var p3 := |HeadBytes(r)|;
    var p4 := p3 + |ListBytes(r.topics)|;
    LayoutConcat(d, r);
    StandingHeadRead(d, r);
    ListAtExactly(d, p3, r.ip, r.topics, p4);
    ListAtExactly(d, p4, r.ip, r.services, |Layout(r)|);
  }

  /** Main result: the reader's language is the set of layouts of well-formed records. */
  lemma {:induction false} ReadsExactlyLayouts(d: seq<Byte>, r: NodeInfo, n: nat)
    ensures NodeInfoAt(d) == Some((r, n)) <==> WellFormed(r) && At(d, 0, Layout(r)) && n == |Layout(r)|
  {
    hide Encode, Decode, U16, U32, FromU16, FromU32, Encodable;
    if NodeInfoAt(d) == Some((r, n)) {
      AcceptedIsLayout(d, r, n);
    }
    if WellFormed(r) && At(d, 0, Layout(r)) && n == |Layout(r)| {
      LayoutIsAccepted(d, r);
    }
  }

  /** Any record that can be written comes back, ahead of any bytes, exactly when it is well formed. */
  lemma RoundTrip(r: NodeInfo, tail: seq<Byte>)
    requires Fits(r)
    ensures NodeInfoAt(Layout(r) + tail) == Some((r, |Layout(r)|)) <==> WellFormed(r)
  {
    var d := Layout(r) + tail;
    assert At(d, 0, Layout(r));
    ReadsExactlyLayouts(d, r, |Layout(r)|);
  }

  /** Whatever decodes, decodes from the one byte string that encodes the result. */
  lemma {:induction false} CanonicalForm(d: seq<Byte>, r: NodeInfo, n: nat)
    requires NodeInfoAt(d) == Some((r, n))
    ensures n <= |d| && Fits(r) && Layout(r) == d[..n]
  {
    ReadsExactlyLayouts(d, r, n);
  }

  function Rehomed(xs: seq<SocketInfo>, ip: Text): (ys: seq<SocketInfo>)
    ensures |ys| == |xs| && forall i :: 0 <= i < |xs| ==> ys[i] == xs[i].(ip := ip)
  {
    seq(|xs|, i requires 0 <= i < |xs| => xs[i].(ip := ip))
  }

  /** The sockets' own addresses leave no trace in the encoding. */
  lemma {:induction false} SocketIpsNotEncoded(xs: seq<SocketInfo>, ip: Text)
    requires FitSockets(xs)
    ensures FitSockets(Rehomed(xs, ip)) && SocketsBytes(Rehomed(xs, ip)) == SocketsBytes(xs)
  {
    if xs != [] {
      SocketIpsNotEncoded(xs[1..], ip);
      assert Rehomed(xs, ip)[1..] == Rehomed(xs[1..], ip);
    }
  }

  /** No strict prefix of an encoded record with a full-width id decodes. */
  lemma {:induction false} TruncationDetected(r: NodeInfo, k: nat)
    requires Fits(r) && |Encode(r.nodeID)| == NODE_ID_BYTES && k < |Layout(r)|
    ensures NodeInfoAt(Layout(r)[..k]).None?
  {
    var cut := Layout(r)[..k];
    if NodeInfoAt(cut).Some? {
      var (r', n) := NodeInfoAt(cut).value;
      ReadsExactlyLayouts(cut, r', n);
      assert Layout(r)[..n] == cut[..n];
      ReadsExactlyLayouts(Layout(r), r', n);
      WholeLayoutRead(r);
      assert false;
    }
  }

  lemma WholeLayoutRead(r: NodeInfo)
    requires Fits(r) && |Encode(r.nodeID)| == NODE_ID_BYTES
    ensures NodeInfoAt(Layout(r)).Some? && NodeInfoAt(Layout(r)).value.1 == |Layout(r)|
  {
    hide Encode, Decode, U16, U32, FromU16, FromU32, Encodable;
    var home := r.(topics := Rehomed(r.topics, r.ip), services := Rehomed(r.services, r.ip));
    SocketIpsNotEncoded(r.topics, r.ip);
    SocketIpsNotEncoded(r.services, r.ip);
    assert Layout(home) == Layout(r);
    ReadsExactlyLayouts(Layout(r), home, |Layout(r)|);
  }
}
