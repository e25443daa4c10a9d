/** Socket and node records and their binary form. */
module NodeInfoCodec {
  import opened Wrappers
  import opened Sequences
  import opened Utf8
  import opened Binary

  datatype SocketInfo = SocketInfo(name: Text, ip: Text, port: int)

  datatype NodeInfo = NodeInfo(
    nodeID: Text, infoID: int, name: Text, ip: Text, topics: seq<SocketInfo>, services: seq<SocketInfo>)

  const NODE_ID_BYTES := 36

  // ---------- layout ----------

  predicate FitsU16(v: int) { 0 <= v < U16_END }

  /** The strings that `write_string` accepts. */
  predicate FitsString(s: Text) {
    Encodable(s) && FitsU16(|Encode(s)|)
  }

  function StringBytes(s: Text): seq<Byte>
    requires FitsString(s)
  {
    U16(|Encode(s)|) + Encode(s)
  }

  predicate FitsSocket(x: SocketInfo) {
    FitsString(x.name) && FitsU16(x.port)
  }

  function SocketBytes(x: SocketInfo): seq<Byte>
    requires FitsSocket(x)
  {
    StringBytes(x.name) + U16(x.port)
  }

  predicate FitSockets(xs: seq<SocketInfo>) {
    forall i :: 0 <= i < |xs| ==> FitsSocket(xs[i])
  }

  function SocketsBytes(xs: seq<SocketInfo>): seq<Byte>
    requires FitSockets(xs)
  {
    if xs == [] then [] else SocketBytes(xs[0]) + SocketsBytes(xs[1..])
  }

  /** A list as the record holds it: its length, then its elements. */
  function ListBytes(xs: seq<SocketInfo>): seq<Byte>
    requires FitSockets(xs) && FitsU16(|xs|)
  {
    U16(|xs|) + SocketsBytes(xs)
  }

  predicate FitsList(xs: seq<SocketInfo>) {
    FitsU16(|xs|) && FitSockets(xs)
  }

  /** The records that can be written: every value and every length is within its field. */
  predicate Fits(r: NodeInfo) {
    FitsHead(r) && FitsList(r.topics) && FitsList(r.services)
  }

  predicate FitsHead(r: NodeInfo) {
    && Encodable(r.nodeID) && 0 <= r.infoID < U32_END
    && FitsString(r.name) && FitsString(r.ip)
  }

  function HeadBytes(r: NodeInfo): seq<Byte>
    requires FitsHead(r)
  {
    Encode(r.nodeID) + U32(r.infoID) + StringBytes(r.name) + StringBytes(r.ip)
  }

  function Layout(r: NodeInfo): seq<Byte>
    requires Fits(r)
  {
    HeadBytes(r) + ListBytes(r.topics) + ListBytes(r.services)
  }

  // ---------- writing ----------

  /** `buf` grows in place; a method that answers false has raised `struct.error` or `UnicodeEncodeError`. */
  class BinWriter {
    var buf: seq<Byte>

    constructor ()
      ensures buf == []
    {
      buf := [];
    }

    method WriteU16(v: int) returns (ok: bool)
      modifies this
      ensures ok == FitsU16(v)
      ensures buf == if ok then old(buf) + U16(v) else old(buf)
    {
      ok := 0 <= v < U16_END;
      if ok {
        buf := buf + U16(v);
      }
    }

    method WriteU32(v: int) returns (ok: bool)
      modifies this
      ensures ok == (0 <= v < U32_END)
      ensures buf == if ok then old(buf) + U32(v) else old(buf)
    {
      ok := 0 <= v < U32_END;
      if ok {
        buf := buf + U32(v);
      }
    }

    method WriteString(s: Text) returns (ok: bool)
      modifies this
      ensures ok == FitsString(s)
      ensures buf == if ok then old(buf) + StringBytes(s) else old(buf)
    {
      if !Encodable(s) {
        return false;
      }
      var bs := Encode(s);
      ok := WriteU16(|bs|);
      if ok {
        buf := buf + bs;
      }
    }

    /** Neither pads nor truncates: `length` is not looked at. */
    method WriteFixedString(s: Text, length: nat) returns (ok: bool)
      modifies this
      ensures ok == Encodable(s)
      ensures buf == if ok then old(buf) + Encode(s) else old(buf)
    {
      ok := Encodable(s);
      if ok {
        buf := buf + Encode(s);
      }
    }
  }

  method EncodeSocketInfoTo(info: SocketInfo, writer: BinWriter) returns (ok: bool)
    modifies writer
    ensures ok == FitsSocket(info)
    ensures ok ==> writer.buf == old(writer.buf) + SocketBytes(info)
  {
    ok := writer.WriteString(info.name);
    if ok {
      ok := writer.WriteU16(info.port);
    }
  }

  lemma FitNone(xs: seq<SocketInfo>)
    ensures FitSockets(xs[..0]) && SocketsBytes(xs[..0]) == []
  {
  }

  /** The first sockets fit with one more when that one fits; without it, the list does not. */
  lemma FitOneMore(xs: seq<SocketInfo>, i: nat)
    requires i < |xs| && FitSockets(xs[..i])
    ensures if FitsSocket(xs[i]) then FitSockets(xs[..i + 1]) else !FitSockets(xs)
  {
    hide FitsSocket;
  }

  method EncodeSockets(xs: seq<SocketInfo>, writer: BinWriter) returns (ok: bool)
    modifies writer
    ensures ok == FitsList(xs)
    ensures ok ==> writer.buf == old(writer.buf) + ListBytes(xs)
  {
    hide U16, SocketBytes, SocketsBytes, FitsSocket, FitSockets;
    ok := writer.WriteU16(|xs|);
    if !ok {
      return;
    }
    FitNone(xs);
    ghost var start, body := writer.buf, [];
    for i := 0 to |xs|
      invariant FitSockets(xs[..i]) && body == SocketsBytes(xs[..i])
      invariant writer.buf == start + body
    {
      FitOneMore(xs, i);
      ok := EncodeSocketInfoTo(xs[i], writer);
      if !ok {
        return;
      }
      SocketsBytesSnoc(xs[..i], xs[i]);
      assert xs[..i] + [xs[i]] == xs[..i + 1];
      Associative(start, body, SocketBytes(xs[i]));
      body := body + SocketBytes(xs[i]);
    }
    assert xs[..|xs|] == xs;
    Associative(old(writer.buf), U16(|xs|), body);
    return true;
  }

  lemma {:induction false} SocketsBytesSnoc(xs: seq<SocketInfo>, x: SocketInfo)
    requires FitSockets(xs) && FitsSocket(x)
    ensures SocketsBytes(xs + [x]) == SocketsBytes(xs) + SocketBytes(x)
  {
    hide SocketBytes, FitsSocket;
    if xs == [] {
      assert [x][1..] == [];
    } else {
      SocketsBytesSnoc(xs[1..], x);
      assert (xs + [x])[1..] == xs[1..] + [x];
    }
  }

  method EncodeHead(info: NodeInfo, writer: BinWriter) returns (ok: bool)
    requires writer.buf == []
    modifies writer
    ensures ok == FitsHead(info)
    ensures ok ==> writer.buf == HeadBytes(info)
  {
    hide Encode, U32, StringBytes, FitsString, Encodable;
    ok := writer.WriteFixedString(info.nodeID, NODE_ID_BYTES);
    if !ok { return; }
    assert writer.buf == Encode(info.nodeID);
    ok := writer.WriteU32(info.infoID);
    if !ok { return; }
    ok := writer.WriteString(info.name);
    if !ok { return; }
    ok := writer.WriteString(info.ip);
  }

  method EncodeNodeInfo(info: NodeInfo) returns (r: Option<seq<Byte>>)
    ensures r.Some? <==> Fits(info)
    ensures r.Some? ==> r.value == Layout(info)
  {
    var writer := new BinWriter();
    var ok := EncodeHead(info, writer);
    if !ok { return None; }
    ok := EncodeSockets(info.topics, writer);
    if !ok { return None; }
    ok := EncodeSockets(info.services, writer);
    if !ok { return None; }
    return Some(writer.buf);
  }

  // ---------- reading ----------

  /** A Python slice: the ends are cut to the length of `d`. */
  function Slice(d: seq<Byte>, lo: nat, hi: nat): seq<Byte>
    requires lo <= hi
  {
    if hi <= |d| then d[lo..hi] else if lo <= |d| then d[lo..] else []
  }

  function U16At(d: seq<Byte>, p: nat): Option<(int, nat)> {
    if p + 2 <= |d| then Some((FromU16(d[p..p + 2]), p + 2)) else None
  }

  function U32At(d: seq<Byte>, p: nat): Option<(int, nat)> {
    if p + 4 <= |d| then Some((FromU32(d[p..p + 4]), p + 4)) else None
  }

  /** The bounds are not checked: the new position may lie beyond the end. */
  function FixedAt(d: seq<Byte>, p: nat, length: nat): Option<(Text, nat)> {
    var s :- Decode(Slice(d, p, p + length));
    Some((s, p + length))
  }

  function StringAt(d: seq<Byte>, p: nat): Option<(Text, nat)> {
    var (length, q) :- U16At(d, p);
    FixedAt(d, q, length)
  }

  function SocketAt(d: seq<Byte>, p: nat, ip: Text): Option<(SocketInfo, nat)> {
    var (name, q) :- StringAt(d, p);
    var (port, e) :- U16At(d, q);
    Some((SocketInfo(name, ip, port), e))
  }

  function SocketsAt(d: seq<Byte>, p: nat, count: nat, ip: Text): Option<(seq<SocketInfo>, nat)>
    decreases count
  {
    if count == 0 then Some(([], p))
    else
      var (x, q) :- SocketAt(d, p, ip);
      var (xs, e) :- SocketsAt(d, q, count - 1, ip);
      Some(([x] + xs, e))
  }

  function ListAt(d: seq<Byte>, p: nat, ip: Text): Option<(seq<SocketInfo>, nat)> {
    var (count, q) :- U16At(d, p);
    SocketsAt(d, q, count, ip)
  }

  /** The fields ahead of the two lists, as a record whose lists are still empty. */
  function HeadAt(d: seq<Byte>): Option<(NodeInfo, nat)> {
    var (nodeID, p0) :- FixedAt(d, 0, NODE_ID_BYTES);
    var (infoID, p1) :- U32At(d, p0);
    var (name, p2) :- StringAt(d, p1);
    var (ip, p3) :- StringAt(d, p2);
    Some((NodeInfo(nodeID, infoID, name, ip, [], []), p3))
  }

  /** The record at the front of `d` and the position its reader ends at. */
  function NodeInfoAt(d: seq<Byte>): Option<(NodeInfo, nat)> {
    var (head, p3) :- HeadAt(d);
    var (topics, p4) :- ListAt(d, p3, head.ip);
    var (services, p5) :- ListAt(d, p4, head.ip);
    Some((head.(topics := topics, services := services), p5))
  }

  class BinReader {
    const view: seq<Byte>
    var pos: nat

    constructor (data: seq<Byte>)
      ensures view == data && pos == 0
    {
      view := data;
      pos := 0;
    }

    method ReadU16() returns (v: Option<int>)
      modifies this
      ensures var e := U16At(view, old(pos));
        v.Some? == e.Some? && (if v.Some? then e == Some((v.value, pos)) else pos == old(pos))
    {
      if pos + 2 > |view| {
        return None;
      }
      v := Some(FromU16(view[pos..pos + 2]));
      pos := pos + 2;
    }

    method ReadU32() returns (v: Option<int>)
      modifies this
      ensures var e := U32At(view, old(pos));
        v.Some? == e.Some? && (if v.Some? then e == Some((v.value, pos)) else pos == old(pos))
    {
      if pos + 4 > |view| {
        return None;
      }
      v := Some(FromU32(view[pos..pos + 4]));
      pos := pos + 4;
    }

    method ReadFixedString(length: nat) returns (s: Option<Text>)
      modifies this
      ensures var e := FixedAt(view, old(pos), length);
        s.Some? == e.Some? && (if s.Some? then e == Some((s.value, pos)) else pos == old(pos))
    {
      s := Decode(Slice(view, pos, pos + length));
      if s.Some? {
        pos := pos + length;
      }
    }

    method ReadString() returns (s: Option<Text>)
      modifies this
      ensures var e := StringAt(view, old(pos));
        s.Some? == e.Some? && (s.Some? ==> e == Some((s.value, pos)))
    {
      var length := ReadU16();
      if length.None? {
        return None;
      }
      s := ReadFixedString(length.value);
    }
  }

  method DecodeSocketInfo(reader: BinReader, ip: Text) returns (x: Option<SocketInfo>)
    modifies reader
    ensures var e := SocketAt(reader.view, old(reader.pos), ip);
      x.Some? == e.Some? && (x.Some? ==> e == Some((x.value, reader.pos)))
  {
    var name := reader.ReadString();
    if name.None? {
      return None;
    }
    var port := reader.ReadU16();
    if port.None? {
      return None;
    }
    return Some(SocketInfo(name.value, ip, port.value));
  }

  method DecodeSockets(reader: BinReader, ip: Text) returns (xs: Option<seq<SocketInfo>>)
    modifies reader
    ensures var e := ListAt(reader.view, old(reader.pos), ip);
      xs.Some? == e.Some? && (xs.Some? ==> e == Some((xs.value, reader.pos)))
  {
    hide SocketAt, FromU16;
    var count := reader.ReadU16();
    if count.None? {
      return None;
    }
    ghost var whole := SocketsAt(reader.view, reader.pos, count.value, ip);
    var list: seq<SocketInfo> := [];
    PrependNothing(whole);
    for i := 0 to count.value
      invariant whole == Prepend(list, SocketsAt(reader.view, reader.pos, count.value - i, ip))
    {
      SocketsStep(list, reader.view, reader.pos, count.value - i, ip);
      var x := DecodeSocketInfo(reader, ip);
      if x.None? {
        return None;
      }
      list := list + [x.value];
    }
    assert list + [] == list;
    return Some(list);
  }

  function Prepend(list: seq<SocketInfo>, rest: Option<(seq<SocketInfo>, nat)>): Option<(seq<SocketInfo>, nat)> {
    var (xs, e) :- rest;
    Some((list + xs, e))
  }

  lemma PrependNothing(rest: Option<(seq<SocketInfo>, nat)>)
    ensures Prepend([], rest) == rest
  {
    if rest.Some? {
      assert [] + rest.value.0 == rest.value.0;
    }
  }

  lemma SocketsStep(list: seq<SocketInfo>, d: seq<Byte>, p: nat, count: nat, ip: Text)
    requires count > 0
    ensures Prepend(list, SocketsAt(d, p, count, ip)) ==
      match SocketAt(d, p, ip)
      case None => None
      case Some((x, q)) => Prepend(list + [x], SocketsAt(d, q, count - 1, ip))
  {
    var e := SocketAt(d, p, ip);
    if e.Some? {
      var rest := SocketsAt(d, e.value.1, count - 1, ip);
      if rest.Some? {
        assert list + ([e.value.0] + rest.value.0) == list + [e.value.0] + rest.value.0;
      }
    }
  }

  method DecodeNodeInfo(data: seq<Byte>) returns (r: Option<NodeInfo>, ghost end: nat)
    ensures r.Some? <==> NodeInfoAt(data).Some?
    ensures r.Some? ==> NodeInfoAt(data) == Some((r.value, end))
  {
    var reader := new BinReader(data);
    end := 0;
    var nodeID := reader.ReadFixedString(NODE_ID_BYTES);
    if nodeID.None? { return None, 0; }
    var infoID := reader.ReadU32();
    if infoID.None? { return None, 0; }
    var name := reader.ReadString();
    if name.None? { return None, 0; }
    var ip := reader.ReadString();
    if ip.None? { return None, 0; }
    var topics := DecodeSockets(reader, ip.value);
    if topics.None? { return None, 0; }
    var services := DecodeSockets(reader, ip.value);
    if services.None? { return None, 0; }
    return Some(NodeInfo(nodeID.value, infoID.value, name.value, ip.value, topics.value, services.value)), reader.pos;
  }
}
