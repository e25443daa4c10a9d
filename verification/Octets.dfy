/** The two binary forms octet by octet: which field stands where, and how its value is written. */
module Octets {
  import opened Wrappers
  import opened Utf8
  import opened Binary
  import opened NodeInfoCodec
  import opened Heartbeat

  /** The number that octets write in base 256, the last one counting once. */
  function Big(b: seq<int>): int {
    if b == [] then 0 else 256 * Big(b[..|b| - 1]) + b[|b| - 1]
  }

  lemma BigTwo(b: seq<int>)
    requires |b| == 2
    ensures Big(b) == 256 * b[0] + b[1]
  {
    assert b[..1] == [b[0]] && Big([b[0]]) == b[0];
  }

  lemma BigFour(b: seq<int>)
    requires |b| == 4
    ensures Big(b) == 256 * (256 * (256 * b[0] + b[1]) + b[2]) + b[3]
  {
    assert b[..3][..2] == b[..2];
    BigTwo(b[..2]);
    assert Big(b[..3]) == 256 * Big(b[..2]) + b[2];
  }

  /** Two octets write an unsigned value. */
  predicate Short(b: seq<int>, v: int) {
    |b| == 2 && Big(b) == v
  }

  /** Four octets write an unsigned value. */
  predicate Long(b: seq<int>, v: int) {
    |b| == 4 && Big(b) == v
  }

  /** Four octets write a signed value in two's complement. */
  predicate Signed(b: seq<int>, v: int) {
    |b| == 4 && Big(b) == if v < 0 then v + 4294967296 else v
  }

  lemma ShortWritten(v: int)
    requires 0 <= v < U16_END
    ensures v < 65536 && Short(U16(v), v)
  {
    BigTwo(U16(v));
  }

  lemma LongWritten(v: int)
    requires 0 <= v < U32_END
    ensures v < 4294967296 && Long(U32(v), v)
  {
    BigFour(U32(v));
  }

  lemma SignedWritten(v: int)
    requires -I32_END <= v < I32_END
    ensures -2147483648 <= v < 2147483648 && Signed(I32(v), v)
  {
    LongWritten(if v < 0 then v + U32_END else v);
  }

  /** The readers read those values: unsigned ones, and signed ones in two's complement. */
  lemma WhatIsRead(b: seq<Byte>)
    ensures |b| == 2 ==> Short(b, FromU16(b))
    ensures |b| == 4 ==> Long(b, FromU32(b)) && Signed(b, FromI32(b)) && -2147483648 <= FromI32(b) < 2147483648
  {
    if |b| == 2 {
      BigTwo(b);
    } else if |b| == 4 {
      BigFour(b);
    }
  }

  // ---------- the record ----------

  /** What a record must be like to be written, in numbers. */
  lemma FitsExactly(r: NodeInfo)
    ensures Fits(r) <==>
      && Encodable(r.nodeID) && 0 <= r.infoID <= 4294967295
      && Encodable(r.name) && |Encode(r.name)| <= 65535 && Encodable(r.ip) && |Encode(r.ip)| <= 65535
      && |r.topics| <= 65535 && |r.services| <= 65535
      && (forall x :: x in r.topics + r.services ==>
            Encodable(x.name) && |Encode(x.name)| <= 65535 && 0 <= x.port <= 65535)
  {
    hide Encode, Encodable;
    SocketsFit(r.topics);
    SocketsFit(r.services);
    assert forall x :: x in r.topics + r.services <==> x in r.topics || x in r.services;
  }

  lemma SocketsFit(xs: seq<SocketInfo>)
    ensures FitSockets(xs) <==>
      forall x :: x in xs ==> Encodable(x.name) && |Encode(x.name)| <= 65535 && 0 <= x.port <= 65535
  {
    hide Encode, Encodable;
    assert forall i :: 0 <= i < |xs| ==> xs[i] in xs;
  }

  /** A text after its length in two octets. */
  ghost predicate Counted(b: seq<Byte>, s: Text) {
    Encodable(s) && exists n: seq<Byte> :: Short(n, |Encode(s)|) && b == n + Encode(s)
  }

  /** A socket is its name and then its port. */
  ghost predicate SpellsSocket(b: seq<Byte>, x: SocketInfo) {
    exists name: seq<Byte>, port: seq<Byte> :: Counted(name, x.name) && Short(port, x.port) && b == name + port
  }

  /** The sockets follow each other in order. */
  ghost predicate SpellsSockets(b: seq<Byte>, xs: seq<SocketInfo>)
    decreases |xs|
  {
    if xs == [] then b == []
    else exists first: seq<Byte>, rest: seq<Byte> ::
      SpellsSocket(first, xs[0]) && SpellsSockets(rest, xs[1..]) && b == first + rest
  }

  lemma CountedWritten(s: Text)
    requires FitsString(s)
    ensures Counted(StringBytes(s), s)
  {
    ShortWritten(|Encode(s)|);
    hide U16, Encode, Encodable, Short;
    assert StringBytes(s) == U16(|Encode(s)|) + Encode(s);
  }

  lemma SocketWritten(x: SocketInfo)
    requires FitsSocket(x)
    ensures SpellsSocket(SocketBytes(x), x)
  {
    CountedWritten(x.name);
    ShortWritten(x.port);
    hide U16, StringBytes, Counted, Short;
    assert SocketBytes(x) == StringBytes(x.name) + U16(x.port);
  }

  lemma {:induction false} SocketsWritten(xs: seq<SocketInfo>)
    requires FitSockets(xs)
    ensures SpellsSockets(SocketsBytes(xs), xs)
  {
    hide SpellsSocket, SocketBytes, FitsSocket;
    if xs != [] {
      SocketWritten(xs[0]);
      SocketsWritten(xs[1..]);
      assert SocketsBytes(xs) == SocketBytes(xs[0]) + SocketsBytes(xs[1..]);
    }
  }

  /**
   An encoded record is the node id, the `infoID` in four octets, the name, the address, the number of
   topics, the topics, the number of services and the services, in this order and with nothing in between.
   */
  lemma RecordSpelled(r: NodeInfo) returns (
      tag: seq<Byte>, name: seq<Byte>, ip: seq<Byte>,
      topicCount: seq<Byte>, topics: seq<Byte>, serviceCount: seq<Byte>, services: seq<Byte>)
    requires Fits(r)
    ensures Layout(r) == Encode(r.nodeID) + tag + name + ip + topicCount + topics + serviceCount + services
    ensures Long(tag, r.infoID) && Counted(name, r.name) && Counted(ip, r.ip)
    ensures Short(topicCount, |r.topics|) && SpellsSockets(topics, r.topics)
    ensures Short(serviceCount, |r.services|) && SpellsSockets(services, r.services)
  {
    LongWritten(r.infoID);
    CountedWritten(r.name);
    CountedWritten(r.ip);
    ShortWritten(|r.topics|);
    SocketsWritten(r.topics);
    ShortWritten(|r.services|);
    SocketsWritten(r.services);
    tag, name, ip := U32(r.infoID), StringBytes(r.name), StringBytes(r.ip);
    topicCount, topics := U16(|r.topics|), SocketsBytes(r.topics);
    serviceCount, services := U16(|r.services|), SocketsBytes(r.services);
    hide Encode, U16, U32, StringBytes, SocketsBytes, Long, Short, Counted, SpellsSockets;
    Regroup(HeadBytes(r), topicCount, topics, serviceCount, services);
  }

  lemma Regroup(head: seq<Byte>, a: seq<Byte>, b: seq<Byte>, c: seq<Byte>, d: seq<Byte>)
    ensures head + (a + b) + (c + d) == head + a + b + c + d
  {
  }

  // ---------- the heartbeat ----------

  /** What a heartbeat must be like to be packed, in numbers. */
  lemma PacksExactly(m: HeartbeatMessage)
    ensures ToBytes(m).Some? <==>
      && -2147483648 <= m.major <= 2147483647 && -2147483648 <= m.minor <= 2147483647
      && -2147483648 <= m.patch <= 2147483647 && -2147483648 <= m.infoId <= 2147483647
      && -2147483648 <= m.servicePort <= 2147483647 && Encodable(m.nodeId) && Encodable(m.groupName)
  {
    hide Encodable, Header, Encode;
  }

  /** An id field: the encoded id, cut to 36 octets or followed by zeros up to there. */
  predicate SpellsId(b: seq<Byte>, id: seq<Byte>) {
    |b| == 36 && forall i :: 0 <= i < 36 ==> b[i] == if i < |id| then id[i] else 0
  }

  /** A heartbeat's octets: version at 0, 4 and 8, id at 12, tag at 48, port at 52, group from 56 on. */
  lemma HeartbeatSpelled(m: HeartbeatMessage)
    requires Packs(m)
    ensures var b := Bytes(m);
      && |b| == 56 + |Encode(m.groupName)|
      && Signed(b[..4], m.major) && Signed(b[4..8], m.minor) && Signed(b[8..12], m.patch)
      && SpellsId(b[12..48], Encode(m.nodeId))
      && Signed(b[48..52], m.infoId) && Signed(b[52..56], m.servicePort) && b[56..] == Encode(m.groupName)
  {
    SignedWritten(m.major);
    SignedWritten(m.minor);
    SignedWritten(m.patch);
    SignedWritten(m.infoId);
    SignedWritten(m.servicePort);
    IdSpelled(Encode(m.nodeId));
    hide Header, I32, IdField, Encode, Encodable, Signed, SpellsId;
    assert Bytes(m)[..HEADER_BYTES] == Header(m);
    HeaderFields(m, Bytes(m));
  }

  lemma IdSpelled(id: seq<Byte>)
    ensures SpellsId(IdField(id), id)
  {
  }

  /** Decoding looks at the same places. */
  lemma HeartbeatRead(b: seq<Byte>)
    ensures DecodeHeartbeat(b).Some? <==> |b| >= 56 && Decode(b[12..48]).Some? && Decode(b[56..]).Some?
    ensures DecodeHeartbeat(b).Some? ==>
      var m := DecodeHeartbeat(b).value;
      && Signed(b[..4], m.major) && Signed(b[4..8], m.minor) && Signed(b[8..12], m.patch)
      && m.nodeId == Strip(Decode(b[12..48]).value)
      && Signed(b[48..52], m.infoId) && Signed(b[52..56], m.servicePort) && Decode(b[56..]) == Some(m.groupName)
  {
    hide Decode, Strip, FromI32, Signed, Short, Long;
    if DecodeHeartbeat(b).Some? {
      WhatIsRead(b[..4]);
      WhatIsRead(b[4..8]);
      WhatIsRead(b[8..12]);
      WhatIsRead(b[48..52]);
      WhatIsRead(b[52..56]);
    }
  }
}
