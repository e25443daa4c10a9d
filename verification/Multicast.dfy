/** The filters a datagram passes before it becomes a heartbeat task. */
module Multicast {
  import opened Wrappers
  import opened Utf8
  import opened Binary
  import opened Heartbeat

  /** A parsed address; `Other` stands for IPv6 and for text that is no address. */
  datatype Address = V4(octets: seq<Byte>) | Other {
    ghost predicate Valid() { V4? ==> |octets| == 4 }
  }

  /** Whether the network of address `a` under 255.255.255.0 holds address `b`. */
  predicate InNetwork(a: nat, b: nat) {
    var network := a - a % 0x100;
    network <= b < network + 0x100
  }

  predicate SameSubnet(ip1: Address, ip2: Address)
    requires ip1.Valid() && ip2.Valid()
  {
    ip1.V4? && ip2.V4? && InNetwork(FromU32(ip1.octets), FromU32(ip2.octets))
  }

  lemma OctetsSpell(b: seq<Byte>)
    requires |b| == 4
    ensures FromU32(b) == ((b[0] as int * 0x100 + b[1]) * 0x100 + b[2]) * 0x100 + b[3]
  {
  }

  lemma InNetworkDigits(x: nat, a: Byte, y: nat, b: Byte)
    ensures InNetwork(x * 0x100 + a, y * 0x100 + b) <==> x == y
  {
  }

  /** Nodes in one subnet hear each other: the filter compares the first three octets. */
  lemma SameSubnetOctets(ip1: Address, ip2: Address)
    requires ip1.Valid() && ip2.Valid()
    ensures SameSubnet(ip1, ip2) <==> ip1.V4? && ip2.V4? && ip1.octets[..3] == ip2.octets[..3]
  {
    if ip1.V4? && ip2.V4? {
      hide FromU32, InNetwork;
      var a, b := ip1.octets, ip2.octets;
      OctetsSpell(a);
      OctetsSpell(b);
      InNetworkDigits((a[0] as int * 0x100 + a[1]) * 0x100 + a[2], a[3],
                      (b[0] as int * 0x100 + b[1]) * 0x100 + b[2], b[3]);
      assert a[..3] == [a[0], a[1], a[2]] && b[..3] == [b[0], b[1], b[2]];
    }
  }

  class MulticastWorker {
    const localAddress: Address
    const localId: Text
    const groupName: Text

    constructor (localAddress: Address, localId: Text, groupName: Text)
      ensures this.localAddress == localAddress && this.localId == localId && this.groupName == groupName
    {
      this.localAddress := localAddress;
      this.localId := localId;
      this.groupName := groupName;
    }

    /** The message handed to a new heartbeat task, if the datagram passes every filter. */
    method HandleDatagram(data: seq<Byte>, source: Address) returns (task: Option<HeartbeatMessage>)
      requires localAddress.Valid() && source.Valid()
      ensures task.Some? ==> task == DecodeHeartbeat(data)
      ensures task.Some? <==> Admits(localAddress, localId, groupName, data, source)
      ensures task.Some? ==>
        && task.value.nodeId != localId && task.value.groupName == groupName
        && localAddress.V4? && source.V4? && localAddress.octets[..3] == source.octets[..3]
      ensures task.None? ==>
        || DecodeHeartbeat(data).None?
        || DecodeHeartbeat(data).value.nodeId == localId || DecodeHeartbeat(data).value.groupName != groupName
        || !(localAddress.V4? && source.V4? && localAddress.octets[..3] == source.octets[..3])
    {
      SameSubnetOctets(localAddress, source);
      hide SameSubnet, DecodeHeartbeat;
      if !SameSubnet(localAddress, source) {
        return None;
      }
      var message := DecodeHeartbeat(data);
      if message.None? || message.value.groupName != groupName {
        return None;
      }
      if message.value.nodeId == localId {
        return None;
      }
      return message;
    }
  }

  /** A decodable heartbeat from a neighbour of the same group, not the node's own. */
  predicate Admits(localAddress: Address, localId: Text, groupName: Text, data: seq<Byte>, source: Address)
    requires localAddress.Valid() && source.Valid()
  {
    && SameSubnet(localAddress, source)
    && DecodeHeartbeat(data).Some?
    && DecodeHeartbeat(data).value.groupName == groupName
    && DecodeHeartbeat(data).value.nodeId != localId
  }

  /** What the receive buffer leaves of a group name. */
  function Cut(name: seq<Byte>): seq<Byte> {
    if |name| <= 968 then name else name[..968]
  }

  predicate Neighbours(local: Address, source: Address)
    requires local.Valid() && source.Valid()
  {
    local.V4? && source.V4? && local.octets[..3] == source.octets[..3]
  }

  /**
   End to end, from packing through the cut receive to the filters: the heartbeat of a node whose id is a
   UUID is taken up if and only if both addresses are IPv4 with the same first three octets, the id is not
   the receiver's own, and the first 968 bytes of the sender's group name are the receiver's group name;
   and then nothing else in the message has changed.
   */
  lemma {:induction false} HeardExactly(
      m: HeartbeatMessage, local: Address, localId: Text, groupName: Text, source: Address)
    requires local.Valid() && source.Valid()
    requires Packs(m) && |Encode(m.nodeId)| <= 36 && EdgeFree(m.nodeId)
    ensures var arrived := Received(Bytes(m));
      && (Admits(local, localId, groupName, arrived, source) <==>
            && Neighbours(local, source) && m.nodeId != localId
            && Encodable(groupName) && Encode(groupName) == Cut(Encode(m.groupName)))
      && (Admits(local, localId, groupName, arrived, source)
          ==> DecodeHeartbeat(arrived) == Some(m.(groupName := groupName)))
  {
    SameSubnetOctets(local, source);
    hide DecodeHeartbeat, Header, Encode, Decode, Encodable, IdField, Strip, EdgeFree, SameSubnet;
    var k := |Received(Bytes(m))|;
    IdSurvives(m.nodeId);
    DecodesWhatArrives(m, k);
    assert Bytes(m)[..k] == Received(Bytes(m));
    assert Encode(m.groupName)[..k - HEADER_BYTES] == Cut(Encode(m.groupName));
    DecodesExactly(Cut(Encode(m.groupName)), groupName);
  }

  /** Among groups whose names fit the buffer, being heard is being another neighbour of the same group. */
  lemma {:induction false} HeardWithinGroup(
      m: HeartbeatMessage, local: Address, localId: Text, groupName: Text, source: Address)
    requires local.Valid() && source.Valid()
    requires Packs(m) && |Encode(m.nodeId)| <= 36 && EdgeFree(m.nodeId) && |Encode(m.groupName)| <= 968
    ensures Admits(local, localId, groupName, Received(Bytes(m)), source) <==>
      Neighbours(local, source) && m.nodeId != localId && m.groupName == groupName
  {
    hide Admits, Bytes, Encode, Encodable, Neighbours;
    HeardExactly(m, local, localId, groupName, source);
    if Encodable(groupName) && Encode(groupName) == Encode(m.groupName) {
      DecodeInvertsEncode(groupName);
      DecodeInvertsEncode(m.groupName);
    }
  }

  predicate IsAscii(s: Text) {
    forall i :: 0 <= i < |s| ==> s[i] < 0x80
  }

  lemma {:induction false} AsciiEncodesItself(s: Text)
    requires IsAscii(s)
    ensures Encodable(s) && Encode(s) == s
  {
    if s != [] {
      AsciiEncodesItself(s[1..]);
      assert s == [s[0]] + s[1..];
    }
  }

  /** A node with a too long ASCII group name is not heard in its group but in the one its first 968 letters name. */
  lemma LongGroupIsMisheard(m: HeartbeatMessage, local: Address, localId: Text, source: Address)
    requires local.Valid() && source.Valid() && Neighbours(local, source)
    requires Packs(m) && |Encode(m.nodeId)| <= 36 && EdgeFree(m.nodeId) && m.nodeId != localId
    requires IsAscii(m.groupName) && |m.groupName| > 968
    ensures !Admits(local, localId, m.groupName, Received(Bytes(m)), source)
    ensures Admits(local, localId, m.groupName[..968], Received(Bytes(m)), source)
  {
    hide Admits, Bytes, Encode, Encodable, Neighbours, EdgeFree, Packs;
    var front := m.groupName[..968];
    AsciiEncodesItself(m.groupName);
    AsciiEncodesItself(front);
    HeardExactly(m, local, localId, m.groupName, source);
    HeardExactly(m, local, localId, front, source);
  }
}
