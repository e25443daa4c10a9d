/** The heartbeat datagram: a 56-byte header `!3i36s2i`, then the group name. */
module Heartbeat {
  import opened Wrappers
  import opened Utf8
  import opened Binary

  datatype HeartbeatMessage = HeartbeatMessage(
    major: int, minor: int, patch: int, nodeId: Text, infoId: int, servicePort: int, groupName: Text)

  const HEADER_BYTES := 56
  const ID_BYTES := 36
  const RECEIVE_BYTES := 1024

  predicate FitsI32(v: int) { -I32_END <= v < I32_END }

  /** The messages `to_bytes` can write; the others make it raise. */
  predicate Packs(m: HeartbeatMessage) {
    && FitsI32(m.major) && FitsI32(m.minor) && FitsI32(m.patch)
    && FitsI32(m.infoId) && FitsI32(m.servicePort)
    && Encodable(m.nodeId) && Encodable(m.groupName)
  }

  function Zeros(n: nat): (z: seq<Byte>)
    ensures |z| == n && forall i :: 0 <= i < n ==> z[i] == 0
  {
    seq(n, i => 0)
  }

  /** What `struct` makes of a `36s` argument: cut to the width, or padded with NUL bytes. */
  function IdField(b: seq<Byte>): (f: seq<Byte>)
    ensures |f| == ID_BYTES
  {
    if |b| >= ID_BYTES then b[..ID_BYTES] else b + Zeros(ID_BYTES - |b|)
  }

  function Header(m: HeartbeatMessage): (h: seq<Byte>)
    requires Packs(m)
    ensures |h| == HEADER_BYTES
  {
    I32(m.major) + I32(m.minor) + I32(m.patch) + IdField(Encode(m.nodeId)) + I32(m.infoId) + I32(m.servicePort)
  }

  function Bytes(m: HeartbeatMessage): seq<Byte>
    requires Packs(m)
  {
    Header(m) + Encode(m.groupName)
  }

  function ToBytes(m: HeartbeatMessage): Option<seq<Byte>> {
    if Packs(m) then Some(Bytes(m)) else None
  }

  /** `str.strip("\x00")` */
  function Strip(s: Text): Text {
    if s == [] then []
    else if s[0] == 0 then Strip(s[1..])
    else if s[|s| - 1] == 0 then Strip(s[..|s| - 1])
    else s
  }

  /** `None` for a message that cannot be decoded; nothing is raised. */
  function DecodeHeartbeat(data: seq<Byte>): Option<HeartbeatMessage> {
    if |data| < HEADER_BYTES then None
    else
      var id :- Decode(data[12..48]);
      var groupName :- Decode(data[HEADER_BYTES..]);
      Some(HeartbeatMessage(
        FromI32(data[..4]), FromI32(data[4..8]), FromI32(data[8..12]),
        Strip(id), FromI32(data[48..52]), FromI32(data[52..56]), groupName))
  }

  /** What `recvfrom(1024)` leaves of a datagram. */
  function Received(datagram: seq<Byte>): seq<Byte> {
    if |datagram| <= RECEIVE_BYTES then datagram else datagram[..RECEIVE_BYTES]
  }

  // ---------- stripping ----------

  predicate EdgeFree(s: Text) {
    s == [] || (s[0] != 0 && s[|s| - 1] != 0)
  }

  lemma OneMoreBefore(before: nat, core: Text, after: nat)
    ensures [0] + (Zeros(before) + core + Zeros(after)) == Zeros(before + 1) + core + Zeros(after)
  {
    assert [0] + Zeros(before) == Zeros(before + 1);
    assert [0] + (Zeros(before) + core + Zeros(after)) == ([0] + Zeros(before)) + core + Zeros(after);
  }

  lemma OneMoreAfter(before: nat, core: Text, after: nat)
    ensures Zeros(before) + core + Zeros(after) + [0] == Zeros(before) + core + Zeros(after + 1)
  {
    assert Zeros(after) + [0] == Zeros(after + 1);
    assert Zeros(before) + core + Zeros(after) + [0] == Zeros(before) + core + (Zeros(after) + [0]);
  }

  /** `Strip` removes NULs and nothing else, and leaves none at either end. */
  lemma {:induction false} StripLeavesCore(s: Text) returns (before: nat, after: nat)
    ensures EdgeFree(Strip(s)) && s == Zeros(before) + Strip(s) + Zeros(after)
  {
    before, after := 0, 0;
    if s == [] {
    } else if s[0] == 0 {
      before, after := StripLeavesCore(s[1..]);
      assert s == [0] + s[1..];
      OneMoreBefore(before, Strip(s[1..]), after);
      before := before + 1;
    } else if s[|s| - 1] == 0 {
      var s' := s[..|s| - 1];
      before, after := StripLeavesCore(s');
      assert s == s' + [0];
      OneMoreAfter(before, Strip(s'), after);
      after := after + 1;
    }
  }

  lemma {:induction false} StripDropsPadding(s: Text, after: nat)
    requires EdgeFree(s)
    ensures Strip(s + Zeros(after)) == s
  {
    var padded := s + Zeros(after);
    if after == 0 {
      assert padded == s;
    } else if s == [] {
      assert padded[1..] == s + Zeros(after - 1);
      StripDropsPadding(s, after - 1);
    } else {
      assert padded[..|padded| - 1] == s + Zeros(after - 1);
      StripDropsPadding(s, after - 1);
    }
  }

  lemma {:induction false} EncodeZeros(n: nat)
    ensures Encodable(Zeros(n)) && Encode(Zeros(n)) == Zeros(n)
  {
    if n > 0 {
      assert Zeros(n)[1..] == Zeros(n - 1);
      EncodeZeros(n - 1);
      assert [0] + Zeros(n - 1) == Zeros(n);
    }
  }

  /** Padding with NULs commutes with encoding. */
  lemma EncodePadded(before: nat, s: Text, after: nat)
    ensures var p := Zeros(before) + s + Zeros(after);
      Encodable(p) == Encodable(s) && (Encodable(s) ==> Encode(p) == Zeros(before) + Encode(s) + Zeros(after))
  {
    EncodeZeros(before);
    EncodeZeros(after);
    var p := Zeros(before) + s + Zeros(after);
    if Encodable(s) {
      EncodeConcat(Zeros(before), s);
      EncodeConcat(Zeros(before) + s, Zeros(after));
    } else {
      var i :| 0 <= i < |s| && !IsScalar(s[i]);
      assert p[before + i] == s[i];
    }
  }

  // ---------- decoding what was sent ----------

  /** The message a receiver sees when the first `k` bytes of a datagram reach it. */
  function Seen(m: HeartbeatMessage, k: nat): Option<HeartbeatMessage>
    requires Packs(m) && HEADER_BYTES <= k <= HEADER_BYTES + |Encode(m.groupName)|
  {
    var id :- Decode(IdField(Encode(m.nodeId)));
    var groupName :- Decode(Encode(m.groupName)[..k - HEADER_BYTES]);
    Some(m.(nodeId := Strip(id), groupName := groupName))
  }

  lemma HeaderFields(m: HeartbeatMessage, d: seq<Byte>)
    requires Packs(m) && |d| >= HEADER_BYTES && d[..HEADER_BYTES] == Header(m)
    ensures d[..4] == I32(m.major) && d[4..8] == I32(m.minor) && d[8..12] == I32(m.patch)
    ensures d[12..48] == IdField(Encode(m.nodeId))
    ensures d[48..52] == I32(m.infoId) && d[52..56] == I32(m.servicePort)
  {
    hide I32, IdField, Encode, Encodable;
    var h := d[..HEADER_BYTES];
    assert d[..4] == h[..4] && d[4..8] == h[4..8] && d[8..12] == h[8..12];
    assert d[12..48] == h[12..48];
    assert d[48..52] == h[48..52] && d[52..56] == h[52..56];
  }

  lemma DecodesWhatArrives(m: HeartbeatMessage, k: nat)
    requires Packs(m) && HEADER_BYTES <= k <= |Bytes(m)|
    ensures DecodeHeartbeat(Bytes(m)[..k]) == Seen(m, k)
  {
    hide Header, IdField, Encode, Decode, Encodable, Strip, I32, FromI32;
    var d := Bytes(m)[..k];
    assert d[..HEADER_BYTES] == Header(m);
    assert d[HEADER_BYTES..] == Encode(m.groupName)[..k - HEADER_BYTES];
    HeaderFields(m, d);
    I32Exactly(d[..4], m.major);
    I32Exactly(d[4..8], m.minor);
    I32Exactly(d[8..12], m.patch);
    I32Exactly(d[48..52], m.infoId);
    I32Exactly(d[52..56], m.servicePort);
  }

  lemma SeenWhole(m: HeartbeatMessage)
    requires Packs(m)
    ensures DecodeHeartbeat(Bytes(m)) ==
      match Decode(IdField(Encode(m.nodeId)))
      case None => None
      case Some(id) => Some(m.(nodeId := Strip(id)))
  {
    hide Header, Encode, Decode, Encodable, DecodeHeartbeat;
    DecodesWhatArrives(m, |Bytes(m)|);
    assert Bytes(m)[..|Bytes(m)|] == Bytes(m);
    assert Encode(m.groupName)[..|Encode(m.groupName)|] == Encode(m.groupName);
    DecodesExactly(Encode(m.groupName), m.groupName);
  }

  /** An id survives its field exactly when it fits the width and has no NUL at either end. */
  lemma IdSurvives(id: Text)
    requires Encodable(id)
    ensures (Decode(IdField(Encode(id))).Some? && Strip(Decode(IdField(Encode(id))).value) == id)
       <==> |Encode(id)| <= 36 && EdgeFree(id)
  {
    hide Encode, Decode, Encodable, Strip;
    var field := IdField(Encode(id));
    if Decode(field).Some? && Strip(Decode(field).value) == id {
      var seen := Decode(field).value;
      var before, after := StripLeavesCore(seen);
      DecodesExactly(field, seen);
      EncodePadded(before, id, after);
    }
    if |Encode(id)| <= ID_BYTES && EdgeFree(id) {
      var pad := ID_BYTES - |Encode(id)|;
      EncodePadded(0, id, pad);
      assert Zeros(0) + id == id && Zeros(0) + Encode(id) == Encode(id);
      assert field == Encode(id) + Zeros(pad);
      DecodesExactly(field, id + Zeros(pad));
      StripDropsPadding(id, pad);
    }
  }

  /** A message comes back from its own bytes exactly when its id survives the id field. */
  lemma RoundTrip(m: HeartbeatMessage)
    requires Packs(m)
    ensures DecodeHeartbeat(Bytes(m)) == Some(m) <==> |Encode(m.nodeId)| <= 36 && EdgeFree(m.nodeId)
  {
    hide DecodeHeartbeat, Bytes, IdField, Strip, EdgeFree, Decode, Encode;
    SeenWhole(m);
    IdSurvives(m.nodeId);
  }

  lemma DecodedIdFits(data: seq<Byte>)
    requires DecodeHeartbeat(data).Some?
    ensures var id := DecodeHeartbeat(data).value.nodeId;
      Encodable(id) && EdgeFree(id) && |Encode(id)| <= 36
  {
    hide Encode, Decode, Strip, Encodable, FromI32;
    var id := Decode(data[12..48]).value;
    var before, after := StripLeavesCore(id);
    DecodesExactly(data[12..48], id);
    EncodePadded(before, Strip(id), after);
  }

  lemma DecodedPacks(data: seq<Byte>)
    requires DecodeHeartbeat(data).Some?
    ensures Packs(DecodeHeartbeat(data).value)
  {
    hide Encode, Decode, Strip, Encodable;
    DecodedIdFits(data);
    DecodesExactly(data[HEADER_BYTES..], DecodeHeartbeat(data).value.groupName);
  }

  /** Whatever arrives, what was decoded can be sent on and is then decoded as the same message. */
  lemma DecodingNormalises(data: seq<Byte>)
    requires DecodeHeartbeat(data).Some?
    ensures var m := DecodeHeartbeat(data).value;
      ToBytes(m).Some? && DecodeHeartbeat(ToBytes(m).value) == Some(m)
  {
    hide DecodeHeartbeat, Bytes, Encode, Encodable;
    DecodedPacks(data);
    DecodedIdFits(data);
    RoundTrip(DecodeHeartbeat(data).value);
  }

  /** A sender's group name reaches the receiver exactly when it is at most 968 bytes long. */
  lemma GroupNameSurvives(m: HeartbeatMessage)
    requires Packs(m)
    ensures var seen := DecodeHeartbeat(Received(Bytes(m)));
      (seen.Some? && seen.value.groupName == m.groupName)
        <==> && |Encode(m.groupName)| <= 968
             && Decode(IdField(Encode(m.nodeId))).Some?
  {
    hide DecodeHeartbeat, Header, Encode, Decode, Encodable, IdField, Strip;
    if |Bytes(m)| <= RECEIVE_BYTES {
      SeenWhole(m);
    } else {
      DecodesWhatArrives(m, RECEIVE_BYTES);
      DecodesExactly(Encode(m.groupName)[..RECEIVE_BYTES - HEADER_BYTES], m.groupName);
    }
  }
}
