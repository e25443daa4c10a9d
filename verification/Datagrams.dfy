/** That a delivery in the network's protocol is what the octets on the wire bring about. */
module Datagrams {
  import opened Wrappers
  import opened Utf8
  import opened Discovery
  import opened DiscoveryHistory
  import opened Heartbeat
  import opened Multicast

  /** The message that `n` packs in this state. */
  predicate IsMessageOf(c: Config, s: State, n: Id, m: HeartbeatMessage)
    requires n in c && n in s.own
  {
    m.nodeId == n && m.infoId == s.own[n].infoID && m.servicePort == c[n].port && m.groupName == c[n].group
  }

  /** What a receiver takes from a message that came from this address. */
  function BeatFrom(m: HeartbeatMessage, sourceIp: Text): Beat {
    Beat(m.nodeId, m.infoId, sourceIp, m.servicePort, m.groupName)
  }

  lemma SentMessage(c: Config, s: State, n: Id, m: HeartbeatMessage)
    requires Enabled(c, s, Send(n)) && IsMessageOf(c, s, n, m)
    ensures Sends(c, s, Send(n), BeatFrom(m, c[n].sourceIp))
  {
  }

  /**
   Between neighbours whose ids are UUIDs and whose group names fit the buffer: after `n` has sent its
   heartbeat, in step `h`, the protocol lets it arrive at `r`, at any later time, if and only if the
   datagram passes the filters of `r`; and then `r` reads the sender's id, tag, port and group from it.
   */
  lemma DatagramsAreDeliveries(
      c: Config, states: seq<State>, steps: seq<Step>, h: nat, k: nat, n: Id, r: Id, m: HeartbeatMessage,
      local: Address, source: Address)
    requires IsRun(c, states, steps) && h < k < |states| && steps[h] == Send(n) && r in c
    requires IsMessageOf(c, states[h], n, m) && Packs(m) && |Encode(n)| <= 36 && EdgeFree(n)
    requires |Encode(c[n].group)| <= 968 && local.Valid() && source.Valid() && Neighbours(local, source)
    ensures var arrived, b := Received(Bytes(m)), BeatFrom(m, c[n].sourceIp);
      && (Enabled(c, states[k], Deliver(r, b)) <==> Admits(local, r, c[r].group, arrived, source))
      && (Admits(local, r, c[r].group, arrived, source) ==> DecodeHeartbeat(arrived) == Some(m))
  {
    var b := BeatFrom(m, c[n].sourceIp);
    SentMessage(c, states[h], n, m);
    BeatsAreSends(c, states, steps, k, b);
    KeysStay(c, states, steps, k, r);
    HeardWithinGroup(m, local, r, c[r].group, source);
    HeardExactly(m, local, r, c[r].group, source);
    hide Apply, Admits, Bytes, DecodeHeartbeat, Packs, EdgeFree, Neighbours, Encode, Encodable, Sends;
  }

  lemma KeysStay(c: Config, states: seq<State>, steps: seq<Step>, k: nat, r: Id)
    requires IsRun(c, states, steps) && k < |states| && r in c
    ensures r in states[k].tables && r in states[k].clock
  {
    RunInv(c, states, steps, k);
    hide Enabled, Apply, BeatsOk, FetchesOk, TablesOk, OwnersOk;
  }
}
