# A verified model of pyzlc

pyzlc (ZeroLanCom for Python) lets the nodes of a local network find each other, publish topics and
call services. This project models the parts of it that are hard to get right and proves what they
guarantee, and exactly when they do not. `dafny verify dfyconfig.toml` checks all of it.

## What is modelled

- **Discovery** (`Discovery`, `DiscoveryHistory`, `DiscoveryLaws`, `DiscoveryTime`, `DiscoveryRuns`,
  `Datagrams`). A network of nodes as a system of steps. A registration is two writes (append, then bump
  `infoID`), a served record is packed field by field from the live dictionary while any number of threads
  register, heartbeats are lost, repeated and reordered, any number of fetches of one node may be under way
  with replies landing late, and every node sweeps by its own clock. The invariant is kept by every step;
  over it stand view safety, tag soundness, convergence and the timed laws, and runs in which the protocol
  shows its weak sides. `DiscoveryHistory` says what heartbeats, records and fetches owe to the steps
  before, and `Datagrams` that a delivery is what the octets of a heartbeat bring about.
- **The node table** (`NodeTable`, `LookupLaws`, `NodesInfo`). The three dictionaries of `NodesInfoManager`
  as fields that its methods change in place, with stored records shared between the table and whoever
  unpacked them. Each method is proved against the value functions that `Discovery` and `Subscriptions` use
  for the same operation.
- **Subscriptions** (`Rosters`, `Subscribers`, `Subscriptions`, `UrlSources`, `SubscribeRace`,
  `Displacement`, `UrlLaws`, `Node`). Subscribers, their manager and the update event as objects, with every
  subscriber ever made kept in view, those that left the dictionary too; one node's operations as a state
  machine whose invariant says that each current subscriber's list holds a URL for everything a lookup
  returns; where each URL came from; what becomes of a displaced subscriber; when two publications share a
  URL. `Node.LanComNode` carries every operation of the state machine out on the objects. `PublishSubscribe`
  puts a node's life along a run of the network: for what one node publishes, the subscribers of another get
  a URL.
- **The executor** (`Executor`, `ExecutorHistory`, `ExecutorLaws`, `Stranding`, `ExecutorPool`).
  `DaemonThreadPoolExecutor` as a protocol whose workers are small program counters, with `submit` split
  where workers can come in between its put and its spawn; and as an object whose methods, run undisturbed,
  are proved to be sequences of those steps.
- **Codecs** (`Utf8`, `Utf8Laws`, `Binary`, `Octets`, `NodeInfoCodec`, `NodeInfoLaws`, `Heartbeat`,
  `Multicast`). UTF-8 after sections 3 and 4 of RFC 3629, big-endian integers, the node record with its
  growing buffer and its moving read position, the 56-byte heartbeat header with its tail, and the filters
  of `_handle_datagram`.
- **Services and streaming** (`Services`, `ServiceLaws`, `RemoteCalls`, `Streaming`). The reply loop over a
  REP socket, a remote call from the client's request to the client's result, and the pacing of
  `Streamer.update_loop` over `real`.

Text is a sequence of Unicode code points, surrogates included, as Python's `str` is. A method that
answers `false` or `None` where its comment says so stands for one that raises. A dictionary's iteration
order is a parameter: any order that lists each key once. What `os.path.exists`, clocks, handlers and the
network answer are parameters too.

## What the proofs show about the code

- A stored `infoID` is not monotone: `check_info` tests equality only, so a reply that was packed early
  and lands late overwrites a newer record. A stored tag falls exactly when that happens
  (`TagFallsExactly`), it does happen in every network with two nodes of one group
  (`LateReplySetsBack`), and an exact view is lost exactly to a further registration, a removal or such a
  reply (`ExactLostExactly`). After a node's last registration each such reply sets a view back at most
  once and no new ones arise (`SetBacksBounded`), where a fall from one outdated tag to an older one counts as well.
- A sweep over a node that was heard but never fetched raises `KeyError` in its log line, changes
  nothing, and ends the `check_heartbeat` task: from then on that node forgets nobody. One unanswered
  fetch followed by silence is enough (`RaisingSweepIsLast`, `UnansweredFetchEndsSweeping`).
- A task can stay queued for ever when it is submitted while every live worker stands between its
  timed-out `get` and its look at the shutdown flag. `StrandingExactly` gives the condition,
  `TasksCanStrand` a run from the start for every number of workers, `StrandedForever` that nothing helps
  afterwards, and `ShutdownSettlesEverything` what holds when no submit comes at such a moment.
- The 1024-byte receive cuts group names to 968 bytes. A longer name never matches its own group, but
  it does match a group named by exactly its first 968 bytes (`HeardExactly`, `LongGroupIsMisheard`).
- A request that does not come in two frames, or whose first frame is not UTF-8, is received but never
  replied to. The REP socket then owes a reply for ever and the service takes no further request
  (`UnreadableIsLast`, `OneFrameIsLast`); pyzlc's own clients send no such request (`ClientRequestsAreWellFormed`).
- A request with trailing bytes, which a client can send as raw bytes, is answered with `SUCCESS` and an
  empty body (`TrailingBytesSucceed`), and the client raises when it unpacks that; a call raises in the
  client exactly then, or when the handler itself fails on trailing bytes (`RemoteCallExactly`).
  `INVALID_REQUEST` is never sent for a registered handler.
- A negative `fps` is not refused and paces nothing (`NegativeRateHasNoBound`); zero raises.
- A second subscriber of a topic takes the first one's place in the dictionary. The first is neither closed
  nor changed, then or later: it keeps running, is connected to nothing published afterwards, and `stop`
  does not close it (`DisplacedForever`, and on every new node the run of `SecondSubscriberDisplaces`). A
  subscriber stays current exactly while its topic is not subscribed again (`CurrentExactly`), a running one
  is closed exactly by a `stop` before that (`ClosedExactly`), and `stop` leaves nobody running if and only
  if no call subscribed a topic that a running subscriber had (`StopClosesAllExactly`).
- What a node hears between the lookup of `add_subscriber` and its dictionary write is missed by the new
  subscriber, until it is announced again (`RaceExactly`, `RecordIsMissed`, `MissedUntilAdded`).
- All publishers of a topic on one host share one IPC URL, whatever their ports, so one entry of a list
  stands for all of them (`OneUrlExactly`).
- `decode_node_info` never checks the bounds of a string, yet rejects every strict prefix of a record,
  because an integer is read after each string (`TruncationDetected`).

## Assumptions

Node ids are unique; an address and service port belong to one node for a whole run; `infoID += 1` is
atomic; clocks do not go back; the executor has at least one worker where a lemma says so, and its tasks
return or raise an `Exception`; sleeps are not cut short.

## Model

| member | source | states |
|---|---|---|
| Utf8.DecodesExactly | src/pyzlc/utils/node_info.py:45-53 | Decoding bytes gives a text if and only if the text has an encoding and these bytes are it: the decoder accepts the encoder's outputs and nothing else (no overlong forms, no surrogates), and inverts it. |
| Utf8Laws.EncodedValue | src/pyzlc/utils/node_info.py:46 | A character gets as few octets as its value allows, one to four; their free bits spell its code point, and every octet but the first is a continuation. With a length and a value there is one such code. |
| Utf8Laws.DecodedValue | src/pyzlc/utils/node_info.py:77 | Whatever is decoded has the code point that the octets it was decoded from spell. |
| Utf8Laws.EncodeOneOrdered | src/pyzlc/utils/node_info.py:46 | Of two characters the lower code point has the lexicographically lower octets, and they part inside both. |
| Utf8Laws.EncodeOrdered | src/pyzlc/utils/node_info.py:46 | Texts in the order of their code points have encodings in the same order. |
| NodeInfoCodec.BinWriter.WriteString | src/pyzlc/utils/node_info.py:45-48 | Appends length and UTF-8 bytes to the buffer, or raises with the buffer unchanged exactly when the text has no encoding or is longer than 65535 bytes. |
| NodeInfoCodec.BinReader.ReadString | src/pyzlc/utils/node_info.py:72-79 | Reads what the two-byte length announces, moves the position by that length even past the end, and raises where the bytes at hand are not UTF-8 or the length is cut off. |
| NodeInfoCodec.EncodeNodeInfo | src/pyzlc/utils/node_info.py:83-104 | Raises exactly for records with a value or length outside its field; otherwise produces the concatenated layout, through loops over a buffer extended in place. |
| NodeInfoCodec.DecodeNodeInfo | src/pyzlc/utils/node_info.py:107-139 | The reader's loops compute the positional reading of the bytes, with the final position, and raise where it is undefined. |
| NodeInfoLaws.ReadsExactlyLayouts | src/pyzlc/utils/node_info.py:56-139 | Decoding succeeds with a record and a consumed length if and only if the input starts with the encoding of that record, the node id is 36 bytes of it, and every socket carries the record's address. |
| NodeInfoLaws.RoundTrip | src/pyzlc/utils/node_info.py:83-139 | For a writable record, decoding its encoding followed by any bytes returns the record and stops at the encoding's end if and only if the id is 36 bytes and all socket addresses are the record's. |
| NodeInfoLaws.CanonicalForm | src/pyzlc/utils/node_info.py:89-139 | Whenever decoding arbitrary bytes succeeds, encoding the result gives exactly the consumed prefix. |
| NodeInfoLaws.TruncationDetected | src/pyzlc/utils/node_info.py:72-79 | Every strict prefix of an encoded record with a 36-byte id is rejected, although string reads do not check bounds. |
| NodeInfoLaws.SocketIpsNotEncoded | src/pyzlc/utils/node_info.py:83-86 | The encoding does not depend on the sockets' own addresses. |
| Octets.RecordSpelled | src/pyzlc/utils/node_info.py:83-104 | The octets of a record, field by field: the id, the tag in four octets base 256, name and address behind their lengths in two, the number of topics and the topics in order, the number of services and the services in order. |
| Octets.FitsExactly | src/pyzlc/utils/node_info.py:34-53 | A record can be written if and only if its texts have encodings of at most 65535 octets, its tag is at most 4294967295, and its ports and list lengths are at most 65535; none of them negative. |
| Octets.WhatIsRead | src/pyzlc/utils/node_info.py:62-70 | Two octets are read as the number they write in base 256, four as that or as its two's complement. |
| Octets.SignedWritten | src/pyzlc/utils/msg.py:101-108 | A signed field is its value in four octets, base 256, in two's complement. |
| Heartbeat.RoundTrip | src/pyzlc/utils/msg.py:99-141 | A message comes back from its bytes if and only if its id is at most 36 UTF-8 bytes without NULs at its edges. |
| Heartbeat.IdSurvives | src/pyzlc/utils/msg.py:103-108 | Padding or cutting to 36 bytes and then stripping NULs gives the id back exactly under that condition; a cut inside a character is among the failures. |
| Heartbeat.DecodingNormalises | src/pyzlc/utils/msg.py:114-141 | Whatever decodes can be packed again, and decoding that gives the same message, whatever NULs the id field held. |
| Heartbeat.GroupNameSurvives | src/pyzlc/nodes/multicast.py:130 | After the 1024-byte receive, the sender's group name is what is decoded if and only if it is at most 968 bytes and the id field decodes. |
| Heartbeat.DecodesWhatArrives | src/pyzlc/utils/msg.py:114-141 | From any cut of a heartbeat behind its header, decoding gives the header's fields and the decoded rest of the group name, or nothing when the cut leaves no UTF-8. |
| Octets.PacksExactly | src/pyzlc/utils/msg.py:99-111 | A heartbeat is packed if and only if its five numbers lie between -2147483648 and 2147483647 and both texts have an encoding. |
| Octets.HeartbeatSpelled | src/pyzlc/utils/msg.py:99-111 | The octets of a heartbeat: the versions at 0, 4 and 8, the id cut or filled with zeros at 12 to 47, the tag at 48, the port at 52, the group name from 56 on. |
| Octets.HeartbeatRead | src/pyzlc/utils/msg.py:114-141 | Decoding accepts exactly what has 56 octets, an id in UTF-8 at 12 to 47 and a group name in UTF-8 behind them, and reads every field at those same places. |
| Multicast.SameSubnetOctets | src/pyzlc/utils/msg.py:144-166 | The /24 network test holds if and only if both are IPv4 addresses with the same first three octets. |
| Multicast.MulticastWorker.HandleDatagram | src/pyzlc/nodes/multicast.py:146-173 | For arbitrary data, a task is submitted if and only if both addresses are IPv4 with the same first three octets, the datagram decodes, its group is the node's and its id is not the node's own; the task carries the decoded message. |
| Multicast.HeardExactly | src/pyzlc/nodes/multicast.py:87-173 | From packing through the cut receive to the filters, for any two addresses and ids: a heartbeat is taken up if and only if the addresses are IPv4 neighbours, the id is not the receiver's own, and the first 968 bytes of its group name are the receiver's group name; nothing else of it has changed. |
| Multicast.HeardWithinGroup | src/pyzlc/nodes/multicast.py:154-159 | For group names of at most 968 bytes, being heard is being another node, a neighbour, of the same group. |
| Multicast.LongGroupIsMisheard | src/pyzlc/nodes/multicast.py:130-159 | Every heartbeat with an ASCII group name of more than 968 letters is refused in that group and taken up in the group its first 968 letters name. |
| Datagrams.DatagramsAreDeliveries | src/pyzlc/nodes/multicast.py:87-173 | Between neighbours, for a heartbeat sent in a run of the network: the protocol lets it arrive at a node if and only if its datagram passes that node's filters, and what is decoded is the sender's id, its tag when it sent, its port and its group. |
| NodesInfo.NodeRecord.RewriteIps | src/pyzlc/nodes/nodes_info_manager.py:125-129 | The two loops give every socket of the record the record's address and change nothing else. |
| NodesInfo.NodesInfoManager.UpdateNode | src/pyzlc/nodes/nodes_info_manager.py:113-133 | Keeps the dictionaries coherent though the record may be one the table already shares: the table becomes the updated table, the caller's record gets its addresses, and each handler is told of the rewritten topics. |
| NodesInfo.NodesInfoManager.HeartbeatArrives | src/pyzlc/nodes/nodes_info_manager.py:166-177 | The contact time is written in every case; no fetch follows exactly when the tag is the stored one, or is -1 and none is stored. |
| NodesInfo.NodesInfoManager.ReplyArrives | src/pyzlc/nodes/nodes_info_manager.py:192-195 | The fetched record takes the heartbeat's source address before it is stored and announced. |
| NodesInfo.NodesInfoManager.RemoveNode | src/pyzlc/nodes/nodes_info_manager.py:135-141 | Removes the node from all three dictionaries, or raises with all three unchanged exactly when it has no record. |
| NodesInfo.NodesInfoManager.SweepOnce | src/pyzlc/nodes/nodes_info_manager.py:204-213 | For every iteration order: raises with the dictionaries unchanged exactly when some stale node has no record, and otherwise removes exactly the stale nodes from all three. |
| NodesInfo.NodesInfoManager.RegisterLocalPublisher | src/pyzlc/nodes/nodes_info_manager.py:90-96 | Appends the topic, then bumps the counter, then announces the node's own topics to every handler. |
| NodesInfo.NodesInfoManager.RegisterLocalService | src/pyzlc/nodes/nodes_info_manager.py:77-88 | Registers if and only if neither this node nor any known node offers a service of the name. |
| NodesInfo.NodesInfoManager.GetPublisherInfo | src/pyzlc/nodes/nodes_info_manager.py:143-153 | The nested loops return the stored publications of the name in dictionary order and the node's own last. |
| NodesInfo.NodesInfoManager.GetServiceInfo | src/pyzlc/nodes/nodes_info_manager.py:155-164 | The early-exit loops return the first service of the full lookup, or nothing. |
| NodeTable.UpdateCoherent | src/pyzlc/nodes/nodes_info_manager.py:113-130 | An update keeps records and tags on the same keys, inside the heartbeat keys, each under its record's id and tag, with every socket at its node's address. |
| NodeTable.UpdateExactly | src/pyzlc/nodes/nodes_info_manager.py:113-130 | An update stores the record, its sockets at its address, unless one of the same tag is stored already, which then stays untouched; an unknown node's record is stored exactly when its tag is not -1; the contact is noted always and no other node's entries change. |
| NodeTable.SweepExactly | src/pyzlc/nodes/nodes_info_manager.py:200-213 | A sweep that does not raise removes from all three dictionaries every node stale at its start and none fresh at its end, and leaves the kept nodes' entries untouched. |
| NodeTable.LookupExactly | src/pyzlc/nodes/nodes_info_manager.py:143-164 | A lookup holds a publication if and only if it has the name and is the node's own or in a stored record. |
| LookupLaws.LookupInOrder | src/pyzlc/nodes/nodes_info_manager.py:143-153 | A lookup returns all entries of its name, each once, in the order of their places: record by record in the dictionary's order, each record's in their own order, the node's own list last. |
| LookupLaws.FirstFound | src/pyzlc/nodes/nodes_info_manager.py:155-164 | The first find is the entry no other of the name stands before, so the node's own comes first only if no stored record has one. |
| Discovery.InvKept | src/pyzlc/nodes/nodes_info_manager.py:77-214 | Every step of the network, append, bump, send, deliver, each field read, reply, failure, sweep and tick, keeps the invariant about owners, heartbeats, fetches and tables. |
| Discovery.ServerIsSender | src/pyzlc/nodes/nodes_info_manager.py:180-185 | The node that answers a fetch is the node whose heartbeat caused it. |
| Discovery.PhaseAfterOk | src/pyzlc/sockets/service_manager.py:41 | Whatever is registered between the reads of tag, topics and services, a record packed under tag k shows at least k registrations, fronts of the owner's lists. |
| DiscoveryHistory.BeatsAreSends | src/pyzlc/nodes/multicast.py:87-94 | Over every run: a heartbeat can arrive if and only if its owner sent it in an earlier step, with the tag it had in that step, from its own address and port and to its own group. |
| DiscoveryHistory.SentCanBeHeard | src/pyzlc/nodes/multicast.py:146-173 | A sent heartbeat can arrive at every other node of the group in every later state. |
| DiscoveryHistory.OwnerIsRegistrations | src/pyzlc/nodes/nodes_info_manager.py:77-96 | Over every run: a node's lists are what its steps registered, in order, its tag is the number of finished registrations, and tag plus half-done ones is the number of entries. |
| DiscoveryHistory.FetchStartsExactly | src/pyzlc/nodes/nodes_info_manager.py:175-177 | A step starts a fetch if and only if it delivers a heartbeat whose tag is not the stored one, and the fetch is the receiver's for that heartbeat. |
| DiscoveryHistory.FetchExactly | src/pyzlc/nodes/nodes_info_manager.py:180-195 | A fetch ends exactly with its own reply or failure, and until then only the reads of its server move it. |
| DiscoveryLaws.ViewSafety | src/pyzlc/nodes/nodes_info_manager.py:166-198 | In every reachable state each stored record is of another node of the same group, under its name, at that node's address, a front of its current lists, with a tag its owner has reached and at least as many entries. |
| DiscoveryLaws.TagSoundness | src/pyzlc/nodes/nodes_info_manager.py:109-111 | While the owner has no half-done registration, a stored tag equal to its `infoID` means its exact lists. |
| DiscoveryLaws.SettledExactly | src/pyzlc/nodes/nodes_info_manager.py:125-129 | A settled view is the owner's record: its name, its address as seen from outside, and exactly its topics and services in order, each at that address. |
| DiscoveryLaws.LookupCountsOnce | src/pyzlc/nodes/nodes_info_manager.py:143-153 | A lookup draws on pairwise different nodes, the local one once, and returns no more entries of a name than those nodes registered. |
| DiscoveryLaws.OutdatedNeverGrows | src/pyzlc/nodes/nodes_info_manager.py:109-133 | While a node registers nothing, no step adds a fetch that will deliver an outdated record of it. |
| DiscoveryLaws.TagFallsExactly | src/pyzlc/nodes/nodes_info_manager.py:109-124 | In every state of the invariant and every step, a stored tag falls if and only if a reply of that node packed under a lower tag lands at that receiver. |
| DiscoveryLaws.ExactLostExactly | src/pyzlc/nodes/nodes_info_manager.py:122-124 | An exact view stops being exact if and only if its owner bumps its counter, its node is swept, or an outdated reply lands at that receiver. |
| DiscoveryRuns.LateReplySetsBack | src/pyzlc/nodes/nodes_info_manager.py:180-195 | In every network with two nodes of one group: a run that ends with a finished registration, and on from it a trace without registrations whose last step makes a stored tag fall and an exact view inexact; with one outdated fetch at its start and exactly one set-back it meets the bound. |
| DiscoveryRuns.TopicIsFound | src/pyzlc/nodes/nodes_info_manager.py:90-198 | In every network with two nodes of one group there is a run in which a topic registered at one becomes known at the other, at the owner's address and port, in a settled view. |
| DiscoveryLaws.SetBacksBounded | src/pyzlc/nodes/nodes_info_manager.py:113-133 | Over any trace without registrations of the node, the steps in which some view of it goes back, an exact one lost to a reply or a stored tag fallen, and the outdated fetches left are together at most the outdated fetches at its start. |
| DiscoveryLaws.FreshReplyMakesExact | src/pyzlc/nodes/nodes_info_manager.py:192-195 | The reply of a fetch that is not outdated makes the receiver's view exact. |
| DiscoveryLaws.Convergence | src/pyzlc/nodes/nodes_info_manager.py:166-198 | After the last registration and with no outdated fetch left at that receiver: a heartbeat that the node sends, in any later step, carries the current tag; once it is delivered the view is exact or a fetch is started whose reply makes it so; and in every later state short of removal the view holds exactly the owner's lists. |
| DiscoveryTime.BeatIsContact | src/pyzlc/nodes/nodes_info_manager.py:175 | Every stored contact time is that of a heartbeat or reply that happened, by the receiver's clock then. |
| DiscoveryTime.BeatIsLatest | src/pyzlc/nodes/nodes_info_manager.py:130 | No contact so far is later than the stored time. |
| DiscoveryTime.NeverForgotten | src/pyzlc/nodes/nodes_info_manager.py:200-213 | A node heard of at gaps of at most three seconds stays in the table through every run and every sweep. |
| DiscoveryTime.KnownMeansHeard | src/pyzlc/nodes/nodes_info_manager.py:204-213 | When the last successful sweep began at most D ago, every known node was heard of within 3 + D seconds. |
| DiscoveryTime.RaisingSweepIsLast | src/pyzlc/nodes/nodes_info_manager.py:203-216 | After a sweep that raises, the node never sweeps again and its set of known nodes never shrinks. |
| DiscoveryRuns.UnansweredFetchEndsSweeping | src/pyzlc/nodes/nodes_info_manager.py:175-210 | In every network with two nodes of a group, one heartbeat sent and heard, its fetch failed, four seconds of silence and a sweep: after these five steps the node no longer sweeps. |
| Subscribers.Subscriber.Connect | src/pyzlc/sockets/subscriber_manager.py:41-47 | Appends the URL unless it is listed, and is connected once it has added one. |
| Subscribers.SubscriberManager.AddSubscriber | src/pyzlc/sockets/subscriber_manager.py:124-137 | The topic's entry becomes a new running subscriber connected to the given publications in order; every subscriber made before, the replaced one too, stays as it is. |
| Subscribers.SubscriberManager.CheckNewNode | src/pyzlc/sockets/subscriber_manager.py:145-151 | The loop over an announced node's topics extends, in place, the lists of exactly the subscribers the dictionary holds for them, and leaves the displaced ones alone. |
| Subscribers.SubscriberManager.CloseAll | src/pyzlc/sockets/subscriber_manager.py:142-143 | The loop closes exactly the subscribers the dictionary holds; lists, dictionary and displaced subscribers stay as they are. |
| Subscribers.Event.Emit | src/pyzlc/utils/event.py:42-49 | Every handler of the copied list is called once, and handlers do not disturb each other's lists. |
| Subscribers.Event.Subscribe | src/pyzlc/utils/event.py:55-58 | A handler is appended unless it is subscribed already. |
| Subscribers.Event.Unsubscribe | src/pyzlc/utils/event.py:60-63 | The first occurrence of the handler is taken out, what was before and behind it stays in order, and where no handler repeats it is gone. |
| Subscriptions.ConnectedAllCovers | src/pyzlc/sockets/subscriber_manager.py:132-136 | A new subscriber's list holds a URL for every publication it was given, and none twice. |
| Subscriptions.InvKept | src/pyzlc/sockets/subscriber_manager.py:124-151 | Every operation on the node, heartbeat, reply, sweep, publish, offer, subscribe and stop, keeps the current subscribers' lists complete while the manager listens, and free of repeats always. |
| Subscriptions.SubscriptionsComplete | src/pyzlc/sockets/subscriber_manager.py:112-151 | After any operations and until `stop`, for every current subscriber and every publication a lookup of its topic returns, its list holds the TCP URL or, on the same host, the IPC URL, and no URL twice. |
| UrlSources.ConnectedAllExactly | src/pyzlc/sockets/subscriber_manager.py:112-136 | A URL is in a new subscriber's list if and only if it is the link of one of the publications found: IPC when that is on the same host and its socket file was there, and TCP otherwise. |
| UrlSources.ListExactly | src/pyzlc/sockets/subscriber_manager.py:124-151 | The history of a list over any operations: a URL is in a subscriber's list if and only if it was there at the start or some announcement, made while the manager listened and the subscriber was current, named a publication of its topic with that link. |
| UrlSources.EveryUrlHasASource | src/pyzlc/sockets/subscriber_manager.py:112-151 | Over any operations of a new node, every URL in every list is the TCP URL, or on the same host the IPC URL, of a publication of the topic that an earlier reply listed or the node itself published. |
| UrlSources.StoppedConnectsNoMore | src/pyzlc/sockets/subscriber_manager.py:139-143 | After `stop` no list of a subscriber there is ever changes again, whatever is published or heard. |
| SubscribeRace.RaceExactly | src/pyzlc/sockets/subscriber_manager.py:124-137 | With any operations between the lookup of `add_subscriber` and its dictionary write, the completeness invariant holds from the write on if and only if in between the node was told of no publication of the topic, still known, that has no URL among those found. |
| SubscribeRace.RecordIsMissed | src/pyzlc/sockets/subscriber_manager.py:132-151 | On every new node, a record with a publication of the topic that arrives between the two halves leaves the new subscriber without a URL for it. |
| SubscribeRace.MissedUntilAdded | src/pyzlc/sockets/subscriber_manager.py:145-151 | A subscriber's list comes to hold a URL for a publication if and only if it did before or a later announcement, while it is current, adds one. |
| Displacement.SubscriberStep | src/pyzlc/sockets/subscriber_manager.py:124-151 | One operation on one subscriber: it stays current if and only if its topic is not subscribed; when displaced nothing changes it; it is closed if and only if the operation is `stop` and it is current. |
| Displacement.CurrentExactly | src/pyzlc/sockets/subscriber_manager.py:137 | Over any operations a subscriber is current if and only if its topic was not subscribed again. |
| Displacement.DisplacedForever | src/pyzlc/sockets/subscriber_manager.py:137-151 | Once displaced, a subscriber keeps its list and its running state through all later operations. |
| Displacement.ClosedExactly | src/pyzlc/sockets/subscriber_manager.py:139-143 | A running current subscriber is closed later if and only if a `stop` came before its topic was subscribed again. |
| Displacement.NoStraysExactly | src/pyzlc/sockets/subscriber_manager.py:124-143 | After any operations of a new node every running subscriber is current if and only if none subscribed a topic that a running subscriber had. |
| Displacement.StopClosesAllExactly | src/pyzlc/sockets/subscriber_manager.py:139-143 | A `stop` leaves no subscriber running if and only if, up to it, no operation subscribed a topic that a running subscriber had. |
| Displacement.EveryoneIsComplete | src/pyzlc/sockets/subscriber_manager.py:124-151 | Under that condition and until `stop`, the list of every running subscriber holds a URL for every publication a lookup of its topic returns. |
| Displacement.SecondSubscriberDisplaces | src/pyzlc/sockets/subscriber_manager.py:132-143 | On every new node and for every topic: after subscribe, subscribe, publish both subscribers run and only the second has a URL for the publication; after stop the first still runs. |
| UrlLaws.OneUrlExactly | src/pyzlc/sockets/subscriber_manager.py:112-122 | Two publications get one URL if and only if both go over IPC and have one name, or both go over TCP and have one address and port. |
| UrlLaws.DecimalWrites | src/pyzlc/sockets/subscriber_manager.py:122 | A port is written in decimal digits with no leading zero, and they read back as the port. |
| UrlLaws.TcpUrlSpelled | src/pyzlc/sockets/subscriber_manager.py:122 | The TCP URL letter by letter: the scheme, the address, a colon, and a text of digits that reads back as the port. |
| UrlLaws.IpcUrlSpelled | src/pyzlc/sockets/subscriber_manager.py:119-121 | The IPC URL letter by letter, around the group's name and the topic's. |
| Node.LanComNode.HeartbeatArrives | src/pyzlc/nodes/nodes_info_manager.py:166-177 | On the objects, a heartbeat moves the contact time alone, and asks for a fetch exactly when the stored tag differs. |
| Node.LanComNode.SweepOnce | src/pyzlc/nodes/nodes_info_manager.py:204-213 | On the objects, a sweep changes the table as the operation does, own record and subscribers not at all, and raises exactly for a stale node without a record. |
| Node.LanComNode.Offer | src/pyzlc/nodes/nodes_info_manager.py:77-88 | On the objects, offering a service registers it exactly when no known node offers the name, and changes nothing otherwise. |
| Node.LanComNode.ReplyArrives | src/pyzlc/nodes/nodes_info_manager.py:113-133 | On the objects, a landing reply does to table and subscribers what the operation of the state machine does. |
| Node.LanComNode.Publish | src/pyzlc/nodes/nodes_info_manager.py:90-96 | On the objects, publishing updates the own record and connects the node's own subscribers. |
| Node.LanComNode.Subscribe | src/pyzlc/sockets/subscriber_manager.py:124-137 | On the objects, subscribing looks the topic up and connects to all it finds. |
| Node.LanComNode.Stop | src/pyzlc/sockets/subscriber_manager.py:139-143 | On the objects, stopping unsubscribes the manager and closes exactly the current subscribers; displaced ones, lists and dictionary stay as they are. |
| PublishSubscribe.SharedTable | src/pyzlc/nodes/nodes_info_manager.py:113-214 | Along every run of the network, a node that is moved by its steps and calls its own operations in between keeps the subscription invariant and has the network's table of it. |
| PublishSubscribe.SettledIsSubscribed | src/pyzlc/sockets/subscriber_manager.py:112-151 | Whenever a view is settled and its node listens, each current subscriber's list holds a URL for every publication the owner has registered for its topic, at the address the owner is heard at. |
| PublishSubscribe.PublicationsAreReached | src/pyzlc/nodes/nodes_info_manager.py:166-198 | From the step that sends a heartbeat to the subscriber: under the premises of convergence, in every later state short of removal and stop, the list of every current subscriber of the topic, whenever it was added, holds a URL for what the other node published. |
| PublishSubscribe.EveryRunningIsSubscribed | src/pyzlc/sockets/subscriber_manager.py:124-151 | Along a life that never subscribes a topic a running subscriber has, a settled view gives every running subscriber of the topic a URL for what the other node published. |
| Executor.InvKept | src/pyzlc/nodes/loop_manager.py:32-103 | Every step of clients and workers keeps the invariant on queue, holders, futures, call counts, threads and the unfinished counter. |
| ExecutorLaws.Conservation | src/pyzlc/nodes/loop_manager.py:32-87 | In every reachable state an accepted task is queued once, or with exactly one worker, or settled; the counter is the number queued plus held; each function has run at most once. |
| ExecutorHistory.FirstInFirstOut | src/pyzlc/nodes/loop_manager.py:45-66 | Over every run: the tasks taken by workers so far, in order, followed by the queue, are exactly the tasks submitted so far, in order. |
| ExecutorHistory.EarlierIsTakenEarlier | src/pyzlc/nodes/loop_manager.py:45-66 | If one task is submitted before another and the other is taken, the first was taken earlier. |
| ExecutorHistory.AcceptedExactly | src/pyzlc/nodes/loop_manager.py:36-51 | A task has a future if and only if it was submitted. |
| ExecutorHistory.CancelledExactly | src/pyzlc/nodes/loop_manager.py:75-77 | A future is cancelled if and only if somebody cancelled it while it was pending. |
| ExecutorHistory.OutcomeExactly | src/pyzlc/nodes/loop_manager.py:79-85 | A future has an outcome if and only if a worker's call of its task ended with that outcome. |
| ExecutorLaws.WorkersNeverRaise | src/pyzlc/nodes/loop_manager.py:74-87 | `task_done` never exceeds the puts, and each future is in the state the worker's next call needs. |
| ExecutorLaws.CancelledNeverCalled | src/pyzlc/nodes/loop_manager.py:74-77 | A task cancelled before it was claimed is never called; a finished one keeps its outcome, from one call. |
| ExecutorLaws.ShutdownProgress | src/pyzlc/nodes/loop_manager.py:61-103 | Once the flag is set every worker step strictly lowers a measure of queue and workers, and no step raises it. |
| ExecutorLaws.ShutdownBounded | src/pyzlc/nodes/loop_manager.py:61-103 | Under every schedule at most that measure's number of worker steps follows a shutdown. |
| ExecutorLaws.AtRestHasNoWorkers | src/pyzlc/nodes/loop_manager.py:61-92 | No worker step is possible if and only if no worker is left: none is ever stuck. |
| ExecutorLaws.NobodyTimedOutIsSafe | src/pyzlc/nodes/loop_manager.py:45-49 | With at least one worker allowed, a submit is safe whenever no worker is between its timed-out get and its look at the flag. |
| ExecutorLaws.StrandingExactly | src/pyzlc/nodes/loop_manager.py:64-70 | From a state of the invariant some schedule of shutdown and workers leaves a task queued with no worker left if and only if one is queued, no spawn is due, and every live worker has timed out or left its loop. |
| Stranding.TasksCanStrand | src/pyzlc/nodes/loop_manager.py:36-70 | For every number of workers there is a run of a new executor that ends with a task queued, the flag set and nobody left. |
| Stranding.StrandedForever | src/pyzlc/nodes/loop_manager.py:94-103 | Whatever is done from there on, the same tasks stay queued and unsettled and the counter that `join` waits for stays positive. |
| ExecutorLaws.ShutdownSettlesEverything | src/pyzlc/nodes/loop_manager.py:94-103 | In runs whose submits were safe, the end of a shutdown has every accepted future settled and `join` released. |
| ExecutorPool.DaemonThreadPoolExecutor.Submit | src/pyzlc/nodes/loop_manager.py:32-51 | Raises exactly after shutdown, changing nothing; otherwise the task goes behind all queued ones with a pending future, and the object makes the put and the spawn steps of the protocol. |
| ExecutorPool.DaemonThreadPoolExecutor.ServeOne | src/pyzlc/nodes/loop_manager.py:72-87 | One undisturbed pass serves the task at the head of the queue; it is the protocol's get, claim, settle and `task_done`, and keeps its invariant. |
| ExecutorPool.DaemonThreadPoolExecutor.WorkAlone | src/pyzlc/nodes/loop_manager.py:61-92 | A worker alone after shutdown serves the queued tasks in their order, each to its function's outcome or, when cancelled, without a call; it leaves every other future as it was, lowers the counter by their number, and goes. |
| Services.ServiceManager.HandleRequest | src/pyzlc/sockets/service_manager.py:55-82 | Raises again if and only if the manager is stopped and the call was cancelled or raised `RuntimeError`; otherwise the decoded status tells missing, returned, timed out, `ExtraData` and every other failure apart, both ways, and only a returned result is carried. |
| Services.AnswerExactly | src/pyzlc/sockets/service_manager.py:55-82 | The same of the value function that the reply loop is stated with, for running and stopped managers. |
| ServiceLaws.WaitExactly | src/pyzlc/sockets/service_manager.py:55-82 | What the client is told, by name of the status: a missing service, a timeout, a cancellation or a pool that is down while the manager runs, and each way a completed call can return or raise; nothing is told only when a stopped manager meets a cancellation or `RuntimeError`. |
| Services.ServiceManager.ServiceLoop | src/pyzlc/sockets/service_manager.py:84-104 | The loop on the objects does, turn by turn, what the fold over the turns does, whatever arrives, fails or stops it. |
| Services.Alternation | src/pyzlc/sockets/service_manager.py:90-103 | At every head of the loop requests received and replies sent are equal in number, or differ by the one the socket owes. |
| Services.RepliesMatch | src/pyzlc/sockets/service_manager.py:94-96 | The k-th reply is the answer to the k-th request, given in the turn in which exactly k requests had been received before, by the services registered then. |
| Services.AnsweredExactly | src/pyzlc/sockets/service_manager.py:90-103 | While running, replies equal requests at the loop head if and only if every request taken had two frames, a UTF-8 name and a reply that was sent, for every outcome of the handlers. |
| Services.UnanswerableIsLast | src/pyzlc/sockets/service_manager.py:92-103 | After one request that cannot be answered the loop receives and sends nothing more, whatever arrives. |
| Services.UnreadableIsLast | src/pyzlc/sockets/service_manager.py:94-103 | A message that is not of two frames, or whose name is not UTF-8, is the last the loop takes, and the replies stay as they are. |
| Services.OneFrameIsLast | src/pyzlc/sockets/service_manager.py:92-103 | One message of a single frame to a new service is the last it receives, and it never replies to anyone. |
| ServiceLaws.LastRegisteredServes | src/pyzlc/sockets/service_manager.py:50-53 | Over any turns, the callback of a name is the one registered last while the loop ran. |
| ServiceLaws.UnregisteredStays | src/pyzlc/sockets/service_manager.py:50-61 | A name not registered in these turns is known, and means what it meant, just as at their start. |
| ServiceLaws.GoesOnExactly | src/pyzlc/sockets/service_manager.py:90-103 | The loop runs on after any turns if and only if in none of them it was stopped, cancelled, or cut short while sending a due reply: no handler's failure, unreadable request or refused reply ends it. |
| ServiceLaws.EndedIsQuiet | src/pyzlc/sockets/service_manager.py:90-110 | A loop that is stopped or left receives and sends nothing more. |
| ServiceLaws.TakesExactly | src/pyzlc/sockets/service_manager.py:92-96 | A request is taken exactly when the loop runs, owes nothing and one is waiting, and a reply goes out exactly when the request has two frames, a UTF-8 name, a due answer and a socket that sends. |
| RemoteCalls.ClientRequestsAreWellFormed | src/pyzlc/utils/msg.py:207 | What a client sends always has two frames and its service's name in UTF-8. |
| RemoteCalls.AnyResponseExactly | src/pyzlc/utils/msg.py:209-244 | Whatever a peer answers, in any number of frames: a value exactly for a success whose second frame unpacks to it, no value exactly when nothing came or the status is another, and a raise otherwise, for an empty response, a status that is not UTF-8 or a success without body. |
| RemoteCalls.RemoteCallExactly | src/pyzlc/utils/msg.py:223-244 | For every request, packed or raw bytes, running or stopped: the client gets `w` if and only if the name encodes, the service is registered, its call completes, the bytes unpack to a value and the handler gives `w` for it; it raises if and only if the completed call met trailing bytes, in the request or raised by the handler; otherwise it gets no value. |
| RemoteCalls.PackedCallExactly | src/pyzlc/utils/msg.py:227-230 | For a value that is packed, the handler sees that value and the client gets exactly what it gives. |
| RemoteCalls.TrailingBytesSucceed | src/pyzlc/sockets/service_manager.py:37-46 | A request with trailing bytes for a wrapped handler gets an empty success, and no request for one is ever answered as invalid. |
| Streaming.Streamer.UpdateLoop | src/pyzlc/sockets/publisher.py:69-85 | The loop stamps and publishes at the times of the fold over its turns, and ends by raising or by `running`. |
| Streaming.AlwaysPaced | src/pyzlc/sockets/publisher.py:74-80 | In every run stamps are at least a period apart, with one message between a stamp and the next. |
| Streaming.GapsExactly | src/pyzlc/sockets/publisher.py:76-79 | In every run the time from a stamp to the next is the longer of the period and the work in between, plus the sleep's overshoot. |
| Streaming.FirstStampExactly | src/pyzlc/sockets/publisher.py:72-79 | The first stamp comes at once, unless the clock shows less than a period; then when it shows a period. |
| Streaming.TurnsExactly | src/pyzlc/sockets/publisher.py:74-84 | A turn is stamped if and only if none before it failed or stopped the loop, a turn that does not fail publishes when its work is done, and the loop raises exactly for a failed turn, which stays without message. |
| Streaming.RateBound | src/pyzlc/sockets/publisher.py:60-80 | For positive `fps` any window of length T holds at most floor(T * fps) + 1 stamps and floor(T * fps) + 2 messages, however long the work takes. |
| Streaming.NegativeRateHasNoBound | src/pyzlc/sockets/publisher.py:60-78 | For negative `fps` any number of messages can go out at one instant. |

## Left out

- ZeroMQ, UDP, multicast membership, `select` and IPC files: foreign I/O; what remains of them is the
  lossy set of heartbeats, requests and replies, and the answers of `os.path.exists`.
- msgpack: an abstract serialisation with a partial unpacking that inverts it (`RemoteCalls.Faithful`).
- `ipaddress`, `uuid`, version parsing and `calculate_broadcast_addr`: addresses arrive parsed.
- The asyncio loop, thread starts and joins, `TaskLoopManager`: only the points where others can come
  in between are kept.
- Event handlers that raise, or that subscribe and unsubscribe while the event is emitted; the handlers
  here are subscriber managers.
- Node update handlers registered for one node's name: only those for `"*"`, which the program itself
  uses, are modelled.
- `unreplyed_heartbeats`, logging, exception classes, the node registry, `ZMQSocketManager` and the
  top-level wrappers: thin, or without effect on the state modelled.
- Sockets inside a record object are values; a looked-up socket is a copy, so a later change of a
  record's addresses does not reach it.
- Sizes beyond UDP's limit, and counters beyond 32 bits in `Discovery`: the codecs have the exact widths.
- Two update loops of one streamer at once, and floating-point rounding of its clock.
- Subscriptions.SubscriptionsComplete: `add_subscriber` is one operation of the state machine; its two
  halves, with operations in between, are the subject of `SubscribeRace`.
- Discovery.InvKept: a heartbeat reaches members of its group only, which `Datagrams.DatagramsAreDeliveries`
  proves of neighbours with names of at most 968 bytes; the subnet filter counts as loss.
- ExecutorPool.DaemonThreadPoolExecutor.WorkAlone: other threads stand still; interleavings are the
  subject of `Executor` and `ExecutorLaws`.
- PublishSubscribe.PublicationsAreReached: the node's own registrations appear twice, as two writes in the
  network and as one operation of its life; only the table is shared between the two.
- DiscoveryLaws.Convergence: that a heartbeat is delivered and its fetch succeeds is assumed, the network
  promises neither.
- Streaming.RateBound: one loop whose sleep is never cut short.
