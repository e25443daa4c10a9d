/**
 The discovery protocol of a group of nodes. Registrations are two writes, a served record is packed
 field by field while registrations go on, heartbeats may be lost, repeated and reordered, any number
 of fetches may be under way, and each node sweeps its table by its own clock.
 */
module Discovery {
  import opened Utf8
  import opened NodeInfoCodec
  import opened NodeTable

  type Id = Text

  /** What stays fixed about a node: `bindIp` is its own idea of its address, `sourceIp` what others see. */
  datatype Peer = Peer(name: Text, bindIp: Text, sourceIp: Text, port: int, group: Text)

  type Config = map<Id, Peer>

  /** The service port of an address belongs to one node for the whole run. */
  ghost predicate ValidConfig(c: Config) {
    forall a, b :: a in c && b in c && c[a].sourceIp == c[b].sourceIp && c[a].port == c[b].port ==> a == b
  }

  /** A node's own record; `pending` registrations have appended but not yet bumped the counter. */
  datatype Owner = Owner(topics: seq<SocketInfo>, services: seq<SocketInfo>, infoID: int, pending: nat)

  datatype Beat = Beat(id: Id, tag: int, sourceIp: Text, port: int, group: Text)

  datatype Phase =
    | Requested
    | TagRead(tag: int)
    | TopicsRead(tag: int, topics: seq<SocketInfo>)
    | Replied(info: NodeInfo)

  /** A suspended heartbeat task of `receiver` and the request it waits for. */
  datatype Fetch = Fetch(receiver: Id, beat: Beat, phase: Phase)

  datatype State = State(
    own: map<Id, Owner>,
    beats: set<Beat>,             // every heartbeat ever sent
    fetches: map<nat, Fetch>,
    nextFetch: nat,
    tables: map<Id, Table>,
    clock: map<Id, real>,
    sweeping: set<Id>)            // nodes whose check_heartbeat loop is alive

  datatype Step =
    | AppendTopic(n: Id, name: Text, port: int)
    | AppendService(n: Id, name: Text, port: int)
    | Bump(n: Id)
    | Send(n: Id)
    | Deliver(r: Id, b: Beat)
    | ReadTag(n: Id, f: nat)
    | ReadTopics(n: Id, f: nat)
    | ReadServices(n: Id, f: nat)
    | Reply(f: nat)
    | Fail(f: nat)
    | Sweep(r: Id, readings: map<Id, real>, end: real)
    | Tick(r: Id, now: real)

  function Initial(c: Config): State {
    State(
      map n | n in c :: Owner([], [], 0, 0), {}, map[], 0, map n | n in c :: EMPTY, map n | n in c :: 0.0, c.Keys)
  }

  /** Node `n` listens where the fetch `f` sent its request. */
  predicate Serves(c: Config, s: State, n: Id, f: nat) {
    && n in c && n in s.own && f in s.fetches
    && s.fetches[f].beat.sourceIp == c[n].sourceIp && s.fetches[f].beat.port == c[n].port
  }

  predicate Enabled(c: Config, s: State, step: Step) {
    match step
    case AppendTopic(n, _, _) => n in s.own && n in c
    case AppendService(n, _, _) => n in s.own && n in c
    case Bump(n) => n in s.own && n in c && s.own[n].pending > 0
    case Send(n) => n in s.own && n in c
    case Deliver(r, b) =>
      r in c && r in s.tables && r in s.clock && b in s.beats && b.group == c[r].group && b.id != r
    case ReadTag(n, f) => Serves(c, s, n, f) && s.fetches[f].phase.Requested?
    case ReadTopics(n, f) => Serves(c, s, n, f) && s.fetches[f].phase.TagRead?
    case ReadServices(n, f) => Serves(c, s, n, f) && s.fetches[f].phase.TopicsRead?
    case Reply(f) =>
      && f in s.fetches && s.fetches[f].phase.Replied?
      && s.fetches[f].receiver in s.tables && s.fetches[f].receiver in s.clock
    case Fail(f) => f in s.fetches
    case Sweep(r, readings, end) =>
      && r in s.sweeping && r in s.tables && r in s.clock && s.clock[r] <= end
      && s.tables[r].beat.Keys <= readings.Keys
      && forall id :: id in s.tables[r].beat ==> s.clock[r] <= readings[id] <= end
    case Tick(r, now) => r in s.clock && s.clock[r] <= now
  }

  predicate IsOwnerStep(step: Step) {
    step.AppendTopic? || step.AppendService? || step.Bump?
  }

  /** The two writes of a registration: first the list, then the counter. */
  function OwnerAfter(p: Peer, o: Owner, step: Step): Owner
    requires IsOwnerStep(step) && (step.Bump? ==> o.pending > 0)
  {
    match step
    case AppendTopic(_, name, port) =>
      o.(topics := o.topics + [SocketInfo(name, p.bindIp, port)], pending := o.pending + 1)
    case AppendService(_, name, port) =>
      o.(services := o.services + [SocketInfo(name, p.bindIp, port)], pending := o.pending + 1)
    case Bump(_) => o.(infoID := o.infoID + 1, pending := o.pending - 1)
  }

  /** The next field of the live record that the packer reads: the tag, then the topics, then the services. */
  function PhaseAfter(n: Id, p: Peer, o: Owner, phase: Phase): Phase {
    match phase
    case Requested => TagRead(o.infoID)
    case TagRead(tag) => TopicsRead(tag, o.topics)
    case TopicsRead(tag, topics) => Replied(NodeInfo(n, tag, p.name, p.bindIp, topics, o.services))
    case Replied(_) => phase
  }

  function Apply(c: Config, s: State, step: Step): State
    requires Enabled(c, s, step)
  {
    match step
    case AppendTopic(n, _, _) => s.(own := s.own[n := OwnerAfter(c[n], s.own[n], step)])
    case AppendService(n, _, _) => s.(own := s.own[n := OwnerAfter(c[n], s.own[n], step)])
    case Bump(n) => s.(own := s.own[n := OwnerAfter(c[n], s.own[n], step)])
    case Send(n) =>
      s.(beats := s.beats + {Beat(n, s.own[n].infoID, c[n].sourceIp, c[n].port, c[n].group)})
    case Deliver(r, b) =>
      var heard := s.(tables := s.tables[r := Contacted(s.tables[r], b.id, s.clock[r])]);
      if CheckInfo(s.tables[r], b.id, b.tag) then heard
      else heard.(fetches := s.fetches[s.nextFetch := Fetch(r, b, Requested)], nextFetch := s.nextFetch + 1)
    case ReadTag(n, f) => Advance(s, f, PhaseAfter(n, c[n], s.own[n], s.fetches[f].phase))
    case ReadTopics(n, f) => Advance(s, f, PhaseAfter(n, c[n], s.own[n], s.fetches[f].phase))
    case ReadServices(n, f) => Advance(s, f, PhaseAfter(n, c[n], s.own[n], s.fetches[f].phase))
    case Reply(f) =>
      var r := s.fetches[f].receiver;
      var info := s.fetches[f].phase.info.(ip := s.fetches[f].beat.sourceIp);
      s.(tables := s.tables[r := Updated(s.tables[r], info, s.clock[r])], fetches := s.fetches - {f})
    case Fail(f) => s.(fetches := s.fetches - {f})
    case Sweep(r, readings, end) =>
      var later := s.(clock := s.clock[r := end]);
      if SweepRaises(s.tables[r], readings) then later.(sweeping := s.sweeping - {r})
      else later.(tables := s.tables[r := Without(s.tables[r], Stale(s.tables[r], readings))])
    case Tick(r, now) => s.(clock := s.clock[r := now])
  }

  function Advance(s: State, f: nat, phase: Phase): State
    requires f in s.fetches
  {
    s.(fetches := s.fetches[f := s.fetches[f].(phase := phase)])
  }

  // ---------- the invariant ----------

  /** The same names and ports as the front of the longer list; addresses differ between hosts. */
  predicate Front(a: seq<SocketInfo>, b: seq<SocketInfo>) {
    |a| <= |b| && forall i :: 0 <= i < |a| ==> a[i].name == b[i].name && a[i].port == b[i].port
  }

  predicate OwnerOk(o: Owner) {
    0 <= o.infoID && o.infoID + o.pending == |o.topics| + |o.services|
  }

  /** Lists tagged k show at least k registrations of their owner and nothing he did not register. */
  predicate Snapshot(o: Owner, tag: int, topics: seq<SocketInfo>, services: seq<SocketInfo>) {
    0 <= tag <= o.infoID && Front(topics, o.topics) && Front(services, o.services) && tag <= |topics| + |services|
  }

  predicate BeatOk(c: Config, own: map<Id, Owner>, b: Beat) {
    && b.id in own && b.id in c && 0 <= b.tag <= own[b.id].infoID
    && b.sourceIp == c[b.id].sourceIp && b.port == c[b.id].port && b.group == c[b.id].group
  }

  predicate PhaseOk(o: Owner, id: Id, phase: Phase) {
    match phase
    case Requested => true
    case TagRead(tag) => 0 <= tag <= o.infoID
    case TopicsRead(tag, topics) => 0 <= tag <= o.infoID && Front(topics, o.topics) && tag <= |topics| + |o.services|
    case Replied(info) => info.nodeID == id && Snapshot(o, info.infoID, info.topics, info.services)
  }

  /** Two nodes that may know of each other. */
  predicate Mates(c: Config, r: Id, n: Id) {
    r in c && n in c && r != n && c[r].group == c[n].group
  }

  predicate FetchOk(c: Config, own: map<Id, Owner>, f: Fetch) {
    && BeatOk(c, own, f.beat) && Mates(c, f.receiver, f.beat.id) && PhaseOk(own[f.beat.id], f.beat.id, f.phase)
    && (f.phase.Replied? ==> f.phase.info.name == c[f.beat.id].name)
  }

  predicate RecordOk(c: Config, own: map<Id, Owner>, r: Id, n: Id, info: NodeInfo) {
    && Mates(c, r, n) && n in own && info.name == c[n].name && info.ip == c[n].sourceIp
    && Snapshot(own[n], info.infoID, info.topics, info.services)
  }

  predicate TableOk(c: Config, own: map<Id, Owner>, r: Id, t: Table) {
    && Coherent(t)
    && (forall n :: n in t.beat ==> Mates(c, r, n))
    && forall n :: n in t.info ==> RecordOk(c, own, r, n, t.info[n])
  }

  predicate OwnersOk(own: map<Id, Owner>) {
    forall n :: n in own ==> OwnerOk(own[n])
  }

  predicate BeatsOk(c: Config, own: map<Id, Owner>, beats: set<Beat>) {
    forall b :: b in beats ==> BeatOk(c, own, b)
  }

  predicate FetchesOk(c: Config, own: map<Id, Owner>, fetches: map<nat, Fetch>, next: nat) {
    forall f :: f in fetches ==> f < next && FetchOk(c, own, fetches[f])
  }

  predicate TablesOk(c: Config, own: map<Id, Owner>, tables: map<Id, Table>) {
    forall r :: r in tables ==> TableOk(c, own, r, tables[r])
  }

  predicate KeysOk(c: Config, s: State) {
    s.own.Keys == s.tables.Keys == s.clock.Keys == c.Keys && s.sweeping <= c.Keys
  }

  ghost predicate Inv(c: Config, s: State) {
    && ValidConfig(c) && KeysOk(c, s) && OwnersOk(s.own) && BeatsOk(c, s.own, s.beats)
    && FetchesOk(c, s.own, s.fetches, s.nextFetch) && TablesOk(c, s.own, s.tables)
  }

  lemma InitialInv(c: Config)
    requires ValidConfig(c)
    ensures Inv(c, Initial(c))
  {
  }

  // ---------- every step keeps it ----------

  predicate Grows(o: Owner, o': Owner) {
    o.infoID <= o'.infoID && o.topics <= o'.topics && o.services <= o'.services
  }

  predicate AllGrow(own: map<Id, Owner>, own': map<Id, Owner>) {
    own'.Keys == own.Keys && forall n :: n in own ==> Grows(own[n], own'[n])
  }

  lemma PhaseStays(o: Owner, o': Owner, id: Id, phase: Phase)
    requires Grows(o, o') && PhaseOk(o, id, phase)
    ensures PhaseOk(o', id, phase)
  {
  }

  lemma BeatStays(c: Config, own: map<Id, Owner>, own': map<Id, Owner>, b: Beat)
    requires AllGrow(own, own') && BeatOk(c, own, b)
    ensures BeatOk(c, own', b)
  {
    assert Grows(own[b.id], own'[b.id]);
  }

  lemma FetchStays(c: Config, own: map<Id, Owner>, own': map<Id, Owner>, f: Fetch)
    requires AllGrow(own, own') && FetchOk(c, own, f)
    ensures FetchOk(c, own', f)
  {
    assert Grows(own[f.beat.id], own'[f.beat.id]);
    PhaseStays(own[f.beat.id], own'[f.beat.id], f.beat.id, f.phase);
  }

  lemma TableStays(c: Config, own: map<Id, Owner>, own': map<Id, Owner>, r: Id, t: Table)
    requires AllGrow(own, own') && TableOk(c, own, r, t)
    ensures TableOk(c, own', r, t)
  {
    hide Coherent;
    forall n | n in t.info
      ensures RecordOk(c, own', r, n, t.info[n])
    {
      assert RecordOk(c, own, r, n, t.info[n]) && Grows(own[n], own'[n]);
    }
  }

  /** What was true of beats, fetches and records stays true while their owners only register more. */
  lemma GrowthKeeps(c: Config, s: State, own': map<Id, Owner>)
    requires Inv(c, s) && AllGrow(s.own, own')
    ensures BeatsOk(c, own', s.beats) && FetchesOk(c, own', s.fetches, s.nextFetch) && TablesOk(c, own', s.tables)
  {
    hide BeatOk, FetchOk, TableOk, AllGrow, ValidConfig, OwnersOk, KeysOk;
    forall b | b in s.beats
      ensures BeatOk(c, own', b)
    {
      BeatStays(c, s.own, own', b);
    }
    forall f | f in s.fetches
      ensures FetchOk(c, own', s.fetches[f])
    {
      FetchStays(c, s.own, own', s.fetches[f]);
    }
    forall r | r in s.tables
      ensures TableOk(c, own', r, s.tables[r])
    {
      TableStays(c, s.own, own', r, s.tables[r]);
    }
  }

  lemma OwnerAfterOk(p: Peer, o: Owner, step: Step)
    requires IsOwnerStep(step) && (step.Bump? ==> o.pending > 0) && OwnerOk(o)
    ensures OwnerOk(OwnerAfter(p, o, step)) && Grows(o, OwnerAfter(p, o, step))
  {
  }

  lemma OwnerStepKeeps(c: Config, s: State, step: Step)
    requires Inv(c, s) && Enabled(c, s, step) && IsOwnerStep(step)
    ensures Inv(c, Apply(c, s, step))
  {
    hide BeatsOk, FetchesOk, TablesOk, ValidConfig, OwnerOk, OwnerAfter, Grows;
    var n := step.n;
    assert OwnerOk(s.own[n]);
    OwnerAfterOk(c[n], s.own[n], step);
    var own' := s.own[n := OwnerAfter(c[n], s.own[n], step)];
    GrowsItself(s.own);
    assert AllGrow(s.own, own');
    GrowthKeeps(c, s, own');
  }

  lemma GrowsItself(own: map<Id, Owner>)
    ensures forall n :: n in own ==> Grows(own[n], own[n])
  {
  }

  lemma PutFetch(c: Config, own: map<Id, Owner>, fetches: map<nat, Fetch>, next: nat, f: nat, fetch: Fetch, next': nat)
    requires FetchesOk(c, own, fetches, next) && FetchOk(c, own, fetch) && f < next' && next <= next'
    ensures FetchesOk(c, own, fetches[f := fetch], next')
  {
    hide FetchOk;
  }

  lemma DropFetch(c: Config, own: map<Id, Owner>, fetches: map<nat, Fetch>, next: nat, f: nat)
    requires FetchesOk(c, own, fetches, next)
    ensures FetchesOk(c, own, fetches - {f}, next)
  {
    hide FetchOk;
  }

  lemma FetchAt(c: Config, own: map<Id, Owner>, fetches: map<nat, Fetch>, next: nat, f: nat)
    requires FetchesOk(c, own, fetches, next) && f in fetches
    ensures FetchOk(c, own, fetches[f]) && f < next
  {
    hide FetchOk;
  }

  lemma TableAt(c: Config, own: map<Id, Owner>, tables: map<Id, Table>, r: Id)
    requires TablesOk(c, own, tables) && r in tables
    ensures TableOk(c, own, r, tables[r])
  {
    hide TableOk;
  }

  lemma PutTable(c: Config, own: map<Id, Owner>, tables: map<Id, Table>, r: Id, t: Table)
    requires TablesOk(c, own, tables) && TableOk(c, own, r, t)
    ensures TablesOk(c, own, tables[r := t])
  {
    hide TableOk;
  }

  /** The server of a request is the node the heartbeat came from: no other has its endpoint. */
  lemma ServerIsSender(c: Config, s: State, n: Id, f: nat)
    requires Inv(c, s) && Serves(c, s, n, f)
    ensures s.fetches[f].beat.id == n
  {
    assert FetchOk(c, s.own, s.fetches[f]);
  }

  /** Whatever the owner has registered since, the next field read goes with those read before. */
  lemma PhaseAfterOk(n: Id, p: Peer, o: Owner, phase: Phase)
    requires OwnerOk(o) && PhaseOk(o, n, phase)
    ensures PhaseOk(o, n, PhaseAfter(n, p, o, phase))
    ensures !phase.Replied? && PhaseAfter(n, p, o, phase).Replied? ==> PhaseAfter(n, p, o, phase).info.name == p.name
    ensures phase.Replied? ==> PhaseAfter(n, p, o, phase) == phase
  {
  }

  predicate IsReading(step: Step) {
    step.ReadTag? || step.ReadTopics? || step.ReadServices?
  }

  /** The three reads are one: the packer reads the field that is next. */
  lemma ReadingAdvances(c: Config, s: State, step: Step)
    requires Enabled(c, s, step) && IsReading(step)
    ensures Serves(c, s, step.n, step.f)
    ensures Apply(c, s, step) ==
      Advance(s, step.f, PhaseAfter(step.n, c[step.n], s.own[step.n], s.fetches[step.f].phase))
  {
    hide PhaseAfter;
  }

  lemma ReadingKeeps(c: Config, s: State, step: Step)
    requires Inv(c, s) && Enabled(c, s, step) && IsReading(step)
    ensures Inv(c, Apply(c, s, step))
  {
    hide ValidConfig, BeatsOk, TablesOk, FetchesOk, BeatOk, PhaseOk, PhaseAfter, Enabled, Apply;
    ReadingAdvances(c, s, step);
    var n, f := step.n, step.f;
    ServerIsSender(c, s, n, f);
    FetchAt(c, s.own, s.fetches, s.nextFetch, f);
    assert OwnerOk(s.own[n]);
    hide OwnersOk, OwnerOk;
    AdvancedFetchOk(c, s.own, n, s.fetches[f]);
    hide FetchOk;
    var fetch := s.fetches[f].(phase := PhaseAfter(n, c[n], s.own[n], s.fetches[f].phase));
    PutFetch(c, s.own, s.fetches, s.nextFetch, f, fetch, s.nextFetch);
  }

  lemma AdvancedFetchOk(c: Config, own: map<Id, Owner>, n: Id, f: Fetch)
    requires FetchOk(c, own, f) && f.beat.id == n && OwnerOk(own[n])
    ensures FetchOk(c, own, f.(phase := PhaseAfter(n, c[n], own[n], f.phase)))
  {
    hide PhaseOk, PhaseAfter, OwnerOk;
    PhaseAfterOk(n, c[n], own[n], f.phase);
  }

  lemma SendKeeps(c: Config, s: State, n: Id)
    requires Inv(c, s) && Enabled(c, s, Send(n))
    ensures Inv(c, Apply(c, s, Send(n)))
  {
    assert OwnerOk(s.own[n]);
    hide ValidConfig, OwnersOk, FetchesOk, TablesOk;
  }

  lemma DeliverKeeps(c: Config, s: State, r: Id, b: Beat)
    requires Inv(c, s) && Enabled(c, s, Deliver(r, b))
    ensures Inv(c, Apply(c, s, Deliver(r, b)))
  {
    hide ValidConfig, OwnersOk, FetchesOk, TablesOk, TableOk, PhaseOk, CheckInfo;
    assert BeatOk(c, s.own, b);
    var fetch := Fetch(r, b, Requested);
    assert FetchOk(c, s.own, fetch) by { RequestOk(s.own[b.id], b.id); }
    hide BeatsOk, BeatOk, FetchOk, Contacted;
    TableAt(c, s.own, s.tables, r);
    HeardTableOk(c, s.own, r, s.tables[r], b.id, s.clock[r]);
    PutTable(c, s.own, s.tables, r, Contacted(s.tables[r], b.id, s.clock[r]));
    PutFetch(c, s.own, s.fetches, s.nextFetch, s.nextFetch, fetch, s.nextFetch + 1);
  }

  lemma RequestOk(o: Owner, id: Id)
    ensures PhaseOk(o, id, Requested)
  {
  }

  lemma HeardTableOk(c: Config, own: map<Id, Owner>, r: Id, t: Table, n: Id, now: real)
    requires TableOk(c, own, r, t) && Mates(c, r, n)
    ensures TableOk(c, own, r, Contacted(t, n, now))
  {
    hide RecordOk;
  }

  lemma ReplyKeeps(c: Config, s: State, f: nat)
    requires Inv(c, s) && Enabled(c, s, Reply(f))
    ensures Inv(c, Apply(c, s, Reply(f)))
  {
    hide ValidConfig, OwnersOk, BeatsOk, FetchesOk, TablesOk, FetchOk, TableOk, Updated;
    var r := s.fetches[f].receiver;
    FetchAt(c, s.own, s.fetches, s.nextFetch, f);
    TableAt(c, s.own, s.tables, r);
    UpdatedTableOk(c, s.own, s.fetches[f], s.tables[r], s.clock[r]);
    PutTable(c, s.own, s.tables, r, Apply(c, s, Reply(f)).tables[r]);
    DropFetch(c, s.own, s.fetches, s.nextFetch, f);
  }

  lemma UpdatedTableOk(c: Config, own: map<Id, Owner>, fetch: Fetch, t: Table, now: real)
    requires FetchOk(c, own, fetch) && TableOk(c, own, fetch.receiver, t) && fetch.phase.Replied?
    ensures TableOk(c, own, fetch.receiver, Updated(t, fetch.phase.info.(ip := fetch.beat.sourceIp), now))
  {
    var info := fetch.phase.info.(ip := fetch.beat.sourceIp);
    UpdateCoherent(t, info, now);
    assert RecordOk(c, own, fetch.receiver, fetch.beat.id, AtHome(info));
    hide RecordOk, AtHome, Coherent;
  }

  lemma SweepKeeps(c: Config, s: State, r: Id, readings: map<Id, real>, end: real)
    requires Inv(c, s) && Enabled(c, s, Sweep(r, readings, end))
    ensures Inv(c, Apply(c, s, Sweep(r, readings, end)))
  {
    hide ValidConfig, OwnersOk, BeatsOk, FetchesOk, TablesOk, TableOk, Stale, SweepRaises, Without;
    TableAt(c, s.own, s.tables, r);
    SweptTableOk(c, s.own, r, s.tables[r], Stale(s.tables[r], readings));
    PutTable(c, s.own, s.tables, r, Without(s.tables[r], Stale(s.tables[r], readings)));
  }

  lemma SweptTableOk(c: Config, own: map<Id, Owner>, r: Id, t: Table, gone: set<Id>)
    requires TableOk(c, own, r, t)
    ensures TableOk(c, own, r, Without(t, gone))
  {
    WithoutCoherent(t, gone);
    hide RecordOk, Coherent;
  }

  lemma InvKept(c: Config, s: State, step: Step)
    requires Inv(c, s) && Enabled(c, s, step)
    ensures Inv(c, Apply(c, s, step))
  {
    hide ValidConfig, BeatsOk, OwnersOk, TablesOk;
    match step
    case Send(n) => SendKeeps(c, s, n);
    case Deliver(r, b) => DeliverKeeps(c, s, r, b);
    case ReadTag(_, _) => ReadingKeeps(c, s, step);
    case ReadTopics(_, _) => ReadingKeeps(c, s, step);
    case ReadServices(_, _) => ReadingKeeps(c, s, step);
    case Reply(f) => ReplyKeeps(c, s, f);
    case Fail(f) => DropFetch(c, s.own, s.fetches, s.nextFetch, f);
    case Sweep(r, readings, end) => SweepKeeps(c, s, r, readings, end);
    case Tick(_, _) =>
    case _ => OwnerStepKeeps(c, s, step);
  }

  ghost predicate IsTrace(c: Config, states: seq<State>, steps: seq<Step>) {
    && |states| == |steps| + 1
    && forall i :: 0 <= i < |steps| ==>
         Enabled(c, states[i], steps[i]) && states[i + 1] == Apply(c, states[i], steps[i])
  }

  lemma TraceSnoc(c: Config, states: seq<State>, steps: seq<Step>, step: Step)
      returns (states': seq<State>, steps': seq<Step>)
    requires IsTrace(c, states, steps) && Enabled(c, states[|steps|], step)
    ensures IsTrace(c, states', steps') && states'[0] == states[0] && steps' == steps + [step]
    ensures |states'| == |states| + 1 && states'[|steps'|] == Apply(c, states[|steps|], step)
    ensures states'[|steps|] == states[|steps|]
  {
    hide Enabled, Apply;
    states', steps' := states + [Apply(c, states[|steps|], step)], steps + [step];
    forall i | 0 <= i < |steps'|
      ensures Enabled(c, states'[i], steps'[i]) && states'[i + 1] == Apply(c, states'[i], steps'[i])
    {
      assert i < |steps| ==> states'[i] == states[i] && states'[i + 1] == states[i + 1] && steps'[i] == steps[i];
    }
  }

  /** A run of a whole network from its start. */
  ghost predicate IsRun(c: Config, states: seq<State>, steps: seq<Step>) {
    ValidConfig(c) && IsTrace(c, states, steps) && states[0] == Initial(c)
  }

  lemma {:induction false} TraceInv(c: Config, states: seq<State>, steps: seq<Step>, i: nat)
    requires IsTrace(c, states, steps) && Inv(c, states[0]) && i < |states|
    ensures Inv(c, states[i])
  {
    if i > 0 {
      TraceInv(c, states, steps, i - 1);
      InvKept(c, states[i - 1], steps[i - 1]);
    }
  }

  lemma RunInv(c: Config, states: seq<State>, steps: seq<Step>, i: nat)
    requires IsRun(c, states, steps) && i < |states|
    ensures Inv(c, states[i])
  {
    InitialInv(c);
    TraceInv(c, states, steps, i);
  }
}
