/** Runs in every network with two nodes of one group: a topic is found, and the protocol shows its weak sides. */
module DiscoveryRuns {
  import opened Utf8
  import opened NodeInfoCodec
  import opened NodeInfoLaws
  import opened NodeTable
  import opened Discovery
  import opened DiscoveryLaws

  function FirstBeat(c: Config, n: Id): Beat
    requires n in c
  {
    Beat(n, 0, c[n].sourceIp, c[n].port, c[n].group)
  }

  /** The table of a node that has heard heartbeats and stored no record. */
  function HeardOnly(n: Id): Table {
    Table(map[], map[], map[n := 0.0])
  }

  /** Where two steps lead: `n` has sent a heartbeat, `r` has heard it and asks for the record. */
  function Asked(c: Config, r: Id, n: Id): State
    requires n in c
  {
    var s := Initial(c);
    s.(beats := {FirstBeat(c, n)}, tables := s.tables[r := HeardOnly(n)],
       fetches := map[0 := Fetch(r, FirstBeat(c, n), Requested)], nextFetch := 1)
  }

  lemma SendAndDeliver(c: Config, r: Id, n: Id) returns (states: seq<State>, steps: seq<Step>)
    requires Mates(c, r, n)
    ensures IsTrace(c, states, steps) && states[0] == Initial(c) && states[|steps|] == Asked(c, r, n)
    ensures steps == [Send(n), Deliver(r, FirstBeat(c, n))]
  {
    var b := FirstBeat(c, n);
    var s1 := Initial(c).(beats := {b});
    assert Initial(c).beats + {b} == {b};
    assert Apply(c, Initial(c), Send(n)) == s1;
    assert Contacted(EMPTY, n, 0.0) == HeardOnly(n);
    assert Apply(c, s1, Deliver(r, b)) == Asked(c, r, n);
    states, steps := [Initial(c), s1, Asked(c, r, n)], [Send(n), Deliver(r, b)];
  }

  // ---------- a sweep that raises ----------

  lemma Silence(c: Config, r: Id, n: Id, s: State, s': State, s'': State)
    requires r in s.sweeping && r in s.tables && r in s.clock && s.clock[r] == 0.0
    requires s.tables[r] == HeardOnly(n)
    requires s' == s.(clock := s.clock[r := 4.0]) && s'' == s'.(sweeping := s'.sweeping - {r})
    ensures Enabled(c, s, Tick(r, 4.0)) && Apply(c, s, Tick(r, 4.0)) == s'
    ensures var sweep := Sweep(r, map[n := 4.0], 4.0); Enabled(c, s', sweep) && Apply(c, s', sweep) == s''
  {
    assert s'.tables[r].beat[n] == 0.0;
    assert n in Stale(s'.tables[r], map[n := 4.0]);
  }

  /** One unanswered fetch and silence are enough to end a node's sweeping. */
  lemma UnansweredFetchEndsSweeping(c: Config, r: Id, n: Id) returns (states: seq<State>, steps: seq<Step>)
    requires ValidConfig(c) && Mates(c, r, n)
    ensures IsRun(c, states, steps) && r in states[0].sweeping && r !in states[|steps|].sweeping
    ensures steps == [Send(n), Deliver(r, FirstBeat(c, n)), Fail(0), Tick(r, 4.0), Sweep(r, map[n := 4.0], 4.0)]
  {
    states, steps := SendAndDeliver(c, r, n);
    var asked := Asked(c, r, n);
    var s := asked.(fetches := asked.fetches - {0});
    var s' := s.(clock := s.clock[r := 4.0]);
    Silence(c, r, n, s, s', s'.(sweeping := s'.sweeping - {r}));
    states, steps := TraceSnoc(c, states, steps, Fail(0));
    hide Enabled, Apply;
    states, steps := TraceSnoc(c, states, steps, Tick(r, 4.0));
    states, steps := TraceSnoc(c, states, steps, Sweep(r, map[n := 4.0], 4.0));
  }

  // ---------- a reply that comes late ----------

  function RecordOf(c: Config, n: Id, o: Owner): NodeInfo
    requires n in c
  {
    NodeInfo(n, o.infoID, c[n].name, c[n].bindIp, o.topics, o.services)
  }

  lemma Reads(c: Config, s: State, step: Step, n: Id, f: nat)
    requires Serves(c, s, n, f)
    requires || (step == ReadTag(n, f) && s.fetches[f].phase.Requested?)
             || (step == ReadTopics(n, f) && s.fetches[f].phase.TagRead?)
             || (step == ReadServices(n, f) && s.fetches[f].phase.TopicsRead?)
    ensures Enabled(c, s, step)
    ensures Apply(c, s, step) == Advance(s, f, PhaseAfter(n, c[n], s.own[n], s.fetches[f].phase))
  {
    hide PhaseAfter;
  }

  lemma AdvancedTwice(s: State, f: nat, p: Phase, q: Phase)
    requires f in s.fetches
    ensures f in Advance(s, f, p).fetches && Advance(s, f, p).fetches[f] == s.fetches[f].(phase := p)
    ensures Advance(s, f, p).own == s.own && Advance(Advance(s, f, p), f, q) == Advance(s, f, q)
  {
  }

  /** With nothing in between, the three reads pack the owner's record as it is. */
  lemma ReadAll(c: Config, states: seq<State>, steps: seq<Step>, n: Id, f: nat)
      returns (states': seq<State>, steps': seq<Step>)
    requires IsTrace(c, states, steps)
    requires Serves(c, states[|steps|], n, f) && states[|steps|].fetches[f].phase.Requested?
    ensures IsTrace(c, states', steps') && states'[0] == states[0]
    ensures steps' == steps + [ReadTag(n, f), ReadTopics(n, f), ReadServices(n, f)]
    ensures states'[|steps'|] == Advance(states[|steps|], f, Replied(RecordOf(c, n, states[|steps|].own[n])))
  {
    hide Enabled, Apply, Advance;
    var s, o := states[|steps|], states[|steps|].own[n];
    var p, q := TagRead(o.infoID), TopicsRead(o.infoID, o.topics);
    Reads(c, s, ReadTag(n, f), n, f);
    states', steps' := TraceSnoc(c, states, steps, ReadTag(n, f));
    AdvancedTwice(s, f, p, q);
    Reads(c, Advance(s, f, p), ReadTopics(n, f), n, f);
    states', steps' := TraceSnoc(c, states', steps', ReadTopics(n, f));
    AdvancedTwice(s, f, q, Replied(RecordOf(c, n, o)));
    Reads(c, Advance(s, f, q), ReadServices(n, f), n, f);
    states', steps' := TraceSnoc(c, states', steps', ReadServices(n, f));
  }

  /** The registration of one topic, both writes of it. */
  function OneTopic(c: Config, n: Id, name: Text, port: int): Owner
    requires n in c
  {
    Owner([SocketInfo(name, c[n].bindIp, port)], [], 1, 0)
  }

  lemma Registers(c: Config, s: State, n: Id, name: Text, port: int, s': State, s'': State)
    requires n in c && n in s.own && s.own[n] == Owner([], [], 0, 0)
    requires s' == s.(own := s.own[n := Owner([SocketInfo(name, c[n].bindIp, port)], [], 0, 1)])
    requires s'' == s.(own := s.own[n := OneTopic(c, n, name, port)])
    ensures Enabled(c, s, AppendTopic(n, name, port)) && Apply(c, s, AppendTopic(n, name, port)) == s'
    ensures Enabled(c, s', Bump(n)) && Apply(c, s', Bump(n)) == s''
  {
    assert [] + [SocketInfo(name, c[n].bindIp, port)] == [SocketInfo(name, c[n].bindIp, port)];
    assert s'.own[n := OneTopic(c, n, name, port)] == s''.own;
  }

  /** The fetch is answered before the registration, and the reply does not land yet. */
  function AnsweredEarly(c: Config, r: Id, n: Id, name: Text, port: int): State
    requires n in c
  {
    var s := Asked(c, r, n);
    s.(own := s.own[n := OneTopic(c, n, name, port)],
       fetches := map[0 := Fetch(r, FirstBeat(c, n), Replied(RecordOf(c, n, Owner([], [], 0, 0))))])
  }

  lemma ReplyThenRegistration(c: Config, r: Id, n: Id, name: Text, port: int)
      returns (states: seq<State>, steps: seq<Step>)
    requires ValidConfig(c) && Mates(c, r, n)
    ensures IsRun(c, states, steps) && states[|steps|] == AnsweredEarly(c, r, n, name, port)
  {
    states, steps := SendAndDeliver(c, r, n);
    var asked := Asked(c, r, n);
    hide Apply, Enabled;
    states, steps := ReadAll(c, states, steps, n, 0);
    var s := asked.(fetches := map[0 := Fetch(r, FirstBeat(c, n), Replied(RecordOf(c, n, Owner([], [], 0, 0))))]);
    assert states[|steps|] == s;
    var s' := s.(own := s.own[n := Owner([SocketInfo(name, c[n].bindIp, port)], [], 0, 1)]);
    Registers(c, s, n, name, port, s', s.(own := s.own[n := OneTopic(c, n, name, port)]));
    states, steps := TraceSnoc(c, states, steps, AppendTopic(n, name, port));
    states, steps := TraceSnoc(c, states, steps, Bump(n));
  }

  /** The heartbeat comes a second time and starts a second fetch. */
  lemma BeatComesAgain(c: Config, r: Id, n: Id, s: State, s': State)
    requires Mates(c, r, n) && r in s.tables && r in s.clock && s.tables[r] == HeardOnly(n) && s.clock[r] == 0.0
    requires FirstBeat(c, n) in s.beats && s.nextFetch == 1
    requires s' == s.(fetches := s.fetches[1 := Fetch(r, FirstBeat(c, n), Requested)], nextFetch := 2)
    ensures Enabled(c, s, Deliver(r, FirstBeat(c, n))) && Apply(c, s, Deliver(r, FirstBeat(c, n))) == s'
  {
    assert Contacted(HeardOnly(n), n, 0.0) == HeardOnly(n);
    assert s.tables[r := HeardOnly(n)] == s.tables;
  }

  /** Both replies are on their way to `r`: an outdated one and a current one. */
  predicate BothOnTheWay(s: State, r: Id, n: Id) {
    && r in s.tables && r in s.clock && n in s.own && 0 in s.fetches && 1 in s.fetches
    && s.fetches[0].phase.Replied? && s.fetches[0].phase.info.infoID < s.own[n].infoID
    && s.fetches[0].receiver == s.fetches[1].receiver == r && s.fetches[0].beat.id == s.fetches[1].beat.id == n
    && s.fetches[1].phase.Replied? && s.fetches[1].phase.info.infoID == s.own[n].infoID
  }

  /** Where the second fetch's reply is on its way as well. */
  lemma SecondFetch(c: Config, r: Id, n: Id, name: Text, port: int) returns (states: seq<State>, steps: seq<Step>)
    requires Mates(c, r, n)
    ensures IsTrace(c, states, steps) && states[0] == AnsweredEarly(c, r, n, name, port) && AllQuiet(steps, n)
    ensures BothOnTheWay(states[|steps|], r, n)
  {
    var s := AnsweredEarly(c, r, n, name, port);
    states, steps := [s], [];
    var s' := s.(fetches := s.fetches[1 := Fetch(r, FirstBeat(c, n), Requested)], nextFetch := 2);
    BeatComesAgain(c, r, n, s, s');
    states, steps := TraceSnoc(c, states, steps, Deliver(r, FirstBeat(c, n)));
    hide Apply, Enabled;
    states, steps := ReadAll(c, states, steps, n, 1);
  }

  lemma BothLand(c: Config, states: seq<State>, steps: seq<Step>, r: Id, n: Id)
      returns (states': seq<State>, steps': seq<Step>)
    requires IsTrace(c, states, steps) && Inv(c, states[0]) && BothOnTheWay(states[|steps|], r, n) && AllQuiet(steps, n)
    ensures IsTrace(c, states', steps') && states'[0] == states[0] && AllQuiet(steps', n) && |steps'| >= 2
    ensures var k := |steps'| - 1;
      && Exact(states'[k], r, n) && TagFalls(states'[k], states'[k + 1], r, n) && SetsBack(c, states'[k], steps'[k], n)
  {
    hide Inv, Apply, Enabled, Exact, TagFalls, SetsBack;
    TraceInv(c, states, steps, |steps|);
    ReplyMakesExact(c, states[|steps|], r, n);
    states', steps' := TraceSnoc(c, states, steps, Reply(1));
    TraceInv(c, states', steps', |steps'|);
    LandsAndSetsBack(c, states'[|steps'|], r, n);
    states', steps' := TraceSnoc(c, states', steps', Reply(0));
  }

  lemma OneOutdated(c: Config, r: Id, n: Id, name: Text, port: int)
    requires Mates(c, r, n)
    ensures var s := AnsweredEarly(c, r, n, name, port);
      && n in s.own && s.own[n] == OneTopic(c, n, name, port) && Outdated(s, n) == {0}
      && 0 in s.fetches && s.fetches[0].receiver == r && s.fetches[0].beat.id == n
      && s.fetches[0].phase == Replied(RecordOf(c, n, Owner([], [], 0, 0)))
  {
  }

  /** The second reply lands and the first is still to come. */
  lemma ReplyMakesExact(c: Config, s: State, r: Id, n: Id)
    requires Inv(c, s) && BothOnTheWay(s, r, n)
    ensures Enabled(c, s, Reply(1))
    ensures var s' := Apply(c, s, Reply(1));
      && Exact(s', r, n) && s'.own == s.own && r in s'.tables && r in s'.clock
      && 0 in s'.fetches && s'.fetches[0] == s.fetches[0]
  {
    assert 1 !in OutdatedAt(s, r, n);
    FreshReplyMakesExact(c, s, 1, n);
    hide Inv, Updated;
  }

  /** An outdated reply that lands at an exact view. */
  predicate LandsLate(s: State, r: Id, n: Id) {
    && Exact(s, r, n) && r in s.clock && 0 in s.fetches && s.fetches[0].phase.Replied?
    && s.fetches[0].receiver == r && s.fetches[0].beat.id == n && s.fetches[0].phase.info.infoID < s.own[n].infoID
  }

  lemma LandsAndFalls(c: Config, s: State, r: Id, n: Id)
    requires Inv(c, s) && LandsLate(s, r, n) && Enabled(c, s, Reply(0))
    ensures TagFalls(s, Apply(c, s, Reply(0)), r, n)
  {
    hide Inv, Apply, TagFalls, Enabled;
    TagFallsExactly(c, s, Reply(0), r, n);
    assert LandsWith(s, Reply(0), r, n, s.fetches[0].phase.info.infoID);
  }

  lemma LandsAndSetsBack(c: Config, s: State, r: Id, n: Id)
    requires Inv(c, s) && LandsLate(s, r, n)
    ensures Enabled(c, s, Reply(0))
    ensures TagFalls(s, Apply(c, s, Reply(0)), r, n) && SetsBack(c, s, Reply(0), n)
  {
    hide Inv, Apply, TagFalls;
    LandsAndFalls(c, s, r, n);
    assert GoesBack(c, s, Reply(0), r, n);
  }

  /** One outdated fetch at the start, a set-back at the end: there is exactly one. */
  lemma CountsOne(c: Config, later: seq<State>, moves: seq<Step>, n: Id)
    requires IsTrace(c, later, moves) && Inv(c, later[0]) && n in later[0].own && AllQuiet(moves, n)
    requires |Outdated(later[0], n)| == 1 && moves != [] && SetsBack(c, later[|moves| - 1], moves[|moves| - 1], n)
    ensures SetBacks(c, later, moves, n) == 1
  {
    hide Inv, Enabled, Apply, SetsBack, Outdated;
    SetBacksBounded(c, later, moves, n);
    assert IsTrace(c, later[..|moves|], moves[..|moves| - 1]);
  }

  /**
   A stored tag falls. In every network with two nodes of one group, after a run in which `n` has
   registered a topic and no registration is under way, a trace without registrations makes the view
   of `n` at `r` exact and then sets it back, by a reply packed before the registration. The bound on
   set-backs is met: one outdated fetch, one set-back.
   */
  lemma LateReplySetsBack(c: Config, r: Id, n: Id, name: Text, port: int)
      returns (states: seq<State>, steps: seq<Step>, later: seq<State>, moves: seq<Step>)
    requires ValidConfig(c) && Mates(c, r, n)
    ensures IsRun(c, states, steps) && IsTrace(c, later, moves) && later[0] == states[|steps|] && AllQuiet(moves, n)
    ensures n in later[0].own && later[0].own[n] == OneTopic(c, n, name, port)
    ensures |moves| >= 2
    ensures var k := |moves| - 1;
      && Exact(later[k], r, n) && TagFalls(later[k], later[k + 1], r, n) && SetsBack(c, later[k], moves[k], n)
    ensures SetBacks(c, later, moves, n) == |Outdated(later[0], n)| == 1
  {
    hide Inv, Enabled, Apply, Exact, SetsBack, TagFalls, Outdated, Asked, AnsweredEarly, SetBacks, Mates;
    states, steps := ReplyThenRegistration(c, r, n, name, port);
    later, moves := SecondFetch(c, r, n, name, port);
    RunInv(c, states, steps, |steps|);
    OneOutdated(c, r, n, name, port);
    later, moves := BothLand(c, later, moves, r, n);
    CountsOne(c, later, moves, n);
  }

  // ---------- all goes well ----------

  lemma FirstHeard(c: Config, r: Id, n: Id, s: State, b: Beat, s': State)
    requires Mates(c, r, n) && r in s.tables && r in s.clock && s.tables[r] == EMPTY && s.clock[r] == 0.0
    requires b in s.beats && b.id == n && b.tag == 1 && b.group == c[n].group && s.fetches == map[] && s.nextFetch == 0
    requires s' == s.(
      tables := s.tables[r := HeardOnly(n)], fetches := map[0 := Fetch(r, b, Requested)], nextFetch := 1)
    ensures Enabled(c, s, Deliver(r, b)) && Apply(c, s, Deliver(r, b)) == s'
  {
    assert Contacted(EMPTY, n, 0.0) == HeardOnly(n);
  }

  lemma ReplyLands(c: Config, s: State, f: nat)
    requires Enabled(c, s, Reply(f))
    ensures Apply(c, s, Reply(f)).own == s.own
  {
    hide Updated;
  }

  /** A reply that is current and about to land. */
  predicate LandsCurrent(s: State, r: Id, n: Id, f: nat) {
    && r in s.tables && r in s.clock && n in s.own && s.own[n].pending == 0
    && f in s.fetches && s.fetches[f].receiver == r && s.fetches[f].beat.id == n
    && s.fetches[f].phase.Replied? && s.fetches[f].phase.info.infoID == s.own[n].infoID
  }

  lemma LandsExact(c: Config, s: State, r: Id, n: Id, f: nat)
    requires Inv(c, s) && LandsCurrent(s, r, n, f)
    ensures Enabled(c, s, Reply(f)) && Exact(Apply(c, s, Reply(f)), r, n)
  {
    assert f !in OutdatedAt(s, r, n);
    hide Inv, Apply, Exact;
    FreshReplyMakesExact(c, s, f, n);
  }

  lemma LandsSettled(c: Config, s: State, r: Id, n: Id, f: nat)
    requires Inv(c, s) && LandsCurrent(s, r, n, f)
    ensures Enabled(c, s, Reply(f))
    ensures var s' := Apply(c, s, Reply(f)); Inv(c, s') && s'.own == s.own && Settled(s', r, n)
  {
    LandsExact(c, s, r, n, f);
    hide Inv, Apply, Enabled, Exact;
    InvKept(c, s, Reply(f));
    ReplyLands(c, s, f);
    TagSoundness(c, Apply(c, s, Reply(f)), r, n);
  }

  lemma TopicInView(c: Config, s: State, r: Id, n: Id, name: Text, port: int)
    requires Inv(c, s) && Settled(s, r, n) && n in c && s.own[n] == OneTopic(c, n, name, port)
    ensures s.tables[r].info[n].topics == [SocketInfo(name, c[n].sourceIp, port)]
  {
    SettledExactly(c, s, r, n);
    hide Inv, Settled;
    var x := [SocketInfo(name, c[n].bindIp, port)];
    assert Rehomed(x, c[n].sourceIp) == [SocketInfo(name, c[n].sourceIp, port)];
  }

  /** Where four steps lead: `n` has registered a topic and sent its heartbeat, `r` asks for the record. */
  function AskedForTopic(c: Config, r: Id, n: Id, name: Text, port: int): State
    requires n in c
  {
    var s, b := Initial(c), Beat(n, 1, c[n].sourceIp, c[n].port, c[n].group);
    s.(own := s.own[n := OneTopic(c, n, name, port)], beats := {b}, tables := s.tables[r := HeardOnly(n)],
       fetches := map[0 := Fetch(r, b, Requested)], nextFetch := 1)
  }

  lemma RegistersAndAsks(c: Config, r: Id, n: Id, name: Text, port: int)
      returns (states: seq<State>, steps: seq<Step>)
    requires ValidConfig(c) && Mates(c, r, n)
    ensures IsRun(c, states, steps) && states[|steps|] == AskedForTopic(c, r, n, name, port)
  {
    var s := Initial(c);
    var b := Beat(n, 1, c[n].sourceIp, c[n].port, c[n].group);
    var s2 := s.(own := s.own[n := OneTopic(c, n, name, port)]);
    Registers(c, s, n, name, port, s.(own := s.own[n := Owner([SocketInfo(name, c[n].bindIp, port)], [], 0, 1)]), s2);
    SendSends(c, s2, n, b);
    assert s2.beats + {b} == {b};
    assert Enabled(c, s2, Send(n)) && Apply(c, s2, Send(n)) == s2.(beats := {b});
    FirstHeard(c, r, n, s2.(beats := {b}), b, AskedForTopic(c, r, n, name, port));
    states, steps := [s], [];
    hide Apply, Enabled;
    states, steps := TraceSnoc(c, states, steps, AppendTopic(n, name, port));
    states, steps := TraceSnoc(c, states, steps, Bump(n));
    states, steps := TraceSnoc(c, states, steps, Send(n));
    states, steps := TraceSnoc(c, states, steps, Deliver(r, b));
  }

  /** In every network with two nodes of one group a topic registered at one becomes known at the other. */
  lemma TopicIsFound(c: Config, r: Id, n: Id, name: Text, port: int) returns (states: seq<State>, steps: seq<Step>)
    requires ValidConfig(c) && Mates(c, r, n)
    ensures IsRun(c, states, steps) && Settled(states[|steps|], r, n)
    ensures states[|steps|].tables[r].info[n].topics == [SocketInfo(name, c[n].sourceIp, port)]
  {
    hide Apply, Enabled, Inv, Settled;
    states, steps := RegistersAndAsks(c, r, n, name, port);
    states, steps := ReadAll(c, states, steps, n, 0);
    RunInv(c, states, steps, |steps|);
    LandsSettled(c, states[|steps|], r, n, 0);
    states, steps := TraceSnoc(c, states, steps, Reply(0));
    RunInv(c, states, steps, |steps|);
    TopicInView(c, states[|steps|], r, n, name, port);
  }
}
