/** What the discovery protocol guarantees over whole runs: safety of views, and how they become exact. */
module DiscoveryLaws {
  import opened Sequences
  import opened Utf8
  import opened NodeInfoCodec
  import opened NodeInfoLaws
  import opened NodeTable
  import opened Discovery

  // ---------- safety ----------

  /**
   In every reachable state a stored record belongs to another node of the same group, carries the
   address that node is reached at, shows a front of the lists its owner has registered by now, at
   least as many entries as its tag says, and no tag its owner has not reached.
   */
  lemma ViewSafety(c: Config, states: seq<State>, steps: seq<Step>, i: nat, r: Id, n: Id)
    requires IsRun(c, states, steps) && i < |states| && r in states[i].tables && n in states[i].tables[r].info
    ensures var s, t := states[i], states[i].tables[r]; var info := t.info[n];
      && n != r && n in s.own && r in c && n in c && c[n].group == c[r].group
      && info.nodeID == n && info.name == c[n].name && n in t.tag && t.tag[n] == info.infoID && n in t.beat
      && Homed(info) && info.ip == c[n].sourceIp
      && Front(info.topics, s.own[n].topics) && Front(info.services, s.own[n].services)
      && info.infoID <= s.own[n].infoID && info.infoID <= |info.topics| + |info.services|
  {
    RunInv(c, states, steps, i);
    TableAt(c, states[i].own, states[i].tables, r);
    assert RecordOk(c, states[i].own, r, n, states[i].tables[r].info[n]);
  }

  /** The same names and ports in the same order. */
  predicate SamePorts(a: seq<SocketInfo>, b: seq<SocketInfo>) {
    Front(a, b) && |a| == |b|
  }

  /** The view of `n` at `r` is under the tag `n` has now. */
  predicate Exact(s: State, r: Id, n: Id) {
    && r in s.tables && n in s.own && n in s.tables[r].info
    && n in s.tables[r].tag && s.tables[r].tag[n] == s.own[n].infoID
  }

  /** While no registration is half done, the right tag means the right lists. */
  lemma TagSoundness(c: Config, s: State, r: Id, n: Id)
    requires Inv(c, s) && Exact(s, r, n) && s.own[n].pending == 0
    ensures SamePorts(s.tables[r].info[n].topics, s.own[n].topics)
    ensures SamePorts(s.tables[r].info[n].services, s.own[n].services)
  {
    TableAt(c, s.own, s.tables, r);
    assert RecordOk(c, s.own, r, n, s.tables[r].info[n]) && OwnerOk(s.own[n]);
  }

  /** How many entries of a name the listed nodes have really registered. */
  function Registered(own: map<Id, Owner>, ids: seq<Id>, kind: Kind, name: Text): nat
    requires forall id :: id in ids ==> id in own
  {
    if ids == [] then 0
    else
      var n := |ids| - 1;
      Registered(own, ids[..n], kind, name) + |Named(OwnEntries(own[ids[n]], kind), name)|
  }

  function OwnEntries(o: Owner, kind: Kind): seq<SocketInfo> {
    if kind.Topic? then o.topics else o.services
  }

  lemma {:induction false} FrontNamesFewer(a: seq<SocketInfo>, b: seq<SocketInfo>, name: Text)
    requires Front(a, b)
    ensures |Named(a, name)| <= |Named(b, name)|
    decreases |b|
  {
    if b != [] {
      var n := |b| - 1;
      if |a| == |b| {
        FrontNamesFewer(a[..n], b[..n], name);
      } else {
        FrontNamesFewer(a, b[..n], name);
      }
    } else {
      assert a == [];
    }
  }

  lemma {:induction false} RemoteCounted(
      c: Config, own: map<Id, Owner>, r: Id, t: Table, order: seq<Id>, kind: Kind, name: Text)
    requires TableOk(c, own, r, t) && forall id :: id in order ==> id in t.info
    ensures forall id :: id in order ==> id in own && id != r
    ensures |Remote(t.info, order, kind, name)| <= Registered(own, order, kind, name)
  {
    if order != [] {
      var n := |order| - 1;
      RemoteCounted(c, own, r, t, order[..n], kind, name);
      var id := order[n];
      assert RecordOk(c, own, r, id, t.info[id]);
      FrontNamesFewer(Entries(t.info[id], kind), OwnEntries(own[id], kind), name);
      assert order == order[..n] + [order[n]];
    }
  }

  /**
   A lookup at `r` never counts a registration twice, its own included: the nodes it draws from are all
   different, `r` comes in once, and of each it shows no more entries of the name than were registered.
   */
  lemma LookupCountsOnce(
      c: Config, states: seq<State>, steps: seq<Step>, i: nat,
      r: Id, order: seq<Id>, local: NodeInfo, kind: Kind, name: Text)
    requires IsRun(c, states, steps) && i < |states| && r in states[i].tables && r in states[i].own
    requires Enumerates(order, states[i].tables[r].info)
    requires local.topics == states[i].own[r].topics && local.services == states[i].own[r].services
    ensures NoRepeats(order + [r])
    ensures forall id :: id in order + [r] ==> id in states[i].own
    ensures |Lookup(states[i].tables[r], order, local, kind, name)|
         <= Registered(states[i].own, order + [r], kind, name)
  {
    RunInv(c, states, steps, i);
    var s := states[i];
    TableAt(c, s.own, s.tables, r);
    hide *;
    CountedWith(c, s.own, r, s.tables[r], order, local, kind, name);
  }

  lemma CountedWith(
      c: Config, own: map<Id, Owner>, r: Id, t: Table, order: seq<Id>, local: NodeInfo, kind: Kind, name: Text)
    requires TableOk(c, own, r, t) && r in own && Enumerates(order, t.info)
    requires local.topics == own[r].topics && local.services == own[r].services
    ensures NoRepeats(order + [r]) && forall id :: id in order + [r] ==> id in own
    ensures |Lookup(t, order, local, kind, name)| <= Registered(own, order + [r], kind, name)
  {
    hide TableOk, Named, Remote, NoRepeats;
    RemoteCounted(c, own, r, t, order, kind, name);
    assert (order + [r])[..|order|] == order;
    OneMoreDistinct(order, r);
  }

  lemma OneMoreDistinct(order: seq<Id>, r: Id)
    requires NoRepeats(order) && r !in order
    ensures NoRepeats(order + [r])
  {
    assert forall k :: 0 <= k < |order| ==> order[k] in order;
  }

  // ---------- convergence ----------

  /** The step is no part of a registration of `n`. */
  predicate Quiet(step: Step, n: Id) {
    IsOwnerStep(step) ==> step.n != n
  }

  predicate AllQuiet(steps: seq<Step>, n: Id) {
    forall i :: 0 <= i < |steps| ==> Quiet(steps[i], n)
  }

  /** From state `a` on. */
  predicate QuietFrom(steps: seq<Step>, a: nat, n: Id) {
    forall i :: a <= i < |steps| ==> Quiet(steps[i], n)
  }

  /** A fetch of `n` that has read a tag other than this one. */
  predicate ReadOther(f: Fetch, n: Id, tag: int) {
    f.beat.id == n &&
    match f.phase
    case Requested => false
    case TagRead(k) => k != tag
    case TopicsRead(k, _) => k != tag
    case Replied(info) => info.infoID != tag
  }

  /** The fetches under way that will deliver an outdated record of `n`. */
  function Outdated(s: State, n: Id): set<nat>
    requires n in s.own
  {
    set f | f in s.fetches && ReadOther(s.fetches[f], n, s.own[n].infoID)
  }

  /** Those of them whose reply will land at `r`. */
  function OutdatedAt(s: State, r: Id, n: Id): set<nat>
    requires n in s.own
  {
    set f | f in Outdated(s, n) && s.fetches[f].receiver == r
  }

  lemma OwnerUnmoved(c: Config, s: State, step: Step, n: Id)
    requires Enabled(c, s, step) && Quiet(step, n) && n in s.own
    ensures n in Apply(c, s, step).own && Apply(c, s, step).own[n] == s.own[n]
  {
    hide CheckInfo, Contacted, Updated, Without, Stale, SweepRaises, PhaseAfter, OwnerAfter;
  }

  /** What the packer of `n` reads now is current. */
  lemma ReadingStaysCurrent(n: Id, p: Peer, o: Owner, f: Fetch)
    ensures ReadOther(f.(phase := PhaseAfter(n, p, o, f.phase)), n, o.infoID) ==> ReadOther(f, n, o.infoID)
  {
  }

  lemma NoneOutdatedByReading(c: Config, s: State, step: Step, n: Id)
    requires Inv(c, s) && Enabled(c, s, step) && IsReading(step) && n in s.own
    ensures Apply(c, s, step).own == s.own && Outdated(Apply(c, s, step), n) <= Outdated(s, n)
  {
    hide Inv, PhaseAfter, ReadOther, Enabled, Apply;
    ReadingAdvances(c, s, step);
    ServerIsSender(c, s, step.n, step.f);
    if step.n == n {
      ReadingStaysCurrent(n, c[n], s.own[n], s.fetches[step.f]);
    } else {
      OthersAreNotOurs(s.fetches[step.f], n, s.own[n].infoID);
      var phase := PhaseAfter(step.n, c[step.n], s.own[step.n], s.fetches[step.f].phase);
      OthersAreNotOurs(s.fetches[step.f].(phase := phase), n, s.own[n].infoID);
    }
  }

  lemma OthersAreNotOurs(f: Fetch, n: Id, tag: int)
    requires f.beat.id != n
    ensures !ReadOther(f, n, tag)
  {
  }

  /** A new fetch has read nothing yet, and no other step touches one. */
  lemma NoneOutdatedByOthers(c: Config, s: State, step: Step, n: Id)
    requires Enabled(c, s, step) && !IsReading(step)
    ensures forall f :: f in Apply(c, s, step).fetches && !Apply(c, s, step).fetches[f].phase.Requested? ==>
      f in s.fetches && s.fetches[f] == Apply(c, s, step).fetches[f]
  {
    hide CheckInfo, Contacted, Updated, Without, Stale, SweepRaises, OwnerAfter;
  }

  /** While `n` registers nothing, no fetch becomes outdated. */
  lemma OutdatedNeverGrows(c: Config, s: State, step: Step, n: Id)
    requires Inv(c, s) && Enabled(c, s, step) && Quiet(step, n) && n in s.own
    ensures n in Apply(c, s, step).own && Apply(c, s, step).own[n] == s.own[n]
    ensures Outdated(Apply(c, s, step), n) <= Outdated(s, n)
  {
    hide Inv, Enabled, Apply;
    OwnerUnmoved(c, s, step, n);
    if IsReading(step) {
      NoneOutdatedByReading(c, s, step, n);
    } else {
      NoneOutdatedByOthers(c, s, step, n);
    }
  }

  /** The sweep of `r` forgets `n`. */
  predicate Forgets(c: Config, s: State, step: Step, r: Id, n: Id)
    requires Enabled(c, s, step)
  {
    step.Sweep? && step.r == r && n in s.tables[r].info && !SweepRaises(s.tables[r], step.readings)
      && n in Stale(s.tables[r], step.readings)
  }

  // ---------- how a view changes, exactly ----------

  /** In this step the tag stored for `n` at `r` falls. */
  predicate TagFalls(s: State, s': State, r: Id, n: Id) {
    && r in s.tables && r in s'.tables && n in s.tables[r].tag && n in s'.tables[r].tag
    && s'.tables[r].tag[n] < s.tables[r].tag[n]
  }

  /** The reply to a fetch of `n` lands at `r` with this tag. */
  predicate LandsWith(s: State, step: Step, r: Id, n: Id, tag: int) {
    && step.Reply? && step.f in s.fetches && s.fetches[step.f].receiver == r && s.fetches[step.f].beat.id == n
    && s.fetches[step.f].phase.Replied? && s.fetches[step.f].phase.info.infoID == tag
  }

  /** What an update leaves stored under a node the table knows: the record's own tag, whether it is new or not. */
  lemma UpdatedTag(t: Table, info: NodeInfo, now: real, n: Id)
    requires n in t.tag && n in t.info
    ensures var u := Updated(t, info, now);
      n in u.info && n in u.tag && u.tag[n] == if info.nodeID == n then info.infoID else t.tag[n]
  {
    hide AtHome;
  }

  /** The table of `r` after a reply: updated when the reply lands there, and unchanged otherwise. */
  lemma TableUnderReply(c: Config, s: State, f: nat, r: Id)
    requires Inv(c, s) && Enabled(c, s, Reply(f)) && r in s.tables
    ensures s.fetches[f].phase.info.nodeID == s.fetches[f].beat.id
    ensures Apply(c, s, Reply(f)).own == s.own && r in Apply(c, s, Reply(f)).tables
    ensures Apply(c, s, Reply(f)).tables[r] ==
      if s.fetches[f].receiver == r
      then Updated(s.tables[r], s.fetches[f].phase.info.(ip := s.fetches[f].beat.sourceIp), s.clock[r])
      else s.tables[r]
  {
    hide Updated, BeatsOk, TablesOk, OwnersOk, BeatOk, Mates, FetchesOk, Snapshot;
    FetchAt(c, s.own, s.fetches, s.nextFetch, f);
  }

  lemma TagUnderReply(c: Config, s: State, f: nat, r: Id, n: Id)
    requires Inv(c, s) && Enabled(c, s, Reply(f)) && r in s.tables && n in s.tables[r].tag && n in s.tables[r].info
    ensures var s' := Apply(c, s, Reply(f));
      && s'.own == s.own && r in s'.tables && n in s'.tables[r].tag && n in s'.tables[r].info
      && s'.tables[r].tag[n] ==
           if s.fetches[f].receiver == r && s.fetches[f].beat.id == n then s.fetches[f].phase.info.infoID
           else s.tables[r].tag[n]
  {
    hide Inv, Apply, Updated;
    TableUnderReply(c, s, f, r);
    if s.fetches[f].receiver == r {
      UpdatedTag(s.tables[r], s.fetches[f].phase.info.(ip := s.fetches[f].beat.sourceIp), s.clock[r], n);
    }
  }

  lemma TagUnderOthers(c: Config, s: State, step: Step, r: Id, n: Id)
    requires Enabled(c, s, step) && r in s.tables && n in s.tables[r].tag && !step.Reply?
    ensures r in Apply(c, s, step).tables
    ensures var after := Apply(c, s, step).tables[r].tag; n in after ==> after[n] == s.tables[r].tag[n]
  {
    hide CheckInfo, PhaseAfter, OwnerAfter, Stale, SweepRaises;
  }

  lemma TagsAreOfRecords(c: Config, s: State, r: Id)
    requires Inv(c, s) && r in s.tables
    ensures s.tables[r].tag.Keys == s.tables[r].info.Keys
  {
    hide RecordOk;
    TableAt(c, s.own, s.tables, r);
  }

  /** A stored tag falls exactly when a reply that was packed under a lower tag lands. */
  lemma TagFallsExactly(c: Config, s: State, step: Step, r: Id, n: Id)
    requires Inv(c, s) && Enabled(c, s, step)
    ensures TagFalls(s, Apply(c, s, step), r, n) <==>
      && r in s.tables && n in s.tables[r].tag
      && exists tag: int :: tag < s.tables[r].tag[n] && LandsWith(s, step, r, n, tag)
  {
    hide Inv, Apply;
    if r in s.tables && n in s.tables[r].tag {
      if step.Reply? {
        TagsAreOfRecords(c, s, r);
        TagUnderReply(c, s, step.f, r, n);
        assert LandsWith(s, step, r, n, s.fetches[step.f].phase.info.infoID) <==>
          s.fetches[step.f].receiver == r && s.fetches[step.f].beat.id == n;
      } else {
        TagUnderOthers(c, s, step, r, n);
      }
    }
  }

  lemma ExactUnderReply(c: Config, s: State, f: nat, r: Id, n: Id)
    requires Inv(c, s) && Enabled(c, s, Reply(f)) && Exact(s, r, n)
    ensures Exact(Apply(c, s, Reply(f)), r, n) <==> f !in OutdatedAt(s, r, n)
  {
    hide Inv, Apply;
    TagUnderReply(c, s, f, r, n);
  }

  lemma ExactUnderSweep(c: Config, s: State, step: Step, r: Id, n: Id)
    requires Enabled(c, s, step) && step.Sweep? && Exact(s, r, n)
    ensures Exact(Apply(c, s, step), r, n) <==> !Forgets(c, s, step, r, n)
  {
    hide SweepRaises, Stale;
  }

  lemma ExactUnderOthers(c: Config, s: State, step: Step, r: Id, n: Id)
    requires Enabled(c, s, step) && Exact(s, r, n) && !step.Reply? && !step.Sweep?
    ensures Exact(Apply(c, s, step), r, n) <==> step != Bump(n)
  {
    hide CheckInfo, PhaseAfter;
  }

  /**
   An exact view stops being exact in exactly three ways: its owner finishes another registration, its
   node is forgotten, or an outdated reply lands.
   */
  lemma ExactLostExactly(c: Config, s: State, step: Step, r: Id, n: Id)
    requires Inv(c, s) && Enabled(c, s, step) && Exact(s, r, n)
    ensures !Exact(Apply(c, s, step), r, n) <==>
      || step == Bump(n) || Forgets(c, s, step, r, n)
      || (step.Reply? && step.f in OutdatedAt(s, r, n))
  {
    match step
    case Reply(f) =>
      hide Exact, Inv, Apply, OutdatedAt;
      ExactUnderReply(c, s, f, r, n);
    case Sweep(_, _, _) =>
      hide Exact, Inv, Apply, Forgets;
      ExactUnderSweep(c, s, step, r, n);
    case _ =>
      hide Exact, Inv, Apply;
      ExactUnderOthers(c, s, step, r, n);
  }

  /** A fetch that is not outdated makes the view exact when its reply lands. */
  lemma FreshReplyMakesExact(c: Config, s: State, f: nat, n: Id)
    requires Inv(c, s) && Enabled(c, s, Reply(f)) && s.fetches[f].beat.id == n
    requires n in s.own && f !in OutdatedAt(s, s.fetches[f].receiver, n)
    ensures Exact(Apply(c, s, Reply(f)), s.fetches[f].receiver, n)
  {
    hide Inv, Apply, Updated, CheckInfo;
    var r, info := s.fetches[f].receiver, s.fetches[f].phase.info;
    TableUnderReply(c, s, f, r);
    ReplyHasTag(c, s, f);
    TagsAreOfRecords(c, s, r);
    UpdatedHolds(s.tables[r], info.(ip := s.fetches[f].beat.sourceIp), s.clock[r]);
  }

  lemma UpdatedHolds(t: Table, info: NodeInfo, now: real)
    requires t.tag.Keys == t.info.Keys && info.infoID != -1
    ensures var u := Updated(t, info, now);
      info.nodeID in u.info && info.nodeID in u.tag && u.tag[info.nodeID] == info.infoID
  {
    hide AtHome;
  }

  lemma ReplyHasTag(c: Config, s: State, f: nat)
    requires Inv(c, s) && f in s.fetches && s.fetches[f].phase.Replied?
    ensures s.fetches[f].phase.info.infoID >= 0
  {
    hide BeatsOk, TablesOk, OwnersOk, BeatOk, Mates, FetchesOk;
    FetchAt(c, s.own, s.fetches, s.nextFetch, f);
  }

  /** An older view of `n` takes the place of that at `r`: an exact one is lost to a reply, or the tag falls. */
  predicate GoesBack(c: Config, s: State, step: Step, r: Id, n: Id)
    requires Enabled(c, s, step)
  {
    || (Exact(s, r, n) && !Exact(Apply(c, s, step), r, n) && !Forgets(c, s, step, r, n))
    || TagFalls(s, Apply(c, s, step), r, n)
  }

  ghost predicate SetsBack(c: Config, s: State, step: Step, n: Id)
    requires Enabled(c, s, step)
  {
    exists r :: GoesBack(c, s, step, r, n)
  }

  ghost function SetBacks(c: Config, states: seq<State>, steps: seq<Step>, n: Id): nat
    requires IsTrace(c, states, steps)
  {
    if steps == [] then 0
    else
      var k := |steps| - 1;
      assert IsTrace(c, states[..k + 1], steps[..k]);
      SetBacks(c, states[..k + 1], steps[..k], n) + if SetsBack(c, states[k], steps[k], n) then 1 else 0
  }

  /** Each outdated fetch sets views back at most once, and no new ones arise. */
  lemma {:induction false} SetBacksBounded(c: Config, states: seq<State>, steps: seq<Step>, n: Id)
    requires IsTrace(c, states, steps) && Inv(c, states[0]) && n in states[0].own && AllQuiet(steps, n)
    ensures n in states[|steps|].own && states[|steps|].own[n] == states[0].own[n]
    ensures SetBacks(c, states, steps, n) + |Outdated(states[|steps|], n)| <= |Outdated(states[0], n)|
    decreases |steps|
  {
    if steps != [] {
      var k := |steps| - 1;
      assert IsTrace(c, states[..k + 1], steps[..k]);
      SetBacksBounded(c, states[..k + 1], steps[..k], n);
      TraceInv(c, states, steps, k);
      var s, s' := states[k], states[k + 1];
      OutdatedNeverGrows(c, s, steps[k], n);
      SubsetSize(Outdated(s', n), Outdated(s, n));
      if SetsBack(c, s, steps[k], n) {
        SetBackConsumes(c, s, steps[k], n);
      }
    }
  }

  lemma SetBackConsumes(c: Config, s: State, step: Step, n: Id)
    requires Inv(c, s) && Enabled(c, s, step) && Quiet(step, n) && n in s.own && SetsBack(c, s, step, n)
    ensures n in Apply(c, s, step).own && |Outdated(Apply(c, s, step), n)| < |Outdated(s, n)|
  {
    hide Inv, GoesBack;
    var r :| GoesBack(c, s, step, r, n);
    GoesBackByReply(c, s, step, r, n);
    OutdatedNeverGrows(c, s, step, n);
    LandedIsGone(c, s, step.f, n);
    hide Outdated, Apply;
    SubsetSize(Outdated(Apply(c, s, step), n), Outdated(s, n) - {step.f});
  }

  lemma LandedIsGone(c: Config, s: State, f: nat, n: Id)
    requires Enabled(c, s, Reply(f)) && n in Apply(c, s, Reply(f)).own
    ensures f !in Outdated(Apply(c, s, Reply(f)), n)
  {
  }

  /** Only a reply that is outdated sets a view back. */
  lemma GoesBackByReply(c: Config, s: State, step: Step, r: Id, n: Id)
    requires Inv(c, s) && Enabled(c, s, step) && Quiet(step, n) && n in s.own && GoesBack(c, s, step, r, n)
    ensures step.Reply? && step.f in Outdated(s, n)
  {
    hide Inv, Exact, Forgets, Apply, TagFalls;
    if TagFalls(s, Apply(c, s, step), r, n) {
      TagFallsExactly(c, s, step, r, n);
      StoredTagIsReached(c, s, r, n);
      hide Enabled;
    } else {
      ExactLostExactly(c, s, step, r, n);
    }
  }

  lemma StoredTagIsReached(c: Config, s: State, r: Id, n: Id)
    requires Inv(c, s) && r in s.tables && n in s.tables[r].tag && n in s.own
    ensures s.tables[r].tag[n] <= s.own[n].infoID
  {
    TableAt(c, s.own, s.tables, r);
    assert RecordOk(c, s.own, r, n, s.tables[r].info[n]);
  }

  lemma {:induction false} SubsetSize<T>(a: set<T>, b: set<T>)
    requires a <= b
    ensures |a| <= |b|
  {
    if a != {} {
      var x :| x in a;
      SubsetSize(a - {x}, b - {x});
    }
  }

  lemma FetchStep(c: Config, s: State, step: Step, f: nat)
    requires Enabled(c, s, step) && f < s.nextFetch && f in Apply(c, s, step).fetches
    ensures f in s.fetches && f < Apply(c, s, step).nextFetch
    ensures var g, g' := s.fetches[f], Apply(c, s, step).fetches[f]; g'.receiver == g.receiver && g'.beat == g.beat
  {
    hide CheckInfo, Contacted, Updated, Without, Stale, SweepRaises, PhaseAfter, OwnerAfter;
  }

  /** Nor does any become outdated at a single receiver. */
  lemma OutdatedAtNeverGrows(c: Config, s: State, step: Step, r: Id, n: Id)
    requires Inv(c, s) && Enabled(c, s, step) && Quiet(step, n) && n in s.own
    ensures n in Apply(c, s, step).own && Apply(c, s, step).own[n] == s.own[n]
    ensures OutdatedAt(Apply(c, s, step), r, n) <= OutdatedAt(s, r, n)
  {
    OutdatedNeverGrows(c, s, step, n);
    hide Inv, Enabled, Apply;
    forall f | f in OutdatedAt(Apply(c, s, step), r, n)
      ensures f in OutdatedAt(s, r, n)
    {
      assert f in Outdated(s, n);
      FetchIsOld(c, s, f);
      FetchStep(c, s, step, f);
    }
  }

  lemma FetchIsOld(c: Config, s: State, f: nat)
    requires Inv(c, s) && f in s.fetches
    ensures f < s.nextFetch
  {
    FetchAt(c, s.own, s.fetches, s.nextFetch, f);
  }

  lemma {:induction false} StaysQuiet(c: Config, states: seq<State>, steps: seq<Step>, a: nat, i: nat, r: Id, n: Id)
    requires IsTrace(c, states, steps) && a <= i < |states|
    requires Inv(c, states[a]) && n in states[a].own && QuietFrom(steps, a, n)
    ensures Inv(c, states[i]) && n in states[i].own && states[i].own[n] == states[a].own[n]
    ensures OutdatedAt(states[i], r, n) <= OutdatedAt(states[a], r, n)
  {
    hide Inv, Enabled, Apply, OutdatedAt;
    if i > a {
      StaysQuiet(c, states, steps, a, i - 1, r, n);
      InvKept(c, states[i - 1], steps[i - 1]);
      OutdatedAtNeverGrows(c, states[i - 1], steps[i - 1], r, n);
    }
  }

  /** With no outdated fetch left that lands at `r`, nothing but being forgotten ends an exact view there. */
  lemma {:induction false} ExactStays(
      c: Config, states: seq<State>, steps: seq<Step>, a: nat, j: nat, k: nat, r: Id, n: Id)
    requires IsTrace(c, states, steps) && a <= j <= k < |states|
    requires Inv(c, states[a]) && n in states[a].own && QuietFrom(steps, a, n)
    requires OutdatedAt(states[a], r, n) == {}
    requires Exact(states[j], r, n)
    requires forall i :: j <= i < k ==> !Forgets(c, states[i], steps[i], r, n)
    ensures Exact(states[k], r, n)
    decreases k
  {
    hide Inv, Enabled, Apply, Exact, OutdatedAt, Forgets;
    if j < k {
      ExactStays(c, states, steps, a, j, k - 1, r, n);
      StaysQuiet(c, states, steps, a, k - 1, r, n);
      ExactLostExactly(c, states[k - 1], steps[k - 1], r, n);
    }
  }

  /** A fetch keeps its receiver and its heartbeat for as long as it is under way. */
  lemma {:induction false} FetchKeepsItsEnds(c: Config, states: seq<State>, steps: seq<Step>, i: nat, j: nat, f: nat)
    requires IsTrace(c, states, steps) && i <= j < |states| && f in states[i].fetches && f < states[i].nextFetch
    requires f in states[j].fetches
    ensures states[j].fetches[f].receiver == states[i].fetches[f].receiver
    ensures states[j].fetches[f].beat == states[i].fetches[f].beat
    decreases j
  {
    hide Apply, Enabled;
    if i < j {
      NewFetchesAreNew(c, states, steps, i, j - 1);
      FetchStep(c, states[j - 1], steps[j - 1], f);
      FetchKeepsItsEnds(c, states, steps, i, j - 1, f);
    }
  }

  lemma FetchNumbersGrow(c: Config, s: State, step: Step)
    requires Enabled(c, s, step)
    ensures s.nextFetch <= Apply(c, s, step).nextFetch
  {
    hide CheckInfo, Contacted, Updated, Without, Stale, SweepRaises, PhaseAfter, OwnerAfter;
  }

  lemma {:induction false} NewFetchesAreNew(c: Config, states: seq<State>, steps: seq<Step>, i: nat, j: nat)
    requires IsTrace(c, states, steps) && i <= j < |states|
    ensures states[i].nextFetch <= states[j].nextFetch
    decreases j
  {
    hide Enabled, Apply;
    if i < j {
      NewFetchesAreNew(c, states, steps, i, j - 1);
      FetchNumbersGrow(c, states[j - 1], steps[j - 1]);
    }
  }

  /** A current heartbeat finds the view exact, or starts a fetch of its own. */
  lemma CurrentBeatActs(c: Config, s: State, r: Id, b: Beat)
    requires Inv(c, s) && Enabled(c, s, Deliver(r, b)) && b.id in s.own && b.tag == s.own[b.id].infoID
    ensures var s' := Apply(c, s, Deliver(r, b));
      || Exact(s', r, b.id)
      || (s.nextFetch in s'.fetches && s'.fetches[s.nextFetch] == Fetch(r, b, Requested) && s.nextFetch < s'.nextFetch)
  {
    TableAt(c, s.own, s.tables, r);
    assert BeatOk(c, s.own, b);
    hide BeatsOk, TablesOk, OwnersOk, FetchesOk;
  }

  /** The view holds the node's current tag and exactly its registrations. */
  predicate Settled(s: State, r: Id, n: Id) {
    && Exact(s, r, n)
    && SamePorts(s.tables[r].info[n].topics, s.own[n].topics)
    && SamePorts(s.tables[r].info[n].services, s.own[n].services)
  }

  /** A settled view is the owner's record, every socket under the address the owner is heard at. */
  lemma SettledExactly(c: Config, s: State, r: Id, n: Id)
    requires Inv(c, s) && Settled(s, r, n)
    ensures n in c && s.tables[r].info[n].name == c[n].name && s.tables[r].info[n].ip == c[n].sourceIp
    ensures s.tables[r].info[n].topics == Rehomed(s.own[n].topics, c[n].sourceIp)
    ensures s.tables[r].info[n].services == Rehomed(s.own[n].services, c[n].sourceIp)
  {
    hide BeatsOk, FetchesOk, OwnersOk;
    TableAt(c, s.own, s.tables, r);
    assert RecordOk(c, s.own, r, n, s.tables[r].info[n]) && Homed(s.tables[r].info[n]);
  }

  /** From an exact view, or a landing reply of a fetch that is not outdated, to every later state. */
  lemma SettledFrom(c: Config, states: seq<State>, steps: seq<Step>, n: Id, r: Id, a: nat, j: nat, k: nat)
    requires IsTrace(c, states, steps) && a <= j <= k < |states|
    requires Inv(c, states[a]) && n in states[a].own && QuietFrom(steps, a, n)
    requires states[a].own[n].pending == 0 && OutdatedAt(states[a], r, n) == {}
    requires Exact(states[j], r, n)
    requires forall m :: j <= m < k ==> !Forgets(c, states[m], steps[m], r, n)
    ensures Settled(states[k], r, n)
  {
    hide Inv, Enabled, Apply, Forgets, OutdatedAt;
    ExactStays(c, states, steps, a, j, k, r, n);
    StaysQuiet(c, states, steps, a, k, r, n);
    TagSoundness(c, states[k], r, n);
  }

  lemma ReplySettles(
      c: Config, states: seq<State>, steps: seq<Step>, n: Id, r: Id, f: nat, a: nat, i: nat, j: nat, k: nat)
    requires IsTrace(c, states, steps) && a <= i <= j < k < |states|
    requires Inv(c, states[a]) && n in states[a].own && QuietFrom(steps, a, n)
    requires states[a].own[n].pending == 0 && OutdatedAt(states[a], r, n) == {}
    requires steps[j] == Reply(f) && f in states[i].fetches && f < states[i].nextFetch
    requires states[i].fetches[f].receiver == r && states[i].fetches[f].beat.id == n
    requires forall m :: i <= m < k ==> !Forgets(c, states[m], steps[m], r, n)
    ensures Settled(states[k], r, n)
  {
    assert f in states[j].fetches;
    hide Inv, Enabled, Apply, Forgets;
    FetchKeepsItsEnds(c, states, steps, i, j, f);
    StaysQuiet(c, states, steps, a, j, r, n);
    FreshReplyMakesExact(c, states[j], f, n);
    SettledFrom(c, states, steps, n, r, a, j + 1, k);
  }

  /** The view a current heartbeat finds exact, or the reply to the fetch it starts, holds on to state `k`. */
  lemma BeatSettles(
      c: Config, states: seq<State>, steps: seq<Step>, n: Id, r: Id, b: Beat, a: nat, i: nat, j: nat, k: nat)
    requires IsTrace(c, states, steps) && a <= i < j < k < |states|
    requires Inv(c, states[a]) && n in states[a].own && QuietFrom(steps, a, n)
    requires states[a].own[n].pending == 0 && OutdatedAt(states[a], r, n) == {}
    requires steps[i] == Deliver(r, b) && b.id == n && b.tag == states[a].own[n].infoID
    requires Exact(states[i + 1], r, n) || steps[j] == Reply(states[i].nextFetch)
    requires forall m :: i < m < k ==> !Forgets(c, states[m], steps[m], r, n)
    ensures Settled(states[k], r, n)
  {
    StaysQuiet(c, states, steps, a, i, r, n);
    CurrentBeatActs(c, states[i], r, b);
    hide Inv, Enabled, Apply, Forgets, OutdatedAt, Exact, Settled;
    if Exact(states[i + 1], r, n) {
      SettledFrom(c, states, steps, n, r, a, i + 1, k);
    } else {
      ReplySettles(c, states, steps, n, r, states[i].nextFetch, a, i + 1, j, k);
    }
  }

  /** The heartbeat that `n` sends in this state: its id, its current tag, its endpoint and its group. */
  predicate IsBeatOf(c: Config, s: State, n: Id, b: Beat)
    requires n in c && n in s.own
  {
    && b.id == n && b.tag == s.own[n].infoID
    && b.sourceIp == c[n].sourceIp && b.port == c[n].port && b.group == c[n].group
  }

  lemma SendSends(c: Config, s: State, n: Id, b: Beat)
    requires Enabled(c, s, Send(n)) && IsBeatOf(c, s, n, b)
    ensures Apply(c, s, Send(n)).beats == s.beats + {b}
  {
  }

  /**
   Convergence. From a state `a` after the last registration of `n`, with no outdated fetch left at `r`: `n`
   sends a heartbeat, in step `h`, and it is delivered at `r`, in step `i`. That delivery finds the view of
   `n` exact or starts a fetch, the view is exact when that fetch's reply lands, and in every later state,
   unless `n` is forgotten in between, it still holds exactly the lists `n` registered.
   */
  lemma Convergence(
      c: Config, states: seq<State>, steps: seq<Step>, n: Id, r: Id, b: Beat, a: nat, h: nat, i: nat)
    requires IsTrace(c, states, steps) && a <= h < i < |steps|
    requires Inv(c, states[a]) && n in states[a].own && QuietFrom(steps, a, n)
    requires states[a].own[n].pending == 0 && OutdatedAt(states[a], r, n) == {}
    requires steps[h] == Send(n) && IsBeatOf(c, states[h], n, b) && steps[i] == Deliver(r, b)
    ensures b in states[h + 1].beats
    ensures Exact(states[i + 1], r, n) || states[i].nextFetch in states[i + 1].fetches
    ensures forall j, k ::
      && i < j < k < |states| && (Exact(states[i + 1], r, n) || steps[j] == Reply(states[i].nextFetch))
      && (forall m :: i < m < k ==> !Forgets(c, states[m], steps[m], r, n))
      ==> Settled(states[k], r, n)
  {
    SendSends(c, states[h], n, b);
    StaysQuiet(c, states, steps, a, h, r, n);
    StaysQuiet(c, states, steps, a, i, r, n);
    CurrentBeatActs(c, states[i], r, b);
    hide Inv, Enabled, Apply, Forgets, OutdatedAt, Exact, Settled;
    forall j, k | i < j < k < |states| && (Exact(states[i + 1], r, n) || steps[j] == Reply(states[i].nextFetch))
        && (forall m :: i < m < k ==> !Forgets(c, states[m], steps[m], r, n))
      ensures Settled(states[k], r, n)
    {
      BeatSettles(c, states, steps, n, r, b, a, i, j, k);
    }
  }
}
