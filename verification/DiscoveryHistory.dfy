/** What the state of a network owes to the steps that led to it: heartbeats, registrations and fetches. */
module DiscoveryHistory {
  import opened NodeInfoCodec
  import opened NodeTable
  import opened Discovery
  import opened DiscoveryLaws

  // ---------- heartbeats ----------

  /** In this step the owner of `b` sends it, with the tag it has then, from its own endpoint to its own group. */
  predicate Sends(c: Config, s: State, step: Step, b: Beat) {
    step == Send(b.id) && b.id in c && b.id in s.own && IsBeatOf(c, s, b.id, b)
  }

  lemma BeatsStep(c: Config, s: State, step: Step, b: Beat)
    requires Enabled(c, s, step)
    ensures b in Apply(c, s, step).beats <==> b in s.beats || Sends(c, s, step, b)
  {
    hide CheckInfo, Contacted, Updated, Without, Stale, SweepRaises, PhaseAfter, OwnerAfter;
  }

  /** In every run the heartbeats that can arrive are those that were sent, each with its sender's tag of that time. */
  lemma {:induction false} BeatsAreSends(c: Config, states: seq<State>, steps: seq<Step>, k: nat, b: Beat)
    requires IsRun(c, states, steps) && k < |states|
    ensures b in states[k].beats <==> exists h :: 0 <= h < k && Sends(c, states[h], steps[h], b)
  {
    hide Enabled, Apply, Sends;
    if k == 0 {
      assert states[0].beats == {};
    } else {
      BeatsAreSends(c, states, steps, k - 1, b);
      BeatsStep(c, states[k - 1], steps[k - 1], b);
    }
  }

  /** A sent heartbeat can arrive at any other node of the group, at any later time, any number of times. */
  lemma SentCanBeHeard(c: Config, states: seq<State>, steps: seq<Step>, h: nat, k: nat, b: Beat, r: Id)
    requires IsRun(c, states, steps) && h < k < |states| && Sends(c, states[h], steps[h], b) && Mates(c, r, b.id)
    ensures Enabled(c, states[k], Deliver(r, b))
  {
    BeatsAreSends(c, states, steps, k, b);
    RunInv(c, states, steps, k);
    hide BeatsOk, FetchesOk, TablesOk, OwnersOk, Apply;
  }

  // ---------- registrations ----------

  /** The topics that these steps append for `n`, in their order. */
  function TopicsIn(c: Config, steps: seq<Step>, n: Id): seq<SocketInfo>
    requires n in c
  {
    if steps == [] then []
    else
      var before, last := TopicsIn(c, steps[..|steps| - 1], n), steps[|steps| - 1];
      if last.AppendTopic? && last.n == n then before + [SocketInfo(last.name, c[n].bindIp, last.port)] else before
  }

  function ServicesIn(c: Config, steps: seq<Step>, n: Id): seq<SocketInfo>
    requires n in c
  {
    if steps == [] then []
    else
      var before, last := ServicesIn(c, steps[..|steps| - 1], n), steps[|steps| - 1];
      if last.AppendService? && last.n == n then before + [SocketInfo(last.name, c[n].bindIp, last.port)] else before
  }

  function BumpsIn(steps: seq<Step>, n: Id): nat {
    if steps == [] then 0
    else BumpsIn(steps[..|steps| - 1], n) + if steps[|steps| - 1] == Bump(n) then 1 else 0
  }

  lemma OwnerStep(c: Config, s: State, step: Step, n: Id)
    requires Enabled(c, s, step) && n in c && n in s.own
    ensures n in Apply(c, s, step).own
    ensures var o, o' := s.own[n], Apply(c, s, step).own[n];
      && o'.topics == o.topics + TopicsIn(c, [step], n) && o'.services == o.services + ServicesIn(c, [step], n)
      && o'.infoID == o.infoID + BumpsIn([step], n)
  {
    hide CheckInfo, Contacted, Updated, Without, Stale, SweepRaises, PhaseAfter;
    assert [step][..0] == [];
  }

  lemma OneMoreStep(c: Config, steps: seq<Step>, n: Id)
    requires n in c && steps != []
    ensures var before, last := steps[..|steps| - 1], [steps[|steps| - 1]];
      && TopicsIn(c, steps, n) == TopicsIn(c, before, n) + TopicsIn(c, last, n)
      && ServicesIn(c, steps, n) == ServicesIn(c, before, n) + ServicesIn(c, last, n)
      && BumpsIn(steps, n) == BumpsIn(before, n) + BumpsIn(last, n)
  {
    assert [steps[|steps| - 1]][..0] == [];
  }

  /** A node's record is what it registered, in order, and its counter how many registrations it finished. */
  lemma {:induction false} OwnerIsRegistrations(c: Config, states: seq<State>, steps: seq<Step>, k: nat, n: Id)
    requires IsRun(c, states, steps) && k < |states| && n in c
    ensures n in states[k].own
    ensures var o := states[k].own[n];
      && o.topics == TopicsIn(c, steps[..k], n) && o.services == ServicesIn(c, steps[..k], n)
      && o.infoID == BumpsIn(steps[..k], n) && o.infoID + o.pending == |o.topics| + |o.services|
  {
    RunInv(c, states, steps, k);
    OwnerBalances(c, states[k], n);
    hide Enabled, Apply, Inv, TopicsIn, ServicesIn, BumpsIn;
    if k == 0 {
      assert steps[..0] == [];
      NothingYet(c, n);
    } else {
      OwnerIsRegistrations(c, states, steps, k - 1, n);
      OwnerStep(c, states[k - 1], steps[k - 1], n);
      assert steps[..k][..k - 1] == steps[..k - 1];
      OneMoreStep(c, steps[..k], n);
    }
  }

  lemma OwnerBalances(c: Config, s: State, n: Id)
    requires Inv(c, s) && n in c
    ensures n in s.own && s.own[n].infoID + s.own[n].pending == |s.own[n].topics| + |s.own[n].services|
  {
    hide BeatsOk, FetchesOk, TablesOk;
    assert OwnerOk(s.own[n]);
  }

  lemma NothingYet(c: Config, n: Id)
    requires n in c
    ensures TopicsIn(c, [], n) == [] && ServicesIn(c, [], n) == [] && BumpsIn([], n) == 0
  {
  }

  // ---------- fetches ----------

  /** A fetch ends with its own reply or failure and not before, and only its own server moves it on. */
  lemma FetchExactly(c: Config, s: State, step: Step, f: nat)
    requires Enabled(c, s, step) && f in s.fetches && f < s.nextFetch
    ensures f in Apply(c, s, step).fetches <==> step != Reply(f) && step != Fail(f)
    ensures f in Apply(c, s, step).fetches && !(IsReading(step) && step.f == f) ==>
      Apply(c, s, step).fetches[f] == s.fetches[f]
    ensures f in Apply(c, s, step).fetches && IsReading(step) && step.f == f ==>
      Apply(c, s, step).fetches[f].phase != s.fetches[f].phase
  {
    hide CheckInfo, Contacted, Updated, Without, Stale, SweepRaises, OwnerAfter;
  }

  /** A fetch starts exactly when a heartbeat arrives whose tag is not the stored one, and it answers that heartbeat. */
  lemma FetchStartsExactly(c: Config, s: State, step: Step)
    requires Inv(c, s) && Enabled(c, s, step)
    ensures s.nextFetch in Apply(c, s, step).fetches <==>
      && step.Deliver? && step.r in s.tables
      && !(step.b.id in s.tables[step.r].tag && s.tables[step.r].tag[step.b.id] == step.b.tag)
    ensures s.nextFetch in Apply(c, s, step).fetches ==>
      Apply(c, s, step).fetches[s.nextFetch] == Fetch(step.r, step.b, Requested)
  {
    NextIsNew(c, s);
    hide Inv, Contacted, Updated, Without, Stale, SweepRaises, PhaseAfter, OwnerAfter;
    if step.Deliver? {
      BeatHasTag(c, s, step.b);
    } else {
      hide CheckInfo;
      OthersStartNone(c, s, step);
    }
  }

  lemma OthersStartNone(c: Config, s: State, step: Step)
    requires Enabled(c, s, step) && !step.Deliver?
    ensures Apply(c, s, step).fetches.Keys <= s.fetches.Keys
  {
    hide Updated, Without, Stale, SweepRaises, PhaseAfter, OwnerAfter;
  }

  lemma NextIsNew(c: Config, s: State)
    requires Inv(c, s)
    ensures s.nextFetch !in s.fetches
  {
    if s.nextFetch in s.fetches {
      FetchAt(c, s.own, s.fetches, s.nextFetch, s.nextFetch);
    }
  }

  lemma BeatHasTag(c: Config, s: State, b: Beat)
    requires Inv(c, s) && b in s.beats
    ensures b.tag >= 0
  {
    assert BeatOk(c, s.own, b);
  }
}
