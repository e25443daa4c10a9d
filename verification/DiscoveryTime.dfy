/** The protocol's clocks: which nodes a sweep forgets, and what a sweep that raises leaves behind. */
module DiscoveryTime {
  import opened NodeTable
  import opened Discovery

  /** In this step `r` hears of `k`: a heartbeat is delivered or a fetched record lands. */
  predicate Contacts(c: Config, s: State, step: Step, r: Id, k: Id) {
    Enabled(c, s, step) &&
    match step
    case Deliver(r', b) => r' == r && b.id == k
    case Reply(f) => s.fetches[f].receiver == r && s.fetches[f].phase.info.nodeID == k
    case _ => false
  }

  lemma ClockStep(c: Config, s: State, step: Step, r: Id)
    requires Enabled(c, s, step) && r in s.clock
    ensures r in Apply(c, s, step).clock && s.clock[r] <= Apply(c, s, step).clock[r]
  {
    hide CheckInfo, Updated, Contacted, Without, Stale, SweepRaises, PhaseAfter, OwnerAfter;
  }

  lemma {:induction false} ClockMonotone(c: Config, states: seq<State>, steps: seq<Step>, i: nat, j: nat, r: Id)
    requires IsTrace(c, states, steps) && i <= j < |states| && r in states[i].clock
    ensures r in states[j].clock && states[i].clock[r] <= states[j].clock[r]
    decreases j
  {
    hide Enabled, Apply;
    if i < j {
      ClockMonotone(c, states, steps, i, j - 1, r);
      ClockStep(c, states[j - 1], steps[j - 1], r);
    }
  }

  /** How one step moves the time `r` last heard of `k`. */
  predicate BeatMoves(before: map<Id, real>, after: map<Id, real>, k: Id, contact: bool, now: real) {
    if contact then k in after && after[k] == now
    else k in after ==> k in before && after[k] == before[k]
  }

  lemma BeatUnderContact(c: Config, s: State, step: Step, r: Id, k: Id)
    requires Enabled(c, s, step) && r in s.tables && r in s.clock && (step.Deliver? || step.Reply?)
    ensures r in Apply(c, s, step).tables
    ensures BeatMoves(s.tables[r].beat, Apply(c, s, step).tables[r].beat, k, Contacts(c, s, step, r, k), s.clock[r])
  {
    hide CheckInfo, AtHome;
  }

  lemma BeatUnderOthers(c: Config, s: State, step: Step, r: Id, k: Id)
    requires Enabled(c, s, step) && r in s.tables && r in s.clock && !step.Deliver? && !step.Reply?
    ensures r in Apply(c, s, step).tables
    ensures BeatMoves(s.tables[r].beat, Apply(c, s, step).tables[r].beat, k, Contacts(c, s, step, r, k), s.clock[r])
  {
    hide Stale, SweepRaises, PhaseAfter, OwnerAfter;
  }

  lemma BeatStep(c: Config, s: State, step: Step, r: Id, k: Id)
    requires Enabled(c, s, step) && r in s.tables && r in s.clock
    ensures r in Apply(c, s, step).tables
    ensures BeatMoves(s.tables[r].beat, Apply(c, s, step).tables[r].beat, k, Contacts(c, s, step, r, k), s.clock[r])
  {
    hide Apply, Contacts, BeatMoves;
    if step.Deliver? || step.Reply? {
      BeatUnderContact(c, s, step, r, k);
    } else {
      BeatUnderOthers(c, s, step, r, k);
    }
  }

  /** Before state `i`, and when its clock showed `at`, `r` heard of `k`. */
  ghost predicate HeardAt(c: Config, states: seq<State>, steps: seq<Step>, i: nat, r: Id, k: Id, at: real)
    requires IsTrace(c, states, steps) && i < |states|
  {
    exists m :: 0 <= m < i && Contacts(c, states[m], steps[m], r, k) && r in states[m].clock && states[m].clock[r] == at
  }

  /** The stored time is that of a contact that really happened. */
  lemma {:induction false} BeatIsContact(c: Config, states: seq<State>, steps: seq<Step>, i: nat, r: Id, k: Id)
    requires IsTrace(c, states, steps) && i < |states| && states[0] == Initial(c) && r in c
    ensures r in states[i].tables && r in states[i].clock
    ensures k in states[i].tables[r].beat ==> HeardAt(c, states, steps, i, r, k, states[i].tables[r].beat[k])
  {
    hide Enabled, Apply, Contacts;
    if i > 0 {
      BeatIsContact(c, states, steps, i - 1, r, k);
      BeatStep(c, states[i - 1], steps[i - 1], r, k);
      ClockStep(c, states[i - 1], steps[i - 1], r);
    }
  }

  /** No contact since is older than the stored time. */
  lemma {:induction false} BeatIsLatest(c: Config, states: seq<State>, steps: seq<Step>, m: nat, i: nat, r: Id, k: Id)
    requires IsTrace(c, states, steps) && m < i < |states| && r in states[m].tables && r in states[m].clock
    requires Contacts(c, states[m], steps[m], r, k)
    ensures r in states[i].tables
    ensures k in states[i].tables[r].beat ==> states[m].clock[r] <= states[i].tables[r].beat[k]
    decreases i
  {
    hide Enabled, Apply, Contacts;
    if i > m + 1 {
      BeatIsLatest(c, states, steps, m, i - 1, r, k);
      ClockMonotone(c, states, steps, m, i - 1, r);
    }
    ClockMonotone(c, states, steps, m, i - 1, r);
    BeatStep(c, states[i - 1], steps[i - 1], r, k);
  }

  /** In state `i`, `r` has heard of `k` within this many seconds. */
  ghost predicate HeardWithin(c: Config, states: seq<State>, steps: seq<Step>, i: nat, r: Id, k: Id, seconds: real)
    requires IsTrace(c, states, steps) && i < |states|
  {
    r in states[i].clock
    && exists at: real :: HeardAt(c, states, steps, i, r, k, at) && states[i].clock[r] - at <= seconds
  }

  lemma SweepSpares(c: Config, s: State, step: Step, r: Id, k: Id)
    requires Enabled(c, s, step) && r in s.tables && k in s.tables[r].info && k in s.tables[r].beat
    requires r in Apply(c, s, step).clock && Apply(c, s, step).clock[r] - s.tables[r].beat[k] <= 3.0
    ensures r in Apply(c, s, step).tables && k in Apply(c, s, step).tables[r].info
  {
    hide CheckInfo, PhaseAfter, OwnerAfter, AtHome, SweepRaises;
  }

  /** A node heard of at gaps of at most three seconds is never forgotten. */
  lemma {:induction false} NeverForgotten(c: Config, states: seq<State>, steps: seq<Step>, a: nat, b: nat, r: Id, k: Id)
    requires IsRun(c, states, steps) && a <= b < |states| && r in c
    requires r in states[a].tables && k in states[a].tables[r].info
    requires forall i :: a <= i <= b ==> HeardWithin(c, states, steps, i, r, k, 3.0)
    ensures r in states[b].tables && k in states[b].tables[r].info
    decreases b
  {
    hide Inv, Enabled, Apply, Contacts;
    if a < b {
      NeverForgotten(c, states, steps, a, b - 1, r, k);
      RunInv(c, states, steps, b - 1);
      RunKeys(c, states, steps, b - 1, r);
      KnownHasBeat(c, states[b - 1], r, k);
      assert HeardWithin(c, states, steps, b, r, k, 3.0);
      HeardIsSpared(c, states, steps, b, r, k);
    }
  }

  lemma HeardIsSpared(c: Config, states: seq<State>, steps: seq<Step>, b: nat, r: Id, k: Id)
    requires IsRun(c, states, steps) && 0 < b < |states| && r in c && HeardWithin(c, states, steps, b, r, k, 3.0)
    requires r in states[b - 1].tables && k in states[b - 1].tables[r].info && k in states[b - 1].tables[r].beat
    ensures r in states[b].tables && k in states[b].tables[r].info
  {
    hide Inv, Enabled, Apply, Contacts;
    var at: real :| HeardAt(c, states, steps, b, r, k, at) && states[b].clock[r] - at <= 3.0;
    var m :| 0 <= m < b && Contacts(c, states[m], steps[m], r, k) && r in states[m].clock && states[m].clock[r] == at;
    if m < b - 1 {
      RunKeys(c, states, steps, m, r);
      BeatIsLatest(c, states, steps, m, b - 1, r, k);
      SweepSpares(c, states[b - 1], steps[b - 1], r, k);
    } else {
      ContactKeeps(c, states[m], steps[m], r, k);
    }
  }

  lemma RunKeys(c: Config, states: seq<State>, steps: seq<Step>, i: nat, r: Id)
    requires IsRun(c, states, steps) && i < |states| && r in c
    ensures r in states[i].tables && r in states[i].clock
  {
    RunInv(c, states, steps, i);
    hide Enabled, Apply, BeatsOk, FetchesOk, TablesOk, OwnersOk;
  }

  lemma KnownHasBeat(c: Config, s: State, r: Id, k: Id)
    requires Inv(c, s) && r in s.tables && k in s.tables[r].info
    ensures k in s.tables[r].beat
  {
    TableAt(c, s.own, s.tables, r);
  }

  lemma ContactKeeps(c: Config, s: State, step: Step, r: Id, k: Id)
    requires Contacts(c, s, step, r, k) && r in s.tables && k in s.tables[r].info
    ensures r in Apply(c, s, step).tables && k in Apply(c, s, step).tables[r].info
  {
    hide CheckInfo, AtHome;
  }

  /** After a successful sweep of `r`, whatever it knows was heard of no longer than 3 s before the sweep. */
  lemma {:induction false} SweptClean(c: Config, states: seq<State>, steps: seq<Step>, j: nat, i: nat, r: Id, k: Id)
    requires IsTrace(c, states, steps) && j < i < |states| && r in states[j].clock && r in states[j].tables
    requires steps[j].Sweep? && steps[j].r == r && !SweepRaises(states[j].tables[r], steps[j].readings)
    ensures r in states[i].tables
    ensures k in states[i].tables[r].beat ==> states[j].clock[r] - 3.0 <= states[i].tables[r].beat[k]
    decreases i
  {
    hide Enabled, Apply, SweepRaises;
    if i > j + 1 {
      SweptClean(c, states, steps, j, i - 1, r, k);
      ClockMonotone(c, states, steps, j, i - 1, r);
      BeatStep(c, states[i - 1], steps[i - 1], r, k);
    } else {
      SweepLeaves(c, states[j], steps[j], k);
    }
  }

  lemma SweepLeaves(c: Config, s: State, step: Step, k: Id)
    requires Enabled(c, s, step) && step.Sweep? && !SweepRaises(s.tables[step.r], step.readings)
    ensures step.r in Apply(c, s, step).tables
    ensures var t := Apply(c, s, step).tables[step.r]; k in t.beat ==> s.clock[step.r] - 3.0 <= t.beat[k]
  {
    hide SweepRaises;
  }

  /**
   If the last sweep of `r` succeeded and began at most `d` seconds ago, every node `r` knows of was
   really heard of within the last 3 + d seconds.
   */
  lemma KnownMeansHeard(c: Config, states: seq<State>, steps: seq<Step>, j: nat, i: nat, r: Id, k: Id, d: real)
    requires IsRun(c, states, steps) && j < i < |states| && r in c
    requires steps[j].Sweep? && steps[j].r == r && r in states[j].tables
    requires !SweepRaises(states[j].tables[r], steps[j].readings)
    requires r in states[j].clock && r in states[i].clock && states[i].clock[r] - states[j].clock[r] <= d
    requires r in states[i].tables && k in states[i].tables[r].beat
    ensures HeardWithin(c, states, steps, i, r, k, 3.0 + d)
  {
    hide Contacts, Enabled, Apply, SweepRaises;
    SweptClean(c, states, steps, j, i, r, k);
    BeatIsContact(c, states, steps, i, r, k);
  }

  // ---------- a sweep that raises ----------

  lemma DeadStep(c: Config, s: State, step: Step, r: Id)
    requires Enabled(c, s, step) && r in s.tables && r !in s.sweeping
    ensures var s' := Apply(c, s, step);
      r in s'.tables && r !in s'.sweeping && s.tables[r].info.Keys <= s'.tables[r].info.Keys
  {
    hide CheckInfo, PhaseAfter, OwnerAfter, AtHome, Stale, SweepRaises;
  }

  lemma SweepDies(c: Config, s: State, step: Step)
    requires Enabled(c, s, step) && step.Sweep? && SweepRaises(s.tables[step.r], step.readings)
    ensures Apply(c, s, step).tables == s.tables && step.r !in Apply(c, s, step).sweeping
  {
    hide SweepRaises;
  }

  /** A sweep that raises is the node's last: from then on it forgets nobody. */
  lemma {:induction false} RaisingSweepIsLast(c: Config, states: seq<State>, steps: seq<Step>, i: nat, j: nat, r: Id)
    requires IsTrace(c, states, steps) && i < j < |states|
    requires steps[i].Sweep? && steps[i].r == r && r in states[i].tables
    requires SweepRaises(states[i].tables[r], steps[i].readings)
    ensures r in states[j].tables && r !in states[j].sweeping
    ensures states[i].tables[r].info.Keys <= states[j].tables[r].info.Keys
    decreases j
  {
    hide Inv, Enabled, Apply, SweepRaises;
    if j > i + 1 {
      RaisingSweepIsLast(c, states, steps, i, j - 1, r);
      DeadStep(c, states[j - 1], steps[j - 1], r);
    } else {
      SweepDies(c, states[i], steps[i]);
    }
  }
}
