/** `Streamer`: the pacing of its loop, in real time. */
module Streaming {
  import opened Wrappers

  type Delay = x: real | 0.0 <= x witness 0.0

  /**
   What one turn of the loop meets: time that passes before the clock is read, how much longer than asked
   the sleep lasts, how long producing and sending the message takes, and how the turn ends.
   */
  datatype Turn = Turn(before: Delay, overshoot: Delay, work: Delay, fails: bool, stops: bool)

  /** The clock, the loop's own variables, and the times at which it stamped and published. */
  datatype Log = Log(now: real, last: real, stamps: seq<real>, publishes: seq<real>, running: bool, raised: bool)

  function StampOf(dt: real, last: real, read: real, overshoot: Delay): real {
    (if read - last < dt then read + (dt - (read - last)) else read) + overshoot
  }

  function AfterTurn(dt: real, l: Log, t: Turn): Log {
    if !l.running || l.raised then l
    else
      var stamp := StampOf(dt, l.last, l.now + t.before, t.overshoot);
      var done := l.(now := stamp + t.work, last := stamp, stamps := l.stamps + [stamp]);
      if t.fails then done.(raised := true)
      else done.(publishes := l.publishes + [stamp + t.work], running := !t.stops)
  }

  function AfterTurns(dt: real, l: Log, turns: seq<Turn>): Log {
    if turns == [] then l else AfterTurn(dt, AfterTurns(dt, l, turns[..|turns| - 1]), turns[|turns| - 1])
  }

  /** The log of a loop that starts when the clock shows `now`. */
  function Streamed(dt: real, now: real, turns: seq<Turn>): Log {
    AfterTurns(dt, Log(now, 0.0, [], [], true, false), turns)
  }

  /** Nothing where the program divides by zero. */
  function Period(fps: int): (dt: Option<real>)
    ensures dt.None? <==> fps == 0
    ensures dt.Some? ==> dt.value * fps as real == 1.0 && (dt.value > 0.0 <==> fps > 0)
  {
    if fps == 0 then None else Some(1.0 / fps as real)
  }

  class Streamer {
    const dt: real
    var running: bool

    constructor (dt: real)
      ensures this.dt == dt && !running
    {
      this.dt, running := dt, false;
    }

    method UpdateLoop(start: real, turns: seq<Turn>) returns (stamps: seq<real>, publishes: seq<real>, raised: bool)
      modifies this`running
      ensures var l := Streamed(dt, start, turns);
        stamps == l.stamps && publishes == l.publishes && raised == l.raised && running == l.running
    {
      running, raised := true, false;
      stamps, publishes := [], [];
      var now, last := start, 0.0;
      hide StampOf;
      for i := 0 to |turns|
        invariant Log(now, last, stamps, publishes, running, raised) == Streamed(dt, start, turns[..i])
      {
        assert turns[..i + 1][..i] == turns[..i];
        var t := turns[i];
        if running && !raised {
          now := Wait(last, now + t.before, t.overshoot);
          last := now;
          stamps := stamps + [now];
          now := now + t.work;
          if t.fails {
            raised := true;
          } else {
            publishes := publishes + [now];
            running := !t.stops;
          }
        }
      }
      assert turns[..|turns|] == turns;
    }

    /** The sleep up to the next stamp. */
    method Wait(last: real, read: real, overshoot: Delay) returns (stamp: real)
      ensures stamp == StampOf(dt, last, read, overshoot)
    {
      var diff := read - last;
      stamp := read;
      if diff < dt {
        stamp := stamp + (dt - diff);
      }
      stamp := stamp + overshoot;
    }
  }

  // ---------- the rate ----------

  predicate Spaced(xs: seq<real>, dt: real) {
    forall i :: 0 < i < |xs| ==> dt <= xs[i] - xs[i - 1]
  }

  /** One message goes out between a stamp and the next; the last stamp may be without its message. */
  predicate Interleaved(stamps: seq<real>, publishes: seq<real>) {
    && |publishes| <= |stamps| <= |publishes| + 1
    && (forall i :: 0 <= i < |publishes| ==> stamps[i] <= publishes[i])
    && (forall i :: 0 < i < |stamps| ==> publishes[i - 1] <= stamps[i])
  }

  predicate Paced(dt: real, l: Log) {
    && Spaced(l.stamps, dt) && Interleaved(l.stamps, l.publishes)
    && (!l.raised ==> |l.stamps| == |l.publishes|)
    && (l.stamps != [] ==> l.stamps[|l.stamps| - 1] == l.last)
    && (forall i :: 0 <= i < |l.publishes| ==> l.publishes[i] <= l.now)
  }

  lemma SpacedSnoc(xs: seq<real>, dt: real, x: real)
    requires Spaced(xs, dt) && (xs != [] ==> dt <= x - xs[|xs| - 1])
    ensures Spaced(xs + [x], dt)
  {
  }

  lemma InterleavedSnoc(stamps: seq<real>, publishes: seq<real>, stamp: real, publish: real)
    requires Interleaved(stamps, publishes) && |stamps| == |publishes|
    requires (publishes != [] ==> publishes[|publishes| - 1] <= stamp) && stamp <= publish
    ensures Interleaved(stamps + [stamp], publishes) && Interleaved(stamps + [stamp], publishes + [publish])
  {
  }

  lemma StampIsLater(dt: real, last: real, read: real, overshoot: Delay)
    ensures StampOf(dt, last, read, overshoot) >= read && StampOf(dt, last, read, overshoot) - last >= dt
  {
  }

  lemma TurnPaced(dt: real, l: Log, t: Turn)
    requires Paced(dt, l)
    ensures Paced(dt, AfterTurn(dt, l, t))
  {
    hide Spaced, Interleaved, StampOf;
    if l.running && !l.raised {
      var stamp := StampOf(dt, l.last, l.now + t.before, t.overshoot);
      StampIsLater(dt, l.last, l.now + t.before, t.overshoot);
      SpacedSnoc(l.stamps, dt, stamp);
      InterleavedSnoc(l.stamps, l.publishes, stamp, stamp + t.work);
    }
  }

  lemma {:induction false} AlwaysPaced(dt: real, start: real, turns: seq<Turn>)
    ensures Paced(dt, Streamed(dt, start, turns))
  {
    hide AfterTurn, Paced;
    if turns != [] {
      AlwaysPaced(dt, start, turns[..|turns| - 1]);
      TurnPaced(dt, Streamed(dt, start, turns[..|turns| - 1]), turns[|turns| - 1]);
    } else {
      assert Paced(dt, Log(start, 0.0, [], [], true, false)) by { NothingPaced(dt, start); }
    }
  }

  lemma NothingPaced(dt: real, start: real)
    ensures Paced(dt, Log(start, 0.0, [], [], true, false))
  {
  }

  /** How many of these times lie in the window from `a` to `b`, its ends included. */
  function Within(xs: seq<real>, a: real, b: real): nat {
    if xs == [] then 0
    else Within(xs[..|xs| - 1], a, b) + if a <= xs[|xs| - 1] <= b then 1 else 0
  }

  predicate Ascending(xs: seq<real>) {
    forall i, j :: 0 <= i < j < |xs| ==> xs[i] <= xs[j]
  }

  lemma {:induction false} SpacedAscends(xs: seq<real>, dt: real)
    requires Spaced(xs, dt) && 0.0 <= dt
    ensures Ascending(xs)
  {
    if |xs| > 1 {
      var n := |xs| - 1;
      SpacedAscends(xs[..n], dt);
      assert xs[..n][n - 1] <= xs[n];
      assert forall i :: 0 <= i < n ==> xs[..n][i] <= xs[n - 1];
    }
  }

  lemma {:induction false} NoneWithin(xs: seq<real>, a: real, b: real)
    requires forall i :: 0 <= i < |xs| ==> xs[i] < a
    ensures Within(xs, a, b) == 0
  {
    if xs != [] {
      NoneWithin(xs[..|xs| - 1], a, b);
    }
  }

  function Periods(k: int, dt: real): real {
    k as real * dt
  }

  lemma OneMorePeriod(k: int, dt: real)
    ensures Periods(k + 1, dt) == Periods(k, dt) + dt && Periods(0, dt) == 0.0
  {
    assert (k + 1) as real == k as real + 1.0;
  }

  /** `k` times in a window, the last of them the last of all, take up k - 1 periods of it. */
  lemma {:induction false} WindowFilled(xs: seq<real>, dt: real, a: real, b: real)
    requires Spaced(xs, dt) && 0.0 <= dt && xs != [] && a <= xs[|xs| - 1] <= b
    ensures Periods(Within(xs, a, b) - 1, dt) <= xs[|xs| - 1] - a
  {
    hide Periods;
    var n := |xs| - 1;
    OneMorePeriod(Within(xs[..n], a, b) - 1, dt);
    if n == 0 {
      assert Within(xs, a, b) == 1;
    } else if xs[n - 1] < a {
      SpacedAscends(xs, dt);
      NoneWithin(xs[..n], a, b);
    } else {
      assert xs[..n][n - 1] == xs[n - 1] && dt <= xs[n] - xs[n - 1];
      WindowFilled(xs[..n], dt, a, b);
    }
  }

  lemma {:induction false} StampsInWindow(xs: seq<real>, dt: real, a: real, b: real)
    requires Spaced(xs, dt) && 0.0 <= dt && a <= b
    ensures Within(xs, a, b) == 0 || Periods(Within(xs, a, b) - 1, dt) <= b - a
  {
    hide Periods;
    if xs != [] {
      var n := |xs| - 1;
      if a <= xs[n] <= b {
        WindowFilled(xs, dt, a, b);
      } else {
        StampsInWindow(xs[..n], dt, a, b);
      }
    }
  }

  lemma NoStamps(stamps: seq<real>, publishes: seq<real>)
    requires Interleaved(stamps, publishes) && stamps == []
    ensures publishes == []
  {
  }

  lemma InterleavedFront(stamps: seq<real>, publishes: seq<real>)
    requires Interleaved(stamps, publishes) && Ascending(stamps) && stamps != []
    ensures var n := |stamps| - 1;
      && (|publishes| == n || |publishes| == n + 1)
      && Interleaved(stamps[..n], publishes[..n]) && Ascending(stamps[..n])
      && (n > 0 ==> publishes[n - 1] <= stamps[n]) && (|publishes| == n + 1 ==> stamps[n] <= publishes[n])
  {
  }

  /** Between two messages in a window lies a stamp in it. */
  lemma {:induction false} PublishesInWindow(stamps: seq<real>, publishes: seq<real>, a: real, b: real)
    requires Interleaved(stamps, publishes) && Ascending(stamps)
    ensures Within(publishes, a, b) <= Within(stamps, a, b) + 1
    decreases |stamps|
  {
    hide Interleaved, Ascending;
    var n := |stamps| - 1;
    if n < 0 {
      NoStamps(stamps, publishes);
      return;
    }
    InterleavedFront(stamps, publishes);
    if |publishes| == n {
      assert publishes[..n] == publishes;
      PublishesInWindow(stamps[..n], publishes, a, b);
    } else if n > 0 && a <= publishes[n - 1] {
      PublishesInWindow(stamps[..n], publishes[..n], a, b);
    } else {
      EarlierMessages(stamps, publishes, n, a);
      NoneWithin(publishes[..n], a, b);
    }
  }

  lemma EarlierMessages(stamps: seq<real>, publishes: seq<real>, n: nat, a: real)
    requires Interleaved(stamps, publishes) && Ascending(stamps) && n < |stamps| && n <= |publishes|
    requires n > 0 ==> publishes[n - 1] < a
    ensures forall i :: 0 <= i < n ==> publishes[i] < a
  {
    forall i | 0 <= i < n - 1
      ensures publishes[i] < a
    {
      assert publishes[i] <= stamps[i + 1] <= stamps[n - 1] <= publishes[n - 1];
    }
  }

  lemma PeriodsToRate(fps: int, dt: real, k: int, length: real)
    requires fps > 0 && dt == 1.0 / fps as real && Periods(k, dt) <= length
    ensures k <= (length * fps as real).Floor
  {
    var rate := fps as real;
    ReciprocalCancels(k as real, rate);
    MultiplyBoth(k as real * dt, length, rate);
    FloorIsGreatest(k, length * rate);
  }

  lemma ReciprocalCancels(x: real, y: real)
    requires y > 0.0
    ensures x * (1.0 / y) * y == x
  {
    var q := 1.0 / y;
    assert q * y == 1.0;
    assert x * q * y == x * (q * y);
  }

  lemma MultiplyBoth(x: real, y: real, z: real)
    requires x <= y && 0.0 <= z
    ensures x * z <= y * z
  {
    assert (y - x) * z >= 0.0;
  }

  lemma FloorIsGreatest(k: int, x: real)
    requires k as real <= x
    ensures k <= x.Floor
  {
  }

  /**
   The rate bound. However long producing a message takes, and as long as sleeps are not cut short, any
   window holds at most floor(T * fps) + 1 stamps and floor(T * fps) + 2 messages.
   */
  lemma RateBound(fps: int, start: real, turns: seq<Turn>, a: real, length: real)
    requires fps > 0 && 0.0 <= length
    ensures var l := Streamed(Period(fps).value, start, turns); var most := (length * fps as real).Floor;
      Within(l.stamps, a, a + length) <= most + 1 && Within(l.publishes, a, a + length) <= most + 2
  {
    var dt := 1.0 / fps as real;
    var l := Streamed(dt, start, turns);
    hide Streamed, Within, Interleaved, Spaced, Ascending;
    AlwaysPaced(dt, start, turns);
    WindowBound(fps, dt, l.stamps, l.publishes, a, length);
  }

  lemma WindowBound(fps: int, dt: real, stamps: seq<real>, publishes: seq<real>, a: real, length: real)
    requires fps > 0 && dt == 1.0 / fps as real && 0.0 <= length && 0.0 <= dt
    requires Spaced(stamps, dt) && Interleaved(stamps, publishes)
    ensures var most := (length * fps as real).Floor;
      Within(stamps, a, a + length) <= most + 1 && Within(publishes, a, a + length) <= most + 2
  {
    hide Within, Interleaved, Spaced, Ascending;
    SpacedAscends(stamps, dt);
    StampsInWindow(stamps, dt, a, a + length);
    PublishesInWindow(stamps, publishes, a, a + length);
    var k := Within(stamps, a, a + length);
    if k > 0 {
      PeriodsToRate(fps, dt, k - 1, length);
    } else {
      PeriodsToRate(fps, dt, 0, length);
    }
  }

  /** Each turn of a running loop leaves one stamp, and the clock where its work ended. */
  lemma {:induction false} OneStampATurn(dt: real, start: real, turns: seq<Turn>)
    ensures var l, n := Streamed(dt, start, turns), |turns|;
      && |l.stamps| <= n
      && (l.running && !l.raised ==> |l.stamps| == n)
      && (l.running && !l.raised && n > 0 ==> l.stamps[n - 1] == l.last && l.now == l.last + turns[n - 1].work)
  {
    hide StampOf;
    if turns != [] {
      OneStampATurn(dt, start, turns[..|turns| - 1]);
    }
  }

  /** The time from one stamp to the next: the period or the time the work took, and the overshoot. */
  lemma {:induction false} GapsExactly(dt: real, start: real, turns: seq<Turn>, i: nat)
    requires 0 < i < |Streamed(dt, start, turns).stamps|
    ensures i < |turns|
    ensures var stamps, busy: real := Streamed(dt, start, turns).stamps, turns[i - 1].work + turns[i].before;
      stamps[i] - stamps[i - 1] == (if busy < dt then dt else busy) + turns[i].overshoot
  {
    OneStampATurn(dt, start, turns);
    var n := |turns| - 1;
    var before := Streamed(dt, start, turns[..n]);
    OneStampATurn(dt, start, turns[..n]);
    if i < |before.stamps| {
      GapsExactly(dt, start, turns[..n], i);
    } else {
      assert before.running && !before.raised && i == n;
    }
  }

  /** No turn before the `i`-th fails or stops the loop. */
  predicate GoesOnTo(turns: seq<Turn>, i: nat)
    requires i <= |turns|
  {
    forall j :: 0 <= j < i ==> !turns[j].fails && !turns[j].stops
  }

  /**
   The loop, turn by turn. It stamps in each turn up to the first that fails or stops it, a turn that does
   not fail publishes when its work is done, and a failure is the only thing that leaves a stamp alone.
   */
  lemma {:induction false} TurnsExactly(dt: real, start: real, turns: seq<Turn>)
    ensures var l, n := Streamed(dt, start, turns), |turns|;
      && |l.publishes| <= |l.stamps| <= n
      && (forall i :: 0 <= i < n ==> (i < |l.stamps| <==> GoesOnTo(turns, i)))
      && (forall i :: 0 <= i < |l.publishes| ==> l.publishes[i] == l.stamps[i] + turns[i].work)
      && (l.running && !l.raised <==> GoesOnTo(turns, n))
      && (l.raised <==> |l.stamps| == |l.publishes| + 1 && turns[|l.publishes|].fails)
      && (!l.raised ==> |l.stamps| == |l.publishes|)
  {
    hide StampOf;
    if turns != [] {
      var n := |turns| - 1;
      TurnsExactly(dt, start, turns[..n]);
      OneStampATurn(dt, start, turns[..n]);
      assert forall i :: 0 <= i <= n ==> (GoesOnTo(turns[..n], i) <==> GoesOnTo(turns, i));
      assert GoesOnTo(turns, n + 1) <==> GoesOnTo(turns, n) && !turns[n].fails && !turns[n].stops;
    }
  }

  lemma {:induction false} StampsAreKept(dt: real, start: real, turns: seq<Turn>, n: nat)
    requires n <= |turns|
    ensures Streamed(dt, start, turns[..n]).stamps <= Streamed(dt, start, turns).stamps
  {
    hide StampOf;
    if n == |turns| {
      assert turns[..n] == turns;
    } else {
      var m := |turns| - 1;
      StampsAreKept(dt, start, turns[..m], n);
      assert turns[..m][..n] == turns[..n];
    }
  }

  /** The first stamp: at once, unless the clock shows less than a period; then when it shows a period. */
  lemma FirstStampExactly(dt: real, start: real, turns: seq<Turn>)
    requires turns != []
    ensures var stamps, read: real := Streamed(dt, start, turns).stamps, start + turns[0].before;
      stamps != [] && stamps[0] == (if read < dt then dt else read) + turns[0].overshoot
  {
    StampsAreKept(dt, start, turns, 1);
    var first := turns[..1];
    assert first[..|first| - 1] == [];
    assert Streamed(dt, start, first) == AfterTurn(dt, Streamed(dt, start, []), first[0]);
  }

  /** A turn in which nothing takes any time. */
  const INSTANT := Turn(0.0, 0.0, 0.0, false, false)

  lemma InstantTurn(dt: real, l: Log)
    requires dt <= 0.0 && l.running && !l.raised && l.last <= l.now
    ensures AfterTurn(dt, l, INSTANT) ==
      l.(last := l.now, stamps := l.stamps + [l.now], publishes := l.publishes + [l.now])
  {
  }

  lemma WithinSnoc(xs: seq<real>, x: real)
    ensures Within(xs + [x], x, x) == Within(xs, x, x) + 1
  {
    assert (xs + [x])[..|xs|] == xs;
  }

  /** With a negative rate nothing is paced: any number of messages can go out at one instant. */
  lemma {:induction false} NegativeRateHasNoBound(fps: int, start: real, n: nat)
    requires fps < 0 && 0.0 <= start
    ensures var l := Streamed(Period(fps).value, start, seq(n, i => INSTANT));
      l.running && !l.raised && l.now == start && l.last <= start && Within(l.publishes, start, start) == n
  {
    hide Period, AfterTurn;
    var dt := Period(fps).value;
    if n > 0 {
      NegativeRateHasNoBound(fps, start, n - 1);
      var turns := seq(n, i => INSTANT);
      assert turns[..n - 1] == seq(n - 1, i => INSTANT);
      var l := Streamed(dt, start, turns[..n - 1]);
      InstantTurn(dt, l);
      WithinSnoc(l.publishes, start);
      assert Streamed(dt, start, turns) == AfterTurn(dt, l, INSTANT);
    }
  }
}
