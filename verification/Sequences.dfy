/** What is said of sequences of any kind. */
module Sequences {
  predicate NoRepeats<T(==)>(s: seq<T>) {
    forall i, j :: 0 <= i < j < |s| ==> s[i] != s[j]
  }

  /** The first `x` is gone; what was before and behind it stays, in order. */
  ghost predicate TakenOut<T>(s: seq<T>, x: T, rest: seq<T>) {
    exists i: nat :: TakenOutAt(s, x, rest, i)
  }

  ghost predicate TakenOutAt<T>(s: seq<T>, x: T, rest: seq<T>, i: nat) {
    i < |s| && s[i] == x && x !in s[..i] && rest == s[..i] + s[i + 1..]
  }

  lemma TakenOutOfOne<T>(s: seq<T>, x: T, rest: seq<T>)
    requires |s| <= 1 && TakenOut(s, x, rest)
    ensures rest == []
  {
  }

  /** `list.remove` of an element that is there. */
  function WithoutFirst<T(==)>(s: seq<T>, x: T): (rest: seq<T>)
    requires x in s
    ensures TakenOut(s, x, rest)
  {
    if s[0] == x then
      assert TakenOutAt(s, x, s[1..], 0);
      s[1..]
    else
      var rest := WithoutFirst(s[1..], x);
      TakenOutBehind(s, x, rest);
      [s[0]] + rest
  }

  lemma TakenOutBehind<T>(s: seq<T>, x: T, rest: seq<T>)
    requires s != [] && s[0] != x && TakenOut(s[1..], x, rest)
    ensures TakenOut(s, x, [s[0]] + rest)
  {
    var i: nat :| TakenOutAt(s[1..], x, rest, i);
    SplitsBehind(s, i);
    Associative([s[0]], s[1..][..i], s[1..][i + 1..]);
    assert x !in [s[0]] + s[1..][..i];
    assert TakenOutAt(s, x, [s[0]] + rest, i + 1);
  }

  lemma Associative<T>(a: seq<T>, b: seq<T>, c: seq<T>)
    ensures a + b + c == a + (b + c)
  {
  }

  lemma SplitsBehind<T>(s: seq<T>, i: nat)
    requires i < |s| - 1
    ensures s[..i + 1] == [s[0]] + s[1..][..i] && s[i + 2..] == s[1..][i + 1..] && s[i + 1] == s[1..][i]
  {
  }

  /** Where nothing repeats, none is left. */
  lemma TakenOutOnce<T>(s: seq<T>, x: T, rest: seq<T>)
    requires NoRepeats(s) && TakenOut(s, x, rest)
    ensures NoRepeats(rest) && x !in rest
  {
    var i: nat :| TakenOutAt(s, x, rest, i);
    assert forall j :: 0 <= j < |rest| ==> rest[j] == if j < i then s[j] else s[j + 1];
  }
}
