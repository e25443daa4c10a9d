/** Which octets a character gets: sections 1 and 3 of RFC 3629, apart from the encoder that computes them. */
module Utf8Laws {
  import opened Utf8

  /** What one, two, three or four octets stand for: the free bits of each, the first octet's ahead. */
  function ValueOf(b: seq<int>): int
    requires 1 <= |b| <= 4
  {
    match |b|
    case 1 => b[0]
    case 2 => (b[0] - 192) * 64 + (b[1] - 128)
    case 3 => ((b[0] - 224) * 64 + (b[1] - 128)) * 64 + (b[2] - 128)
    case _ => (((b[0] - 240) * 64 + (b[1] - 128)) * 64 + (b[2] - 128)) * 64 + (b[3] - 128)
  }

  /** The octets are as few as the value allows, stand for it, and only the first one starts a character. */
  predicate Spells(b: seq<Byte>, c: CodePoint) {
    && |b| == (if c < 128 then 1 else if c < 2048 then 2 else if c < 65536 then 3 else 4)
    && 1 <= |b| <= 4 && ValueOf(b) == c && forall i :: 0 < i < |b| ==> 128 <= b[i] < 192
  }

  lemma EncodedValue(c: CodePoint)
    requires IsScalar(c)
    ensures Spells(EncodeOne(c), c)
  {
  }

  /** Whatever is decoded has the value of the octets it was decoded from. */
  lemma DecodedValue(b: seq<Byte>)
    requires b != [] && DecodeOne(b).Some?
    ensures var (c, n) := DecodeOne(b).value; 1 <= n <= 4 && n <= |b| && c == ValueOf(b[..n])
  {
    hide EncodeOne;
    EncodeOneInvertsDecodeOne(b);
    EncodedValue(DecodeOne(b).value.0);
  }

  // ---------- order ----------

  /** `a` and `b` part at `k`, and `a` comes first. */
  predicate PartAt(a: seq<int>, b: seq<int>, k: nat) {
    k <= |a| && k < |b| && a[..k] == b[..k] && (k == |a| || a[k] < b[k])
  }

  /** Lexicographic order. */
  ghost predicate Before(a: seq<int>, b: seq<int>) {
    exists k: nat :: PartAt(a, b, k)
  }

  /** Characters and their octets have one order; neither encoding is a front of the other. */
  lemma EncodeOneOrdered(c: CodePoint, d: CodePoint) returns (k: nat)
    requires IsScalar(c) && IsScalar(d) && c < d
    ensures k < |EncodeOne(c)| && PartAt(EncodeOne(c), EncodeOne(d), k)
  {
    var a, b := EncodeOne(c), EncodeOne(d);
    EncodedValue(c);
    EncodedValue(d);
    hide EncodeOne, Hi, Lo;
    k := 0;
    if a[0] == b[0] {
      SameFirst(a, b, c, d);
      k := 1;
      if a[1] == b[1] {
        k := 2;
        if a[2] == b[2] {
          k := 3;
        }
      }
    } else {
      FirstOrders(a, b, c, d);
    }
  }

  lemma SameFirst(a: seq<Byte>, b: seq<Byte>, c: CodePoint, d: CodePoint)
    requires Spells(a, c) && Spells(b, d) && c < d && a[0] == b[0]
    ensures |a| == |b| > 1
    ensures a[1] < b[1] || (a[1] == b[1] && |a| > 2 && (a[2] < b[2] || (a[2] == b[2] && |a| > 3 && a[3] < b[3])))
  {
  }

  lemma FirstOrders(a: seq<Byte>, b: seq<Byte>, c: CodePoint, d: CodePoint)
    requires Spells(a, c) && Spells(b, d) && c < d && a[0] != b[0]
    ensures a[0] < b[0]
  {
  }

  lemma PartLater(p: seq<int>, a: seq<int>, b: seq<int>, k: nat)
    requires PartAt(a, b, k)
    ensures PartAt(p + a, p + b, |p| + k)
  {
    assert (p + a)[..|p| + k] == p + a[..k] && (p + b)[..|p| + k] == p + b[..k];
  }

  lemma PartSooner(a: seq<int>, x: seq<int>, b: seq<int>, y: seq<int>, k: nat)
    requires PartAt(a, b, k) && k < |a|
    ensures PartAt(a + x, b + y, k)
  {
    assert (a + x)[..k] == a[..k] && (b + y)[..k] == b[..k];
  }

  /** Texts in the order of their code points have encodings in the same order. */
  lemma EncodeOrdered(s: Text, t: Text)
    requires Encodable(s) && Encodable(t) && Before(s, t)
    ensures Before(Encode(s), Encode(t))
  {
    var k: nat :| PartAt(s, t, k);
    assert s == s[..k] + s[k..] && t == t[..k] + t[k..];
    EncodeConcat(s[..k], s[k..]);
    EncodeConcat(t[..k], t[k..]);
    var p, a, b := Encode(s[..k]), Encode(s[k..]), Encode(t[k..]);
    assert b == EncodeOne(t[k]) + Encode(t[k..][1..]);
    hide Encode, EncodeOne, Encodable;
    if k == |s| {
      assert s[k..] == [] && a == [] by { NothingEncoded(); }
      assert PartAt(a, b, 0);
      PartLater(p, a, b, 0);
    } else {
      FrontEncoded(s[k..]);
      FrontEncoded(t[k..]);
      var j := EncodeOneOrdered(s[k], t[k]);
      PartSooner(EncodeOne(s[k]), Encode(s[k..][1..]), EncodeOne(t[k]), Encode(t[k..][1..]), j);
      PartLater(p, a, b, j);
    }
  }

  lemma NothingEncoded()
    ensures Encode([]) == []
  {
  }

  lemma FrontEncoded(s: Text)
    requires Encodable(s) && s != []
    ensures IsScalar(s[0]) && Encodable(s[1..]) && Encode(s) == EncodeOne(s[0]) + Encode(s[1..])
  {
  }
}
