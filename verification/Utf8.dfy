/**
 Strings and their UTF-8 form. A string is a sequence of code points, as in Python, so it may
 hold lone surrogates, which `str.encode("utf-8")` refuses. The encoder follows section 3 of
 RFC 3629, the decoder the octet syntax of its section 4.
 */
module Utf8 {
  import opened Wrappers

  type Byte = x: int | 0 <= x < 0x100
  type CodePoint = x: int | 0 <= x < 0x11_0000
  type Text = seq<CodePoint>

  predicate IsScalar(c: CodePoint) {
    !(0xD800 <= c < 0xE000)
  }

  /** The strings that `str.encode("utf-8")` accepts. */
  predicate Encodable(s: Text) {
    forall i :: 0 <= i < |s| ==> IsScalar(s[i])
  }

  /** `c` without its low six bits, those six bits, and the two put together again. */
  function Hi(c: nat): nat { c / 0x40 }

  function Lo(c: nat): nat { c % 0x40 }

  function Join(h: nat, l: nat): nat { h * 0x40 + l }

  function EncodeOne(c: CodePoint): (b: seq<Byte>)
    requires IsScalar(c)
    ensures 1 <= |b| <= 4
  {
    if c < 0x80 then [c]
    else if c < 0x800 then [0xC0 + Hi(c), 0x80 + Lo(c)]
    else if c < 0x1_0000 then [0xE0 + Hi(Hi(c)), 0x80 + Lo(Hi(c)), 0x80 + Lo(c)]
    else [0xF0 + Hi(Hi(Hi(c))), 0x80 + Lo(Hi(Hi(c))), 0x80 + Lo(Hi(c)), 0x80 + Lo(c)]
  }

  function Encode(s: Text): (b: seq<Byte>)
    requires Encodable(s)
    ensures |s| <= |b|
  {
    if s == [] then [] else EncodeOne(s[0]) + Encode(s[1..])
  }

  predicate IsTail(b: Byte) {
    0x80 <= b < 0xC0
  }

  predicate IsUtf8Two(b: seq<Byte>) {
    |b| >= 2 && 0xC2 <= b[0] < 0xE0 && IsTail(b[1])
  }

  predicate IsUtf8Three(b: seq<Byte>) {
    |b| >= 3 && IsTail(b[2]) &&
    (   (b[0] == 0xE0 && 0xA0 <= b[1] < 0xC0)
     || (0xE1 <= b[0] < 0xED && IsTail(b[1]))
     || (b[0] == 0xED && 0x80 <= b[1] < 0xA0)
     || (0xEE <= b[0] < 0xF0 && IsTail(b[1])))
  }

  predicate IsUtf8Four(b: seq<Byte>) {
    |b| >= 4 && IsTail(b[2]) && IsTail(b[3]) &&
    (   (b[0] == 0xF0 && 0x90 <= b[1] < 0xC0)
     || (0xF1 <= b[0] < 0xF4 && IsTail(b[1]))
     || (b[0] == 0xF4 && 0x80 <= b[1] < 0x90))
  }

  /** The character at the front of `b` and the number of octets it takes. */
  function DecodeOne(b: seq<Byte>): (r: Option<(CodePoint, nat)>)
    requires b != []
    ensures r.Some? ==> 1 <= r.value.1 <= |b|
  {
    if b[0] < 0x80 then Some((b[0], 1))
    else if IsUtf8Two(b) then Some((Join(b[0] - 0xC0, b[1] - 0x80), 2))
    else if IsUtf8Three(b) then Some((Join(Join(b[0] - 0xE0, b[1] - 0x80), b[2] - 0x80), 3))
    else if IsUtf8Four(b) then
      Some((Join(Join(Join(b[0] - 0xF0, b[1] - 0x80), b[2] - 0x80), b[3] - 0x80), 4))
    else None
  }

  /** `bytes.decode("utf-8")`; `None` is `UnicodeDecodeError`. */
  function Decode(b: seq<Byte>): Option<Text>
    decreases |b|
  {
    if b == [] then Some([])
    else
      var (c, n) :- DecodeOne(b);
      var rest :- Decode(b[n..]);
      Some([c] + rest)
  }

  lemma DecodeOneInvertsEncodeOne(c: CodePoint, t: seq<Byte>)
    requires IsScalar(c)
    ensures DecodeOne(EncodeOne(c) + t) == Some((c, |EncodeOne(c)|))
  {
    var b := EncodeOne(c);
    assert (b + t)[..|b|] == b;
  }

  lemma JoinSplits(h: nat, l: nat)
    requires l < 0x40
    ensures Hi(Join(h, l)) == h && Lo(Join(h, l)) == l
  {
  }

  lemma EncodeOneInvertsThree(b: seq<Byte>)
    requires IsUtf8Three(b)
    ensures var c := Join(Join(b[0] - 0xE0, b[1] - 0x80), b[2] - 0x80);
      0x800 <= c < 0x1_0000 && IsScalar(c) && EncodeOne(c) == [b[0], b[1], b[2]]
  {
    hide Hi, Lo;
    var h := Join(b[0] - 0xE0, b[1] - 0x80);
    assert 0x20 <= h < 0x400 && !(0x360 <= h < 0x380);
    JoinSplits(b[0] - 0xE0, b[1] - 0x80);
    JoinSplits(h, b[2] - 0x80);
  }

  lemma EncodeOneInvertsFour(b: seq<Byte>)
    requires IsUtf8Four(b)
    ensures var c := Join(Join(Join(b[0] - 0xF0, b[1] - 0x80), b[2] - 0x80), b[3] - 0x80);
      0x1_0000 <= c < 0x11_0000 && EncodeOne(c) == [b[0], b[1], b[2], b[3]]
  {
    hide Hi, Lo;
    var h := Join(b[0] - 0xF0, b[1] - 0x80);
    assert 0x10 <= h < 0x110;
    JoinSplits(b[0] - 0xF0, b[1] - 0x80);
    JoinSplits(h, b[2] - 0x80);
    JoinSplits(Join(h, b[2] - 0x80), b[3] - 0x80);
  }

  lemma EncodeOneInvertsDecodeOne(b: seq<Byte>)
    requires b != [] && DecodeOne(b).Some?
    ensures var (c, n) := DecodeOne(b).value; IsScalar(c) && EncodeOne(c) == b[..n]
  {
    if b[0] < 0x80 {
    } else if IsUtf8Two(b) {
      JoinSplits(b[0] - 0xC0, b[1] - 0x80);
    } else if IsUtf8Three(b) {
      EncodeOneInvertsThree(b);
    } else {
      EncodeOneInvertsFour(b);
    }
  }

  lemma {:induction false} DecodeInvertsEncode(s: Text)
    requires Encodable(s)
    ensures Decode(Encode(s)) == Some(s)
  {
    if s != [] {
      hide EncodeOne, DecodeOne;
      var e := EncodeOne(s[0]);
      DecodeOneInvertsEncodeOne(s[0], Encode(s[1..]));
      assert Encode(s)[|e|..] == Encode(s[1..]);
      DecodeInvertsEncode(s[1..]);
      assert [s[0]] + s[1..] == s;
    }
  }

  lemma EncodeCons(c: CodePoint, rest: Text)
    requires IsScalar(c) && Encodable(rest)
    ensures Encodable([c] + rest) && Encode([c] + rest) == EncodeOne(c) + Encode(rest)
  {
    assert ([c] + rest)[1..] == rest;
  }

  lemma DecodeUncons(b: seq<Byte>) returns (c: CodePoint, n: nat, rest: Text)
    requires b != [] && Decode(b).Some?
    ensures DecodeOne(b) == Some((c, n)) && Decode(b[n..]) == Some(rest) && Decode(b).value == [c] + rest
  {
    hide DecodeOne;
    var first := DecodeOne(b).value;
    return first.0, first.1, Decode(b[first.1..]).value;
  }

  lemma {:induction false} EncodeInvertsDecode(b: seq<Byte>)
    requires Decode(b).Some?
    ensures Encodable(Decode(b).value) && Encode(Decode(b).value) == b
    decreases |b|
  {
    hide DecodeOne, EncodeOne;
    if b != [] {
      var c, n, rest := DecodeUncons(b);
      hide *;
      EncodeOneInvertsDecodeOne(b);
      EncodeInvertsDecode(b[n..]);
      EncodeCons(c, rest);
      assert b[..n] + b[n..] == b;
    }
  }

  /** The decoder accepts exactly the encoder's outputs, and undoes them. */
  lemma {:induction false} DecodesExactly(b: seq<Byte>, s: Text)
    ensures Decode(b) == Some(s) <==> Encodable(s) && Encode(s) == b
  {
    if Decode(b) == Some(s) {
      EncodeInvertsDecode(b);
    }
    if Encodable(s) && Encode(s) == b {
      DecodeInvertsEncode(s);
    }
  }

  lemma {:induction false} EncodeConcat(s: Text, t: Text)
    requires Encodable(s) && Encodable(t)
    ensures Encodable(s + t) && Encode(s + t) == Encode(s) + Encode(t)
  {
    if s == [] {
      assert s + t == t;
    } else {
      hide EncodeOne, IsScalar;
      EncodeConcat(s[1..], t);
      assert (s + t)[1..] == s[1..] + t;
    }
  }
}
