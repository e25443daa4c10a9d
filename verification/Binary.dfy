/** Big-endian integers of `struct`: `>H`, `>I` and the signed `!i`. */
module Binary {
  import opened Utf8

  const U16_END := 0x1_0000
  const U32_END := 0x1_0000_0000
  const I32_END := 0x8000_0000

  function U16(v: int): (b: seq<Byte>)
    requires 0 <= v < U16_END
    ensures |b| == 2
  {
    [v / 0x100, v % 0x100]
  }

  function U32(v: int): (b: seq<Byte>)
    requires 0 <= v < U32_END
    ensures |b| == 4
  {
    U16(v / U16_END) + U16(v % U16_END)
  }

  /** Two's complement. */
  function I32(v: int): (b: seq<Byte>)
    requires -I32_END <= v < I32_END
    ensures |b| == 4
  {
    U32(if v < 0 then v + U32_END else v)
  }

  function FromU16(b: seq<Byte>): (v: int)
    requires |b| == 2
    ensures 0 <= v < U16_END
  {
    b[0] as int * 0x100 + b[1]
  }

  function FromU32(b: seq<Byte>): (v: int)
    requires |b| == 4
    ensures 0 <= v < U32_END
  {
    FromU16(b[..2]) * U16_END + FromU16(b[2..])
  }

  function FromI32(b: seq<Byte>): (v: int)
    requires |b| == 4
    ensures -I32_END <= v < I32_END
  {
    var u := FromU32(b);
    if u < I32_END then u else u - U32_END
  }

  lemma U16Exactly(b: seq<Byte>, v: int)
    requires |b| == 2
    ensures FromU16(b) == v <==> 0 <= v < U16_END && U16(v) == b
  {
    if FromU16(b) == v {
      assert U16(v)[0] == b[0] && U16(v)[1] == b[1];
    }
  }

  lemma U32Exactly(b: seq<Byte>, v: int)
    requires |b| == 4
    ensures FromU32(b) == v <==> 0 <= v < U32_END && U32(v) == b
  {
    if 0 <= v < U32_END {
      U16Exactly(b[..2], v / U16_END);
      U16Exactly(b[2..], v % U16_END);
      assert b == b[..2] + b[2..];
    }
  }

  lemma I32Exactly(b: seq<Byte>, v: int)
    requires |b| == 4
    ensures FromI32(b) == v <==> -I32_END <= v < I32_END && I32(v) == b
  {
    U32Exactly(b, if v < 0 then v + U32_END else v);
  }
}
