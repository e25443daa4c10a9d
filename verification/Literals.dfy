/** The program's string constants as text. */
module Literals {
  import opened Utf8

  /** A Dafny character is never a surrogate, so every literal has an encoding. */
  function Literal(s: string): (t: Text)
    ensures Encodable(t) && |t| == |s|
  {
    seq(|s|, i requires 0 <= i < |s| => s[i] as int)
  }
}
