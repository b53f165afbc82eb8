/** Bytes and byte strings. */
module Bytes {
  newtype Byte = x: int | 0 <= x < 256

  type Text = seq<Byte>

  /** The bytes of a text in ASCII. */
  function Ascii(s: string): (r: Text)
    requires forall i :: 0 <= i < |s| ==> s[i] < 128 as char
    ensures |r| == |s| && forall i :: 0 <= i < |s| ==> r[i] as int == s[i] as int
  {
    seq(|s|, i requires 0 <= i < |s| => s[i] as int as Byte)
  }
}
