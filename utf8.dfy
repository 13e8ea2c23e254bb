/**
 * UTF-8, the encoding of Rust's `str`: `as_bytes()` and `len()` are taken
 * over this encoding (section 3 of RFC 3629).
 */
module Utf8 {

  type Byte = x: int | 0 <= x < 256

  /** The one to four bytes of a Unicode scalar value. */
  function EncodeChar(c: char): (bs: seq<Byte>)
    ensures 1 <= |bs| <= 4
    ensures (|bs| == 1) <==> (c as int < 0x80)
  {
    var n := c as int;
    if n < 0x80 then [n]
    else if n < 0x800 then [0xC0 + n / 64, 0x80 + n % 64]
    else if n < 0x10000 then [0xE0 + n / 4096, 0x80 + (n / 64) % 64, 0x80 + n % 64]
    else [0xF0 + n / 262144, 0x80 + (n / 4096) % 64, 0x80 + (n / 64) % 64, 0x80 + n % 64]
  }

  /** `s.as_bytes()`. */
  function Encode(s: string): (bs: seq<Byte>)
    ensures |bs| >= |s|
    ensures |bs| == 0 <==> |s| == 0
  {
    if |s| == 0 then [] else EncodeChar(s[0]) + Encode(s[1..])
  }

  /** An ASCII string's byte length is its character count. */
  lemma {:induction false} AsciiLength(s: string)
    requires forall i :: 0 <= i < |s| ==> s[i] as int < 0x80
    ensures |Encode(s)| == |s|
  {
    if |s| > 0 {
      AsciiLength(s[1..]);
    }
  }
}
