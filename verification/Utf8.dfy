/** Bytes, and the UTF-8 encoding of text (RFC 3629, section 3).  A Dafny `char` is
    a Unicode scalar value, exactly as a Rust `char` is. */
module Utf8 {

  type byte = x: int | 0 <= x < 256

  function EncodeChar(c: char): (r: seq<byte>)
    ensures 1 <= |r| <= 4
  {
    var n := c as int;
    var m := n / 64;
    var k := m / 64;
    if n < 0x80 then [n]
    else if n < 0x800 then [0xC0 + m, 0x80 + n % 64]
    else if n < 0x1_0000 then [0xE0 + k, 0x80 + m % 64, 0x80 + n % 64]
    else [0xF0 + k / 64, 0x80 + k % 64, 0x80 + m % 64, 0x80 + n % 64]
  }

  function Encode(s: string): (r: seq<byte>)
  {
    if s == "" then [] else EncodeChar(s[0]) + Encode(s[1..])
  }

  /** The first byte fixes the length of a character's encoding. */
  lemma EncodeCharLength(c: char, d: char)
    requires EncodeChar(c)[0] == EncodeChar(d)[0]
    ensures |EncodeChar(c)| == |EncodeChar(d)|
  {
  }

  /** The code point spelled by the bytes of one character. */
  function DecodeChar(b: seq<int>): (n: int)
    requires 1 <= |b| <= 4
  {
    if |b| == 1 then b[0]
    else if |b| == 2 then (b[0] - 0xC0) * 64 + (b[1] - 0x80)
    else if |b| == 3 then ((b[0] - 0xE0) * 64 + (b[1] - 0x80)) * 64 + (b[2] - 0x80)
    else (((b[0] - 0xF0) * 64 + (b[1] - 0x80)) * 64 + (b[2] - 0x80)) * 64 + (b[3] - 0x80)
  }

  lemma DecodeEncodeChar(c: char)
    ensures DecodeChar(EncodeChar(c)) == c as int
  {
  }

  predicate Continuation(b: byte) { 0x80 <= b <= 0xBF }

  /** The shape RFC 3629 asks for: the shortest of the four forms, its lead byte, continuation
      bytes after it, and six bits of the code point in each. */
  lemma EncodedForm(c: char)
    ensures |EncodeChar(c)| <= 4 && forall i :: 1 <= i < |EncodeChar(c)| ==> Continuation(EncodeChar(c)[i])
    ensures var b: seq<int>, n := EncodeChar(c), c as int;
      && (n < 0x80 <==> |b| == 1) && (0x80 <= n < 0x800 <==> |b| == 2) && (0x800 <= n < 0x1_0000 <==> |b| == 3)
      && (|b| == 1 ==> b[0] == n)
      && (|b| == 2 ==> 0xC2 <= b[0] <= 0xDF && n == (b[0] - 0xC0) * 0x40 + (b[1] - 0x80))
      && (|b| == 3 ==> 0xE0 <= b[0] <= 0xEF && n == (b[0] - 0xE0) * 0x1000 + (b[1] - 0x80) * 0x40 + (b[2] - 0x80))
      && (|b| == 4 ==> 0xF0 <= b[0] <= 0xF4)
      && (|b| == 4 ==> n == (b[0] - 0xF0) * 0x4_0000 + (b[1] - 0x80) * 0x1000 + (b[2] - 0x80) * 0x40 + (b[3] - 0x80))
  {
    DecodeEncodeChar(c);
  }

  lemma {:induction false} EncodeConcat(s: string, t: string)
    ensures Encode(s + t) == Encode(s) + Encode(t)
  {
    if s == "" {
      assert s + t == t;
    } else {
      EncodeConcat(s[1..], t);
      assert (s + t)[1..] == s[1..] + t;
    }
  }

  /** UTF-8 loses nothing: different texts have different bytes. */
  lemma {:induction false} EncodeInjective(s: string, t: string)
    requires Encode(s) == Encode(t)
    ensures s == t
  {
    if s != "" && t != "" {
      var x, y := EncodeChar(s[0]), EncodeChar(t[0]);
      assert Encode(s)[0] == x[0] && Encode(t)[0] == y[0];
      EncodeCharLength(s[0], t[0]);
      assert Encode(s)[..|x|] == x && Encode(t)[..|y|] == y;
      DecodeEncodeChar(s[0]);
      DecodeEncodeChar(t[0]);
      assert Encode(s)[|x|..] == Encode(s[1..]) && Encode(t)[|y|..] == Encode(t[1..]);
      EncodeInjective(s[1..], t[1..]);
    }
  }
}
