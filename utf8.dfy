/**
 * Bytes and the UTF-8 encoding Python applies with `str.encode('utf-8')`
 * (the server encodes every response with it and measures Content-Length
 * with it; the proxy encodes the request it forwards).
 */
module Utf8 {

  type byte = x: int | 0 <= x < 256

  type Bytes = seq<byte>

  /** The UTF-8 encoding of one Unicode scalar value. */
  function EncodeChar(c: char): (r: Bytes)
    ensures 1 <= |r| <= 4
    ensures |r| == 1 <==> c as int < 0x80
    ensures c as int < 0x80 ==> r == [c as int]
    ensures c as int >= 0x80 ==> forall i :: 0 <= i < |r| ==> r[i] >= 0x80
  {
    var n := c as int;
    if n < 0x80 then [n]
    else if n < 0x800 then [0xC0 + n / 0x40, 0x80 + n % 0x40]
    else if n < 0x1_0000 then [0xE0 + n / 0x1000, 0x80 + (n / 0x40) % 0x40, 0x80 + n % 0x40]
    else [0xF0 + n / 0x4_0000, 0x80 + (n / 0x1000) % 0x40, 0x80 + (n / 0x40) % 0x40, 0x80 + n % 0x40]
  }

  /** Python's `s.encode('utf-8')`. */
  function Encode(s: string): (r: Bytes)
    ensures |r| >= |s|
    ensures |r| == |s| <==> forall i :: 0 <= i < |s| ==> s[i] as int < 0x80
  {
    if s == [] then [] else EncodeChar(s[0]) + Encode(s[1..])
  }

  predicate IsAscii(s: string) {
    forall i :: 0 <= i < |s| ==> s[i] as int < 0x80
  }

  /** Encoding a concatenation encodes the parts one after the other. */
  lemma {:induction false} EncodeAppend(a: string, b: string)
    ensures Encode(a + b) == Encode(a) + Encode(b)
    decreases |a|
  {
    if a != [] {
      assert (a + b)[1..] == a[1..] + b;
      EncodeAppend(a[1..], b);
    } else {
      assert a + b == b;
    }
  }

  /** An ASCII string encodes to its own character codes. */
  lemma {:induction false} EncodeAscii(s: string)
    requires IsAscii(s)
    ensures |Encode(s)| == |s|
    ensures forall i :: 0 <= i < |s| ==> Encode(s)[i] == s[i] as int
    decreases |s|
  {
    if s != [] {
      EncodeAscii(s[1..]);
    }
  }

  /** A string without the ASCII character `c` encodes to bytes without its code. */
  lemma {:induction false} EncodeOmits(s: string, c: char)
    requires c as int < 0x80 && c !in s
    ensures c as int !in Encode(s)
    decreases |s|
  {
    if s != [] {
      assert s[0] != c;
      EncodeOmits(s[1..], c);
    }
  }

  /** The byte values of an ASCII string literal. */
  function AsciiBytes(s: string): (r: Bytes)
    requires IsAscii(s)
    ensures r == Encode(s)
  {
    EncodeAscii(s);
    seq(|s|, i requires 0 <= i < |s| => s[i] as int)
  }
}
