/** UTF-8 as the platform uses it: `TextEncoder`, `Blob` sizes and the
    "UTF-8 decode without BOM" step of the WHATWG URL Standard, whose decoder
    replaces every maximal ill-formed subsequence by U+FFFD. */
module Utf8 {

  type Byte = b: int | 0 <= b < 256

  const Replacement: char := '�'

  /** The encoding of one scalar value: one to four bytes. */
  function EncodeChar(c: char): (bs: seq<Byte>)
    ensures 1 <= |bs| <= 4
    ensures (bs[0] < 0x80) <==> (c as int < 0x80)
    ensures c as int < 0x80 ==> bs == [c as int]
    ensures forall i :: 0 < i < |bs| ==> 0x80 <= bs[i] <= 0xBF
    ensures 0x80 <= bs[0] ==> 0xC2 <= bs[0]
  {
    var n := c as int;
    if n < 0x80 then [n]
    else if n < 0x800 then [0xC0 + n / 0x40, 0x80 + n % 0x40]
    else if n < 0x10000 then [0xE0 + n / 0x1000, 0x80 + (n / 0x40) % 0x40, 0x80 + n % 0x40]
    else [0xF0 + n / 0x40000, 0x80 + (n / 0x1000) % 0x40, 0x80 + (n / 0x40) % 0x40, 0x80 + n % 0x40]
  }

  /** `new TextEncoder().encode(s)`. */
  function Encode(s: string): (bs: seq<Byte>)
    ensures |bs| >= |s|
  {
    if |s| == 0 then [] else EncodeChar(s[0]) + Encode(s[1..])
  }

  /** The byte size of a text, as `new Blob([s]).size` reports it. */
  function Size(s: string): nat {
    |Encode(s)|
  }

  predicate InRange(b: Byte, lo: int, hi: int) {
    lo <= b <= hi
  }

  /** The first scalar value decoded from `bs` and the number of bytes it used;
      U+FFFD and the length of the maximal ill-formed prefix on an error. */
  function DecodeNext(bs: seq<Byte>): (r: (char, nat))
    requires |bs| > 0
    ensures 1 <= r.1 <= |bs|
  {
    var b0: int := bs[0];
    var b1: int := if |bs| >= 2 then bs[1] else 0;
    var b2: int := if |bs| >= 3 then bs[2] else 0;
    var b3: int := if |bs| >= 4 then bs[3] else 0;
    if b0 < 0x80 then (b0 as char, 1)
    else if 0xC2 <= b0 <= 0xDF then
      if |bs| >= 2 && InRange(bs[1], 0x80, 0xBF)
      then (((b0 - 0xC0) * 0x40 + (b1 - 0x80)) as char, 2)
      else (Replacement, 1)
    else if 0xE0 <= b0 <= 0xEF then
      var lo := if b0 == 0xE0 then 0xA0 else 0x80;
      var hi := if b0 == 0xED then 0x9F else 0xBF;
      if !(|bs| >= 2 && InRange(bs[1], lo, hi)) then (Replacement, 1)
      else if !(|bs| >= 3 && InRange(bs[2], 0x80, 0xBF)) then (Replacement, 2)
      else (((b0 - 0xE0) * 0x1000 + (b1 - 0x80) * 0x40 + (b2 - 0x80)) as char, 3)
    else if 0xF0 <= b0 <= 0xF4 then
      var lo := if b0 == 0xF0 then 0x90 else 0x80;
      var hi := if b0 == 0xF4 then 0x8F else 0xBF;
      if !(|bs| >= 2 && InRange(bs[1], lo, hi)) then (Replacement, 1)
      else if !(|bs| >= 3 && InRange(bs[2], 0x80, 0xBF)) then (Replacement, 2)
      else if !(|bs| >= 4 && InRange(bs[3], 0x80, 0xBF)) then (Replacement, 3)
      else (((b0 - 0xF0) * 0x40000 + (b1 - 0x80) * 0x1000 + (b2 - 0x80) * 0x40 + (b3 - 0x80)) as char, 4)
    else (Replacement, 1)
  }

  /** UTF-8 decode without BOM, with replacement. */
  function Decode(bs: seq<Byte>): string
    decreases |bs|
  {
    if |bs| == 0 then ""
    else
      var (c, used) := DecodeNext(bs);
      [c] + Decode(bs[used..])
  }

  lemma DecodeNextTwo(c: char, rest: seq<Byte>)
    requires 0x80 <= c as int < 0x800
    ensures DecodeNext(EncodeChar(c) + rest) == (c, 2)
  {
    var n := c as int;
    var bs := EncodeChar(c) + rest;
    assert bs[0] == 0xC0 + n / 0x40 && bs[1] == 0x80 + n % 0x40;
    assert (n / 0x40) * 0x40 + n % 0x40 == n;
  }

  lemma DecodeNextThree(c: char, rest: seq<Byte>)
    requires 0x800 <= c as int < 0x10000
    ensures DecodeNext(EncodeChar(c) + rest) == (c, 3)
  {
    var n := c as int;
    var bs := EncodeChar(c) + rest;
    var q := n / 0x40;
    var p := n / 0x1000;
    assert p == q / 0x40;
    assert q * 0x40 + n % 0x40 == n;
    assert p * 0x40 + q % 0x40 == q;
    assert bs[0] == 0xE0 + p && bs[1] == 0x80 + q % 0x40 && bs[2] == 0x80 + n % 0x40;
    assert p == 0 ==> q % 0x40 >= 0x20;
    assert p == 0xD ==> q % 0x40 < 0x20;
  }

  lemma DecodeNextFour(c: char, rest: seq<Byte>)
    requires 0x10000 <= c as int
    ensures DecodeNext(EncodeChar(c) + rest) == (c, 4)
  {
    var n := c as int;
    var bs := EncodeChar(c) + rest;
    var q := n / 0x40;
    var p := q / 0x40;
    var t := p / 0x40;
    assert n / 0x1000 == p;
    assert n / 0x40000 == t;
    assert q * 0x40 + n % 0x40 == n;
    assert p * 0x40 + q % 0x40 == q;
    assert t * 0x40 + p % 0x40 == p;
    assert bs[0] == 0xF0 + t && bs[1] == 0x80 + p % 0x40;
    assert bs[2] == 0x80 + q % 0x40 && bs[3] == 0x80 + n % 0x40;
    assert t == 0 ==> p % 0x40 >= 0x10;
    assert t == 4 ==> p % 0x40 < 0x10;
  }

  /** Every encoded character is decoded back from the front of any byte string. */
  lemma DecodeNextEncoded(c: char, rest: seq<Byte>)
    ensures DecodeNext(EncodeChar(c) + rest) == (c, |EncodeChar(c)|)
  {
    var n := c as int;
    if n < 0x80 {
    } else if n < 0x800 {
      DecodeNextTwo(c, rest);
    } else if n < 0x10000 {
      DecodeNextThree(c, rest);
    } else {
      DecodeNextFour(c, rest);
    }
  }

  /** Decoding undoes encoding: every string survives the round trip. */
  lemma {:induction false} DecodeEncode(s: string)
    ensures Decode(Encode(s)) == s
    decreases |s|
  {
    if |s| > 0 {
      var e := EncodeChar(s[0]);
      DecodeNextEncoded(s[0], Encode(s[1..]));
      assert (e + Encode(s[1..]))[|e|..] == Encode(s[1..]);
      DecodeEncode(s[1..]);
      assert s == [s[0]] + s[1..];
    }
  }

  /** An ASCII character is encoded as itself and only by itself: its byte never
      occurs inside the encoding of another character. */
  lemma {:induction false} AsciiByteOccurrence(s: string, c: char)
    requires c as int < 0x80
    ensures (c as int in Encode(s)) <==> (c in s)
    decreases |s|
  {
    if |s| > 0 {
      AsciiByteOccurrence(s[1..], c);
      assert c in s <==> s[0] == c || c in s[1..];
    }
  }

  /** An all-ASCII text has one byte per character. */
  lemma {:induction false} AsciiSize(s: string)
    requires forall i :: 0 <= i < |s| ==> s[i] as int < 0x80
    ensures Size(s) == |s|
    decreases |s|
  {
    if |s| > 0 { AsciiSize(s[1..]); }
  }
}
