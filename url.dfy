/** The URL helpers of the platform that the signer relies on: `encodeURI`,
    `url.split('?')` and `URLSearchParams`, whose parser is the
    application/x-www-form-urlencoded parser of section 5.1 of the WHATWG URL
    Standard. */
module Url {
  import opened Wrappers
  import opened Text
  import Utf8

  type Byte = Utf8.Byte

  /** The characters `encodeURI` leaves alone. */
  predicate Unescaped(c: char) {
    ('A' <= c <= 'Z') || ('a' <= c <= 'z') || ('0' <= c <= '9') || c in ";,/?:@&=+$-_.!~*'()#"
  }

  function HexDigit(d: nat): char
    requires d < 16
  {
    "0123456789ABCDEF"[d]
  }

  /** `%XX` with upper-case hexadecimal digits. */
  function PercentByte(b: Byte): (r: string)
    ensures |r| == 3 && r[0] == '%'
  {
    ['%', HexDigit(b / 16), HexDigit(b % 16)]
  }

  function PercentBytes(bs: seq<Byte>): (r: string)
    ensures |r| == 3 * |bs|
  {
    if |bs| == 0 then "" else PercentByte(bs[0]) + PercentBytes(bs[1..])
  }

  /** `encodeURI(s)`: every character outside the unescaped set is replaced by
      the percent-escapes of its UTF-8 bytes. */
  function EncodeURI(s: string): (r: string)
    ensures |r| >= |s|
  {
    if |s| == 0 then ""
    else (if Unescaped(s[0]) then [s[0]] else PercentBytes(Utf8.EncodeChar(s[0]))) + EncodeURI(s[1..])
  }

  /** `encodeURI` changes a text exactly when the text holds a character it escapes. */
  lemma {:induction false} EncodeURIUnchanged(s: string)
    ensures EncodeURI(s) == s <==> forall i :: 0 <= i < |s| ==> Unescaped(s[i])
  {
    EncodeURIGrows(s);
    if forall i :: 0 <= i < |s| ==> Unescaped(s[i]) {
      EncodeURIKeeps(s);
    }
  }

  /** A text with a character that `encodeURI` escapes comes out strictly longer. */
  lemma {:induction false} EncodeURIGrows(s: string)
    ensures (exists i :: 0 <= i < |s| && !Unescaped(s[i])) ==> |EncodeURI(s)| > |s|
    decreases |s|
  {
    if |s| > 0 {
      EncodeURIGrows(s[1..]);
      if !Unescaped(s[0]) {
        assert |EncodeURI(s)| == 3 * |Utf8.EncodeChar(s[0])| + |EncodeURI(s[1..])|;
      } else if exists i :: 0 <= i < |s| && !Unescaped(s[i]) {
        var i :| 0 <= i < |s| && !Unescaped(s[i]);
        assert !Unescaped(s[1..][i - 1]);
      }
    }
  }

  /** A text without such a character comes out unchanged. */
  lemma {:induction false} EncodeURIKeeps(s: string)
    requires forall i :: 0 <= i < |s| ==> Unescaped(s[i])
    ensures EncodeURI(s) == s
    decreases |s|
  {
    if |s| > 0 {
      assert forall i :: 0 <= i < |s[1..]| ==> Unescaped(s[1..][i]) by {
        forall i | 0 <= i < |s[1..]| ensures Unescaped(s[1..][i]) {
          assert s[1..][i] == s[i + 1];
        }
      }
      EncodeURIKeeps(s[1..]);
      assert s == [s[0]] + s[1..];
    }
  }

  predicate IsHexByte(b: Byte) {
    (0x30 <= b <= 0x39) || (0x41 <= b <= 0x46) || (0x61 <= b <= 0x66)
  }

  function HexValue(b: Byte): (v: nat)
    requires IsHexByte(b)
    ensures v < 16
  {
    if b <= 0x39 then b - 0x30 else if b <= 0x46 then b - 0x41 + 10 else b - 0x61 + 10
  }

  /** Percent-decoding of a byte sequence: `%` followed by two hexadecimal digits
      becomes the byte they denote; any other byte, a lone `%` included, stays. */
  function PercentDecode(bs: seq<Byte>): (r: seq<Byte>)
    ensures |r| <= |bs|
  {
    if |bs| == 0 then []
    else if bs[0] == 0x25 && |bs| >= 3 && IsHexByte(bs[1]) && IsHexByte(bs[2])
    then [HexValue(bs[1]) * 16 + HexValue(bs[2])] + PercentDecode(bs[3..])
    else [bs[0]] + PercentDecode(bs[1..])
  }

  /** Without a `%` byte, percent-decoding is the identity. */
  lemma {:induction false} PercentDecodeNoPercent(bs: seq<Byte>)
    requires 0x25 !in bs
    ensures PercentDecode(bs) == bs
  {
    if |bs| > 0 {
      assert bs[1..] == bs[1..] && 0x25 !in bs[1..];
      PercentDecodePlain(bs);
      PercentDecodeNoPercent(bs[1..]);
    }
  }

  lemma PercentDecodePlain(bs: seq<Byte>)
    requires |bs| > 0 && bs[0] != 0x25
    ensures PercentDecode(bs) == [bs[0]] + PercentDecode(bs[1..])
  {
  }

  /** The text of an escape, as bytes. */
  lemma EncodePercentByte(b: Byte)
    ensures Utf8.Encode(PercentByte(b)) == [0x25, HexDigit(b / 16) as int, HexDigit(b % 16) as int]
  {
    var r := PercentByte(b);
    var h, l := HexDigit(b / 16), HexDigit(b % 16);
    HexDigitValue(b / 16);
    HexDigitValue(b % 16);
    assert r[1..] == [h, l] && [h, l][1..] == [l];
    assert Utf8.Encode([l]) == [l as int];
    assert Utf8.Encode([h, l]) == [h as int] + Utf8.Encode([l]);
  }

  lemma HexDigitValue(d: nat)
    requires d < 16
    ensures HexDigit(d) as int < 0x80
    ensures IsHexByte(HexDigit(d) as int) && HexValue(HexDigit(d) as int) == d
  {
  }

  lemma {:induction false} EncodeAppend(a: string, b: string)
    ensures Utf8.Encode(a + b) == Utf8.Encode(a) + Utf8.Encode(b)
    decreases |a|
  {
    if |a| > 0 {
      assert (a + b)[1..] == a[1..] + b;
      EncodeAppend(a[1..], b);
    } else {
      assert a + b == b;
    }
  }

  /** Percent-decoding undoes the escapes that `encodeURI` writes: any byte sequence
      written out as `%XX` escapes decodes back to itself. */
  lemma {:induction false} PercentDecodeBytes(bs: seq<Byte>)
    ensures PercentDecode(Utf8.Encode(PercentBytes(bs))) == bs
    decreases |bs|
  {
    if |bs| > 0 {
      var tail := Utf8.Encode(PercentBytes(bs[1..]));
      EncodeAppend(PercentByte(bs[0]), PercentBytes(bs[1..]));
      PercentDecodeEscape(bs[0], tail);
      PercentDecodeBytes(bs[1..]);
      assert bs == [bs[0]] + bs[1..];
    }
  }

  /** One escape at the front decodes to its byte. */
  lemma PercentDecodeEscape(b: Byte, tail: seq<Byte>)
    ensures PercentDecode(Utf8.Encode(PercentByte(b)) + tail) == [b] + PercentDecode(tail)
  {
    EncodePercentByte(b);
    HexDigitValue(b / 16);
    HexDigitValue(b % 16);
    var all := Utf8.Encode(PercentByte(b)) + tail;
    assert all[3..] == tail;
  }

  /** The `+` to space replacement of the form parser. */
  function PlusToSpace(s: string): (r: string)
    ensures |r| == |s|
    ensures forall i :: 0 <= i < |s| ==> r[i] == (if s[i] == '+' then ' ' else s[i])
  {
    seq(|s|, i requires 0 <= i < |s| => if s[i] == '+' then ' ' else s[i])
  }

  /** One name or value of the form parser: `+` becomes a space, then the text is
      percent-decoded as UTF-8 bytes and decoded back with replacement. */
  function DecodeComponent(s: string): string {
    Utf8.Decode(PercentDecode(Utf8.Encode(PlusToSpace(s))))
  }

  /** A component without `%` and `+` decodes to itself. */
  lemma DecodeComponentPlain(s: string)
    requires '%' !in s && '+' !in s
    ensures DecodeComponent(s) == s
  {
    assert PlusToSpace(s) == s;
    Utf8.AsciiByteOccurrence(s, '%');
    PercentDecodeNoPercent(Utf8.Encode(s));
    Utf8.DecodeEncode(s);
  }

  /** `%XX` escapes of the UTF-8 bytes of any text decode back to that text. */
  lemma DecodeComponentEscaped(s: string)
    ensures DecodeComponent(PercentBytes(Utf8.Encode(s))) == s
  {
    var e := PercentBytes(Utf8.Encode(s));
    assert '+' !in e by {
      PercentBytesNoPlus(Utf8.Encode(s));
    }
    assert PlusToSpace(e) == e;
    PercentDecodeBytes(Utf8.Encode(s));
    Utf8.DecodeEncode(s);
  }

  lemma {:induction false} PercentBytesNoPlus(bs: seq<Byte>)
    ensures '+' !in PercentBytes(bs)
  {
    if |bs| > 0 {
      PercentBytesNoPlus(bs[1..]);
      var d := "0123456789ABCDEF";
      assert forall k :: 0 <= k < 16 ==> d[k] != '+';
    }
  }

  /** One `name=value` piece: the name is the text before the first `=`, the value
      everything after it (empty when there is no `=`). */
  function ParsePair(piece: string): (string, string) {
    var (name, value) := SplitFirst(piece, '=');
    (DecodeComponent(name), DecodeComponent(value.GetOr("")))
  }

  /** The entries of one piece: none for an empty piece, otherwise its pair. */
  function PieceEntries(piece: string): seq<(string, string)> {
    if piece == "" then [] else [ParsePair(piece)]
  }

  /** `s.flatMap(f)`. */
  function FlatMap<T, U>(s: seq<T>, f: T -> seq<U>): seq<U> {
    if |s| == 0 then [] else f(s[0]) + FlatMap(s[1..], f)
  }

  lemma {:induction false} FlatMapAppend<T, U>(a: seq<T>, b: seq<T>, f: T -> seq<U>)
    ensures FlatMap(a + b, f) == FlatMap(a, f) + FlatMap(b, f)
    decreases |a|
  {
    if |a| == 0 {
      assert a + b == b;
    } else {
      assert (a + b)[0] == a[0];
      assert (a + b)[1..] == a[1..] + b;
      FlatMapAppend(a[1..], b, f);
    }
  }

  lemma FlatMapSingle<T, U>(x: T, f: T -> seq<U>)
    ensures FlatMap([x], f) == f(x)
  {
    assert [x][1..] == [];
  }

  function ParsePieces(pieces: seq<string>): seq<(string, string)> {
    FlatMap(pieces, PieceEntries)
  }

  /** `[...new URLSearchParams(search).entries()]` for a `search` that does not
      start with `?`: the non-empty `&`-separated pieces, in order. */
  function ParseQuery(search: string): seq<(string, string)> {
    ParsePieces(Split(search, '&'))
  }

  /** `query.has(name)`. */
  predicate HasParam(query: seq<(string, string)>, name: string) {
    exists i :: 0 <= i < |query| && query[i].0 == name
  }

  /** Each non-empty piece becomes exactly one entry. */
  lemma ParsePiecesAppend(a: seq<string>, b: seq<string>)
    ensures ParsePieces(a + b) == ParsePieces(a) + ParsePieces(b)
  {
    FlatMapAppend(a, b, PieceEntries);
  }

  /** A query that is a single `name=value` piece yields exactly that parameter. */
  lemma SingleParam(name: string, value: string)
    requires name != "" && '&' !in name && '=' !in name && '&' !in value
    ensures ParseQuery(name + "=" + value) == [(DecodeComponent(name), DecodeComponent(value))]
  {
    var piece := name + "=" + value;
    assert '&' !in piece by {
      forall i | 0 <= i < |piece| ensures piece[i] != '&' {
        if i < |name| { assert piece[i] == name[i]; }
        else if i > |name| { assert piece[i] == value[i - |name| - 1]; }
      }
    }
    SplitNone(piece, '&');
    var (n, v) := SplitFirst(piece, '=');
    FirstSplitAt(name, value, '=');
    FlatMapSingle(piece, PieceEntries);
  }

  /** One more `&name=value` piece adds exactly that parameter at the end. */
  lemma AppendParam(search: string, name: string, value: string)
    requires name != "" && '&' !in name && '=' !in name && '&' !in value
    ensures ParseQuery(search + "&" + (name + "=" + value))
            == ParseQuery(search) + [(DecodeComponent(name), DecodeComponent(value))]
  {
    var piece := name + "=" + value;
    SingleParam(name, value);
    assert '&' !in piece by {
      forall i | 0 <= i < |piece| ensures piece[i] != '&' {
        if i < |name| { assert piece[i] == name[i]; }
        else if i > |name| { assert piece[i] == value[i - |name| - 1]; }
      }
    }
    SplitNone(piece, '&');
    SplitBeforePiece(search, piece, '&');
    ParsePiecesAppend(Split(search, '&'), [piece]);
  }

  /** Splitting `a + sep + b` where `b` has no separator yields the pieces of `a`
      followed by `b`. */
  lemma {:induction false} SplitBeforePiece(a: string, b: string, sep: char)
    requires sep !in b
    ensures Split(a + [sep] + b, sep) == Split(a, sep) + [b]
    decreases |a|
  {
    if |a| == 0 {
      assert a + [sep] + b == [sep] + b;
      assert ([sep] + b)[1..] == b;
      SplitNone(b, sep);
    } else {
      SplitBeforePiece(a[1..], b, sep);
      assert (a + [sep] + b)[1..] == a[1..] + [sep] + b;
    }
  }

  /** A text without the separator splits into itself. */
  lemma {:induction false} SplitNone(s: string, sep: char)
    requires sep !in s
    ensures Split(s, sep) == [s]
    decreases |s|
  {
    if |s| > 0 {
      SplitNone(s[1..], sep);
      assert [s[0]] + s[1..] == s;
    }
  }

  /** The first separator of `a + sep + b` is the one after `a` when `a` has none. */
  lemma FirstSplitAt(a: string, b: string, sep: char)
    requires sep !in a
    ensures SplitFirst(a + [sep] + b, sep) == (a, Some(b))
  {
    var s := a + [sep] + b;
    var r := SplitFirst(s, sep);
    assert s[|a|] == sep;
    assert r.1.Some?;
    assert s == r.0 + [sep] + r.1.value;
    assert forall i :: 0 <= i < |a| ==> s[i] == a[i];
    assert forall i :: 0 <= i < |r.0| ==> s[i] == r.0[i];
    assert s[|r.0|] == sep;
    assert |r.0| == |a|;
    assert r.0 == s[..|a|] == a;
    assert r.1.value == s[|a| + 1..] == b;
  }

  /** `let [pathname, search] = url.split('?')` followed by `search || ''`. */
  function PathAndSearch(url: string): (r: (string, string))
    ensures '?' !in r.0 && '?' !in r.1
    ensures '?' !in url ==> r == (url, "")
  {
    var parts := Split(url, '?');
    if '?' in url then (parts[0], if |parts| > 1 then parts[1] else "")
    else SplitNone(url, '?'); (parts[0], "")
  }

  /** A URL with one `?` divides into the path before it and the query after it. */
  lemma PathAndSearchAt(path: string, search: string)
    requires '?' !in path && '?' !in search
    ensures PathAndSearch(path + "?" + search) == (path, search)
  {
    SplitAfterPiece(path, search, '?');
    SplitNone(search, '?');
  }
}
