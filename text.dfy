/** String helpers with the semantics of the JavaScript built-ins the client uses:
    `split` on one character, `join`, `startsWith`, ASCII case mapping,
    template interpolation of a possibly undefined string and decimal rendering
    of integers. */
module Text {
  import opened Wrappers

  /** `s.startsWith(prefix)`. */
  predicate StartsWith(s: string, prefix: string) {
    |prefix| <= |s| && s[..|prefix|] == prefix
  }

  /** `s.split(sep)` for a one-character separator: the pieces between the separators,
      at least one piece, none of them containing the separator. */
  function Split(s: string, sep: char): (parts: seq<string>)
    ensures |parts| >= 1
    ensures forall i :: 0 <= i < |parts| ==> sep !in parts[i]
    decreases |s|
  {
    if |s| == 0 then [""]
    else
      var rest := Split(s[1..], sep);
      if s[0] == sep then [""] + rest
      else [[s[0]] + rest[0]] + rest[1..]
  }

  /** `parts.join(sep)`. */
  function Join(parts: seq<string>, sep: string): string
    decreases |parts|
  {
    if |parts| == 0 then ""
    else if |parts| == 1 then parts[0]
    else parts[0] + sep + Join(parts[1..], sep)
  }

  lemma {:induction false} JoinSplit(s: string, sep: char)
    ensures Join(Split(s, sep), [sep]) == s
    decreases |s|
  {
    if |s| > 0 {
      JoinSplit(s[1..], sep);
      var rest := Split(s[1..], sep);
      if s[0] != sep && |rest| > 1 {
        assert Join(rest, [sep]) == rest[0] + [sep] + Join(rest[1..], [sep]);
      }
    }
  }

  lemma {:induction false} SplitJoin(parts: seq<string>, sep: char)
    requires |parts| >= 1
    requires forall i :: 0 <= i < |parts| ==> sep !in parts[i]
    ensures Split(Join(parts, [sep]), sep) == parts
    decreases |parts|, |parts[0]|
  {
    if |parts[0]| > 0 {
      var p0 := parts[0];
      var shorter := [p0[1..]] + parts[1..];
      SplitJoin(shorter, sep);
      var j := Join(parts, [sep]);
      assert Join(shorter, [sep]) == j[1..] by {
        if |parts| > 1 {
          assert Join(shorter, [sep]) == p0[1..] + [sep] + Join(parts[1..], [sep]);
        }
      }
      assert j[0] == p0[0] && p0[0] != sep;
      assert [p0[0]] + p0[1..] == p0;
    } else if |parts| > 1 {
      SplitJoin(parts[1..], sep);
      assert Join(parts, [sep]) == [sep] + Join(parts[1..], [sep]);
      assert Join(parts, [sep])[1..] == Join(parts[1..], [sep]);
    }
  }

  /** The element lines of `Join(parts, [sep])` are the parts themselves when none of
      them contains the separator: the join is undone by `Split`. */
  lemma {:induction false} SplitJoinPrefix(front: seq<string>, back: string, sep: char)
    requires forall i :: 0 <= i < |front| ==> sep !in front[i]
    ensures var pieces := Split(Join(front + [back], [sep]), sep);
            |pieces| >= |front| + 1 &&
            pieces[..|front|] == front &&
            Join(pieces[|front|..], [sep]) == back
    decreases |front|
  {
    var whole := front + [back];
    if |front| == 0 {
      assert whole == [back];
      JoinSplit(back, sep);
    } else {
      SplitJoinPrefix(front[1..], back, sep);
      assert whole[1..] == front[1..] + [back];
      assert Join(whole, [sep]) == front[0] + [sep] + Join(whole[1..], [sep]);
      SplitAfterPiece(front[0], Join(whole[1..], [sep]), sep);
      var inner := Split(Join(whole[1..], [sep]), sep);
      var pieces := Split(Join(whole, [sep]), sep);
      assert pieces == [front[0]] + inner;
      assert pieces[|front|..] == inner[|front| - 1..];
      assert pieces[..|front|] == [front[0]] + inner[..|front| - 1];
      assert front == [front[0]] + front[1..];
    }
  }

  /** Splitting `a + sep + b` where `a` has no separator yields `a` followed by the pieces of `b`. */
  lemma {:induction false} SplitAfterPiece(a: string, b: string, sep: char)
    requires sep !in a
    ensures Split(a + [sep] + b, sep) == [a] + Split(b, sep)
    decreases |a|
  {
    if |a| == 0 {
      assert a + [sep] + b == [sep] + b;
      assert ([sep] + b)[1..] == b;
    } else {
      SplitAfterPiece(a[1..], b, sep);
      assert (a + [sep] + b)[1..] == a[1..] + [sep] + b;
      assert [a[0]] + a[1..] == a;
    }
  }

  /** The text before the first `sep` and, when `sep` occurs, the text after it. */
  function SplitFirst(s: string, sep: char): (r: (string, Option<string>))
    ensures sep !in r.0
    ensures r.1.None? ==> r.0 == s
    ensures r.1.Some? ==> s == r.0 + [sep] + r.1.value
    decreases |s|
  {
    if |s| == 0 then ("", None)
    else if s[0] == sep then ("", Some(s[1..]))
    else
      var (a, b) := SplitFirst(s[1..], sep);
      assert s == [s[0]] + s[1..];
      ([s[0]] + a, b)
  }

  /** Without the separator the first piece is the whole text and nothing follows. */
  lemma {:induction false} SplitFirstAbsent(s: string, sep: char)
    requires sep !in s
    ensures SplitFirst(s, sep) == (s, None)
    decreases |s|
  {
    if |s| > 0 {
      SplitFirstAbsent(s[1..], sep);
      assert [s[0]] + s[1..] == s;
    }
  }

  /** `[head, ...rest] = s.split(sep)` followed by `rest.join(sep)` cuts `s` at its
      first separator: `head` is the text before it and the re-joined rest is
      everything after it, separators included. */
  lemma {:induction false} SplitHead(s: string, sep: char)
    ensures var parts := Split(s, sep);
            parts[0] == SplitFirst(s, sep).0 &&
            (|parts| > 1 <==> SplitFirst(s, sep).1.Some?) &&
            Join(parts[1..], [sep]) == SplitFirst(s, sep).1.GetOr("")
    decreases |s|
  {
    if |s| > 0 {
      if s[0] == sep {
        JoinSplit(s[1..], sep);
        assert Split(s, sep)[1..] == Split(s[1..], sep);
      } else {
        SplitHead(s[1..], sep);
        assert Split(s, sep)[1..] == Split(s[1..], sep)[1..];
      }
    }
  }

  /** Joining one more part appends the separator and the part. */
  lemma JoinAppend(parts: seq<string>, last: string, sep: string)
    requires |parts| > 0
    ensures Join(parts + [last], sep) == Join(parts, sep) + sep + last
    decreases |parts|
  {
    if |parts| > 1 {
      assert (parts + [last])[1..] == parts[1..] + [last];
      JoinAppend(parts[1..], last, sep);
    } else {
      assert (parts + [last])[1..] == [last];
    }
  }

  /** A character in neither the parts nor the separator is not in their join. */
  lemma {:induction false} JoinExcludes(parts: seq<string>, sep: string, c: char)
    requires c !in sep
    requires forall i :: 0 <= i < |parts| ==> c !in parts[i]
    ensures c !in Join(parts, sep)
    decreases |parts|
  {
    if |parts| > 1 {
      JoinExcludes(parts[1..], sep, c);
    }
  }

  function LowerChar(c: char): char {
    if 'A' <= c <= 'Z' then (c as int + 32) as char else c
  }

  function UpperChar(c: char): char {
    if 'a' <= c <= 'z' then (c as int - 32) as char else c
  }

  /** `s.toLowerCase()` on the ASCII letters. */
  function Lower(s: string): (r: string)
    ensures |r| == |s|
    ensures forall i :: 0 <= i < |s| ==> r[i] == LowerChar(s[i])
  {
    seq(|s|, i requires 0 <= i < |s| => LowerChar(s[i]))
  }

  /** `s.toUpperCase()` on the ASCII letters. */
  function Upper(s: string): (r: string)
    ensures |r| == |s|
    ensures forall i :: 0 <= i < |s| ==> r[i] == UpperChar(s[i])
  {
    seq(|s|, i requires 0 <= i < |s| => UpperChar(s[i]))
  }

  /** `s.replaceAll(' ', '%20')`. */
  function EscapeSpaces(s: string): (r: string)
    ensures ' ' !in r
    ensures ' ' !in s ==> r == s
    ensures |r| == |s| + 2 * multiset(s)[' ']
  {
    if |s| == 0 then ""
    else
      assert s == [s[0]] + s[1..];
      (if s[0] == ' ' then "%20" else [s[0]]) + EscapeSpaces(s[1..])
  }

  /** `${x}` for a string that may be `undefined`. */
  function Interpolate(x: Option<string>): string {
    match x
    case Some(s) => s
    case None => "undefined"
  }

  function DigitChar(d: nat): char
    requires d < 10
  {
    "0123456789"[d]
  }

  /** `n.toString()` for a non-negative integer. */
  function Decimal(n: nat): (r: string)
    ensures |r| >= 1
    ensures forall i :: 0 <= i < |r| ==> '0' <= r[i] <= '9'
  {
    if n < 10 then [DigitChar(n)] else Decimal(n / 10) + [DigitChar(n % 10)]
  }

  /** Only zero renders as the string "0". */
  lemma {:induction false} DecimalIsZero(n: nat)
    ensures Decimal(n) == "0" <==> n == 0
  {
    if n >= 10 {
      DecimalLength(n / 10);
      assert |Decimal(n)| >= 2;
    }
  }

  lemma {:induction false} DecimalLength(n: nat)
    ensures n >= 10 ==> |Decimal(n)| >= 2
  {
  }

  /** `${n}` for an integral number (no exponent form). */
  function IntString(n: int): (r: string)
    ensures |r| >= 1
  {
    if n < 0 then "-" + Decimal(-n) else Decimal(n)
  }
}
