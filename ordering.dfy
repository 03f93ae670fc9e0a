/** JavaScript's `<` on strings and `Array.prototype.sort` with the comparator
    `(a, b) => a < b ? -1 : 1`.

    JavaScript compares strings by UTF-16 code units. A Dafny `char` is a Unicode
    scalar value, so a character above U+FFFF is compared through its leading
    (high) surrogate first and its code point second, which orders every pair of
    strings exactly as their UTF-16 encodings are ordered. */
module Ordering {
  import opened Wrappers

  /** The first UTF-16 code unit of a character. */
  function LeadUnit(c: char): int {
    if c as int < 0x10000 then c as int else 0xD800 + (c as int - 0x10000) / 0x400
  }

  predicate CharBefore(a: char, b: char) {
    LeadUnit(a) < LeadUnit(b) || (LeadUnit(a) == LeadUnit(b) && a < b)
  }

  /** `a < b` on JavaScript strings. */
  predicate Less(a: string, b: string)
    decreases |a|
  {
    if |a| == 0 then |b| > 0
    else if |b| == 0 then false
    else if a[0] == b[0] then Less(a[1..], b[1..])
    else CharBefore(a[0], b[0])
  }

  lemma {:induction false} LessIrreflexive(a: string)
    ensures !Less(a, a)
    decreases |a|
  {
    if |a| > 0 { LessIrreflexive(a[1..]); }
  }

  lemma {:induction false} LessTransitive(a: string, b: string, c: string)
    requires Less(a, b) && Less(b, c)
    ensures Less(a, c)
    decreases |a|
  {
    if |a| > 0 && |b| > 0 && |c| > 0 && a[0] == b[0] && b[0] == c[0] {
      LessTransitive(a[1..], b[1..], c[1..]);
    }
  }

  lemma {:induction false} LessTotal(a: string, b: string)
    requires a != b
    ensures Less(a, b) || Less(b, a)
    decreases |a|
  {
    if |a| > 0 && |b| > 0 && a[0] == b[0] {
      assert a == [a[0]] + a[1..] && b == [b[0]] + b[1..];
      LessTotal(a[1..], b[1..]);
    }
  }

  /** Strings whose first characters differ, both below the surrogate range,
      are ordered by those characters. */
  lemma LessAtFirst(a: string, b: string)
    requires a != [] && b != [] && a[0] < b[0] && (b[0] as int) < 0xD800
    ensures Less(a, b) && !Less(b, a)
  {
  }

  /** Ascending order, where equal strings may stand next to each other. */
  predicate Sorted(s: seq<string>) {
    forall i, j :: 0 <= i < j < |s| ==> !Less(s[j], s[i])
  }

  function Insert(x: string, s: seq<string>): (r: seq<string>)
    ensures multiset(r) == multiset(s) + multiset{x}
    ensures |r| == |s| + 1
  {
    if |s| == 0 || !Less(s[0], x) then [x] + s
    else
      assert s == [s[0]] + s[1..];
      [s[0]] + Insert(x, s[1..])
  }

  /** The sorted arrangement that `sort` produces: equal strings are
      interchangeable, so the comparator's answer on them does not matter. */
  function Sort(s: seq<string>): (r: seq<string>)
    ensures multiset(r) == multiset(s)
    ensures |r| == |s|
  {
    if |s| == 0 then []
    else
      assert s == [s[0]] + s[1..];
      Insert(s[0], Sort(s[1..]))
  }

  lemma {:induction false} InsertSorted(x: string, s: seq<string>)
    requires Sorted(s)
    ensures Sorted(Insert(x, s))
    decreases |s|
  {
    if |s| > 0 && Less(s[0], x) {
      InsertSorted(x, s[1..]);
      var r := Insert(x, s);
      var tail := Insert(x, s[1..]);
      assert r == [s[0]] + tail;
      forall j | 0 < j < |r| ensures !Less(r[j], s[0]) {
        assert r[j] in multiset(tail);
        assert r[j] in multiset(s[1..]) + multiset{x};
        if r[j] == x {
          if Less(x, s[0]) { LessTransitive(x, s[0], x); LessIrreflexive(x); }
        } else {
          assert r[j] in s[1..];
          var k :| 0 <= k < |s[1..]| && s[1..][k] == r[j];
          assert s[k + 1] == r[j];
        }
      }
    } else if |s| > 0 {
      var r := Insert(x, s);
      forall j | 0 < j < |r| ensures !Less(r[j], x) {
        assert r[j] == s[j - 1];
        if Less(s[j - 1], x) {
          if j - 1 == 0 {
          } else {
            assert !Less(s[j - 1], s[0]);
            if s[0] == x {
            } else {
              LessTotal(s[0], x);
              LessTransitive(s[j - 1], x, s[0]);
            }
          }
        }
      }
    }
  }

  lemma {:induction false} SortSorted(s: seq<string>)
    ensures Sorted(Sort(s))
    decreases |s|
  {
    if |s| > 0 {
      SortSorted(s[1..]);
      InsertSorted(s[0], Sort(s[1..]));
    }
  }

  /** The first element of an ascending sequence is not above any of its elements. */
  lemma SortedHeadLeast(s: seq<string>, x: string)
    requires Sorted(s) && x in s
    ensures !Less(x, s[0])
  {
    var j :| 0 <= j < |s| && s[j] == x;
    if j == 0 { LessIrreflexive(x); }
  }

  /** Two ascending arrangements of the same strings start with the same string. */
  lemma SortedSameHead(a: seq<string>, b: seq<string>)
    requires Sorted(a) && Sorted(b)
    requires multiset(a) == multiset(b) && |a| > 0
    ensures |b| > 0 && a[0] == b[0]
  {
    assert |b| > 0 by { assert |multiset(a)| == |multiset(b)|; }
    assert a[0] in multiset(b) && b[0] in multiset(a);
    SortedHeadLeast(b, a[0]);
    SortedHeadLeast(a, b[0]);
    if a[0] != b[0] { LessTotal(a[0], b[0]); }
  }

  lemma SameTails<T>(a: seq<T>, b: seq<T>)
    requires multiset(a) == multiset(b) && |a| > 0 && |b| > 0 && a[0] == b[0]
    ensures multiset(a[1..]) == multiset(b[1..])
  {
    calc {
      multiset(a[1..]);
      { assert a == [a[0]] + a[1..]; }
      multiset(a) - multiset{a[0]};
      multiset(b) - multiset{b[0]};
      { assert b == [b[0]] + b[1..]; }
      multiset(b[1..]);
    }
  }

  /** Two ascending arrangements of the same strings are the same sequence. */
  lemma {:induction false} SortedUnique(a: seq<string>, b: seq<string>)
    requires Sorted(a) && Sorted(b)
    requires multiset(a) == multiset(b)
    ensures a == b
    decreases |a|
  {
    if |a| == 0 {
      assert |multiset(b)| == 0;
      assert b == [];
    } else {
      SortedSameHead(a, b);
      SameTails(a, b);
      SortedTail(a);
      SortedTail(b);
      SortedUnique(a[1..], b[1..]);
      assert a == [a[0]] + a[1..] && b == [b[0]] + b[1..];
    }
  }

  lemma SortedTail(s: seq<string>)
    requires Sorted(s) && |s| > 0
    ensures Sorted(s[1..])
  {
    forall i, j | 0 <= i < j < |s| - 1 ensures !Less(s[1..][j], s[1..][i]) {
      assert s[1..][j] == s[j + 1] && s[1..][i] == s[i + 1];
    }
  }

  lemma MultisetRemove<T>(s: seq<T>, j: nat)
    requires j < |s|
    ensures multiset(s[..j] + s[j + 1..]) == multiset(s) - multiset{s[j]}
  {
    calc {
      multiset(s) - multiset{s[j]};
      { assert s == s[..j] + ([s[j]] + s[j + 1..]); }
      multiset(s[..j]) + (multiset{s[j]} + multiset(s[j + 1..])) - multiset{s[j]};
      multiset(s[..j]) + multiset(s[j + 1..]);
    }
  }

  /** Sorting depends only on the multiset of its input: the order in which the
      lines were produced never shows in the result. */
  lemma SortPermutationInvariant(a: seq<string>, b: seq<string>)
    requires multiset(a) == multiset(b)
    ensures Sort(a) == Sort(b)
  {
    SortSorted(a);
    SortSorted(b);
    SortedUnique(Sort(a), Sort(b));
  }

  /** An ascending arrangement of the lines is the one `sort` produces. */
  lemma SortedArrangement(s: seq<string>, t: seq<string>)
    requires Sorted(t) && multiset(t) == multiset(s)
    ensures Sort(s) == t
  {
    SortSorted(s);
    SortedUnique(Sort(s), t);
  }

  /** `entries.filter(keep).map(format)`, with the filter and the formatting folded
      into one function that yields `None` for a dropped entry. */
  function Collect<T>(s: seq<T>, line: T -> Option<string>): seq<string>
  {
    if |s| == 0 then []
    else (match line(s[0]) case Some(l) => [l] case None => []) + Collect(s[1..], line)
  }

  /** The lines of two or three elements that all contribute one. */
  lemma CollectPair<T>(x: T, y: T, line: T -> Option<string>)
    requires line(x).Some? && line(y).Some?
    ensures Collect([x, y], line) == [line(x).value, line(y).value]
  {
    assert [x, y][1..] == [y];
    assert [y][1..] == [];
    assert Collect([y], line) == [line(y).value] + Collect([], line);
    assert Collect([x, y], line) == [line(x).value] + Collect([y], line);
  }

  lemma CollectTriple<T>(x: T, y: T, z: T, line: T -> Option<string>)
    requires line(x).Some? && line(y).Some? && line(z).Some?
    ensures Collect([x, y, z], line) == [line(x).value, line(y).value, line(z).value]
  {
    assert [x, y, z][1..] == [y, z];
    CollectPair(y, z, line);
  }

  lemma RotateMultiset<T>(x: T, y: T, z: T)
    ensures multiset([x, y, z]) == multiset([z, x, y])
  {
  }

  lemma {:induction false} CollectAppend<T>(a: seq<T>, b: seq<T>, line: T -> Option<string>)
    ensures Collect(a + b, line) == Collect(a, line) + Collect(b, line)
    decreases |a|
  {
    if |a| > 0 {
      assert (a + b)[0] == a[0];
      assert (a + b)[1..] == a[1..] + b;
      CollectAppend(a[1..], b, line);
    } else {
      assert a + b == b;
    }
  }

  /** A line is collected exactly when some entry yields it. */
  lemma {:induction false} CollectMember<T>(s: seq<T>, line: T -> Option<string>, l: string)
    ensures l in Collect(s, line) <==> exists i :: 0 <= i < |s| && line(s[i]) == Some(l)
    decreases |s|
  {
    if |s| > 0 {
      CollectMember(s[1..], line, l);
      if exists i :: 0 <= i < |s| && line(s[i]) == Some(l) {
        var i :| 0 <= i < |s| && line(s[i]) == Some(l);
        if i > 0 { assert s[1..][i - 1] == s[i]; }
      }
      if exists i :: 0 <= i < |s[1..]| && line(s[1..][i]) == Some(l) {
        var i :| 0 <= i < |s[1..]| && line(s[1..][i]) == Some(l);
        assert s[i + 1] == s[1..][i];
      }
    }
  }

  /** Collecting from `s` is collecting its entry `j` and then the others. */
  lemma {:induction false} CollectRemove<T>(s: seq<T>, j: nat, line: T -> Option<string>)
    requires j < |s|
    ensures multiset(Collect(s, line)) ==
            multiset(Collect([s[j]], line)) + multiset(Collect(s[..j] + s[j + 1..], line))
  {
    assert s == s[..j] + ([s[j]] + s[j + 1..]);
    CollectMiddle(s[..j], [s[j]], s[j + 1..], line);
  }

  lemma {:induction false} CollectMiddle<T>(front: seq<T>, one: seq<T>, back: seq<T>, line: T -> Option<string>)
    ensures multiset(Collect(front + (one + back), line)) ==
            multiset(Collect(one, line)) + multiset(Collect(front + back, line))
  {
    calc {
      multiset(Collect(front + (one + back), line));
      { CollectAppend(front, one + back, line); }
      multiset(Collect(front, line) + Collect(one + back, line));
      { CollectAppend(one, back, line); }
      multiset(Collect(front, line) + (Collect(one, line) + Collect(back, line)));
      multiset(Collect(one, line)) + (multiset(Collect(front, line)) + multiset(Collect(back, line)));
      { CollectAppend(front, back, line); }
      multiset(Collect(one, line)) + multiset(Collect(front + back, line));
    }
  }

  /** Reordering the entries only reorders the collected lines. */
  lemma {:induction false} CollectPermutation<T>(a: seq<T>, b: seq<T>, line: T -> Option<string>)
    requires multiset(a) == multiset(b)
    ensures multiset(Collect(a, line)) == multiset(Collect(b, line))
    decreases |a|
  {
    if |a| > 0 {
      assert a[0] in multiset(b);
      var j :| 0 <= j < |b| && b[j] == a[0];
      var rest := b[..j] + b[j + 1..];
      assert multiset(a[1..]) == multiset(rest) by {
        MultisetRemove(b, j);
        assert a == [a[0]] + a[1..];
      }
      CollectPermutation(a[1..], rest, line);
      var first := multiset(Collect([a[0]], line));
      assert multiset(Collect(a, line)) == first + multiset(Collect(a[1..], line)) by {
        CollectRemove(a, 0, line);
        assert a[..0] + a[1..] == a[1..];
      }
      assert multiset(Collect(b, line)) == first + multiset(Collect(rest, line)) by {
        CollectRemove(b, j, line);
      }
    } else {
      assert |multiset(b)| == 0;
      assert b == [];
    }
  }
}
