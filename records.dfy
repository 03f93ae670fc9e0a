/** JavaScript plain objects used as dictionaries (`Record<string, V>`): an ordered
    list of distinct keys with their values. Assigning to an existing key keeps its
    position; assigning to a new key appends it. */
module Records {
  import opened Wrappers

  type Record<V> = seq<(string, V)>

  predicate HasKey<V>(r: Record<V>, k: string) {
    exists i :: 0 <= i < |r| && r[i].0 == k
  }

  /** No key occurs twice, as in every JavaScript object. */
  predicate Distinct<V>(r: Record<V>) {
    forall i, j :: 0 <= i < j < |r| ==> r[i].0 != r[j].0
  }

  function Keys<V>(r: Record<V>): (ks: seq<string>)
    ensures |ks| == |r| && forall i :: 0 <= i < |r| ==> ks[i] == r[i].0
  {
    seq(|r|, i requires 0 <= i < |r| => r[i].0)
  }

  /** The position of the first entry for `k`, `|r|` when there is none. */
  function IndexOf<V>(r: Record<V>, k: string): (i: nat)
    ensures i <= |r|
    ensures i < |r| ==> r[i].0 == k
    ensures forall j :: 0 <= j < i ==> r[j].0 != k
  {
    if |r| == 0 then 0
    else if r[0].0 == k then 0
    else 1 + IndexOf(r[1..], k)
  }

  /** `r[k]`, `undefined` being `None`. */
  function Get<V>(r: Record<V>, k: string): (v: Option<V>)
    ensures v.None? <==> !HasKey(r, k)
    ensures v.Some? ==> exists i :: 0 <= i < |r| && r[i] == (k, v.value)
  {
    var i := IndexOf(r, k);
    if i < |r| then Some(r[i].1) else None
  }

  /** `r[k] = v`. */
  function Set<V>(r: Record<V>, k: string, v: V): (r': Record<V>)
    ensures HasKey(r, k) ==> |r'| == |r| && Keys(r') == Keys(r)
    ensures !HasKey(r, k) ==> r' == r + [(k, v)]
  {
    var i := IndexOf(r, k);
    if i < |r| then r[i := (k, v)] else r + [(k, v)]
  }

  /** After `r[k] = v`, reading `k` gives `v` and every other key reads as before. */
  lemma GetSet<V>(r: Record<V>, k: string, v: V, k': string)
    ensures Get(Set(r, k, v), k') == if k' == k then Some(v) else Get(r, k')
  {
    var i := IndexOf(r, k);
    var r' := Set(r, k, v);
    if i < |r| {
      if k' == k {
        IndexOfUnique(r', k, i);
      } else {
        IndexOfSameKeys(r, r', k');
      }
    } else {
      IndexOfAppend(r, (k, v), k');
    }
  }

  /** The first position of a key is determined by the keys before it. */
  lemma IndexOfUnique<V>(r: Record<V>, k: string, i: nat)
    requires i <= |r| && (i < |r| ==> r[i].0 == k)
    requires forall j :: 0 <= j < i ==> r[j].0 != k
    ensures IndexOf(r, k) == i
  {
  }

  lemma IndexOfSameKeys<V>(r: Record<V>, r': Record<V>, k: string)
    requires |r| == |r'| && forall m :: 0 <= m < |r| ==> r'[m].0 == r[m].0
    ensures IndexOf(r', k) == IndexOf(r, k)
  {
    IndexOfUnique(r', k, IndexOf(r, k));
  }

  lemma IndexOfAppend<V>(r: Record<V>, e: (string, V), k: string)
    ensures Get(r + [e], k) == if HasKey(r, k) then Get(r, k) else if e.0 == k then Some(e.1) else None
  {
    var i := IndexOf(r, k);
    if i < |r| {
      IndexOfUnique(r + [e], k, i);
    } else if e.0 == k {
      IndexOfUnique(r + [e], k, |r|);
    } else {
      IndexOfUnique(r + [e], k, |r| + 1);
    }
  }

  /** Assignment keeps the keys distinct. */
  lemma {:induction false} SetDistinct<V>(r: Record<V>, k: string, v: V)
    requires Distinct(r)
    ensures Distinct(Set(r, k, v))
  {
    var r' := Set(r, k, v);
    if HasKey(r, k) {
      assert Keys(r') == Keys(r);
      forall i, j | 0 <= i < j < |r'| ensures r'[i].0 != r'[j].0 {
        assert Keys(r')[i] == Keys(r)[i] && Keys(r')[j] == Keys(r)[j];
      }
    } else {
      forall i, j | 0 <= i < j < |r'| ensures r'[i].0 != r'[j].0 {
        if j == |r| {
          assert r'[i] == r[i];
        }
      }
    }
  }

  /** In a record with distinct keys, reading `k` gives `v` exactly when the entry
      `(k, v)` is present. */
  lemma GetMember<V>(r: Record<V>, k: string, v: V)
    requires Distinct(r)
    ensures Get(r, k) == Some(v) <==> (k, v) in r
  {
    if (k, v) in r {
      var j :| 0 <= j < |r| && r[j] == (k, v);
      var i := IndexOf(r, k);
      assert i <= j;
      assert r[i].0 == r[j].0;
    }
  }

  /** Reading a key does not depend on the order of the entries. */
  lemma GetPermutation<V>(r: Record<V>, r': Record<V>, k: string)
    requires Distinct(r) && Distinct(r') && multiset(r) == multiset(r')
    ensures Get(r, k) == Get(r', k)
  {
    var v := Get(r, k);
    if v.Some? {
      GetMember(r, k, v.value);
      assert (k, v.value) in multiset(r');
      GetMember(r', k, v.value);
    } else if Get(r', k).Some? {
      var v' := Get(r', k).value;
      GetMember(r', k, v');
      assert (k, v') in multiset(r);
      GetMember(r, k, v');
    }
  }

  /** The for-in copy `for (k in source) target[k] = source[k]`, and equally the
      spread `{...target, ...source}`: the keys of `source` assigned in order. */
  function Assign<V>(target: Record<V>, source: Record<V>): Record<V>
    decreases |source|
  {
    if |source| == 0 then target
    else
      var last := source[|source| - 1];
      Set(Assign(target, source[..|source| - 1]), last.0, last.1)
  }

  /** Source values win; keys the source lacks keep their target value. */
  lemma {:induction false} GetAssign<V>(target: Record<V>, source: Record<V>, k: string)
    requires Distinct(source)
    ensures Get(Assign(target, source), k) == if HasKey(source, k) then Get(source, k) else Get(target, k)
    decreases |source|
  {
    if |source| > 0 {
      var n := |source| - 1;
      var front := source[..n];
      assert Distinct(front) by {
        forall i, j | 0 <= i < j < |front| ensures front[i].0 != front[j].0 {
          assert front[i] == source[i] && front[j] == source[j];
        }
      }
      var e := source[n];
      assert source == front + [e];
      GetAssign(target, front, k);
      GetSet(Assign(target, front), e.0, e.1, k);
      IndexOfAppend(front, e, k);
      assert HasKey(source, k) <==> HasKey(front, k) || e.0 == k by {
        HasKeyAppend(front, e, k);
      }
      if e.0 == k {
        forall i | 0 <= i < |front| ensures front[i].0 != k {
          assert front[i] == source[i];
        }
      }
    }
  }

  lemma HasKeyAppend<V>(r: Record<V>, e: (string, V), k: string)
    ensures HasKey(r + [e], k) <==> HasKey(r, k) || e.0 == k
  {
    if HasKey(r, k) {
      var i :| 0 <= i < |r| && r[i].0 == k;
      assert (r + [e])[i].0 == k;
    }
    if e.0 == k {
      assert (r + [e])[|r|].0 == k;
    }
  }

  /** Copying keeps the keys distinct and the target's keys first, in their order. */
  lemma {:induction false} AssignKeys<V>(target: Record<V>, source: Record<V>)
    requires Distinct(target)
    ensures Distinct(Assign(target, source))
    ensures |Assign(target, source)| >= |target|
    ensures Keys(Assign(target, source))[..|target|] == Keys(target)
    decreases |source|
  {
    if |source| > 0 {
      var n := |source| - 1;
      var mid := Assign(target, source[..n]);
      AssignKeys(target, source[..n]);
      SetDistinct(mid, source[n].0, source[n].1);
      var r' := Set(mid, source[n].0, source[n].1);
      if !HasKey(mid, source[n].0) {
        assert Keys(r')[..|mid|] == Keys(mid);
      }
      assert Keys(r')[..|target|] == Keys(mid)[..|target|];
    }
  }

  /** `for (const k in source) { target[k] = source[k] }`. */
  method CopyInto<V>(target: Record<V>, source: Record<V>) returns (result: Record<V>)
    ensures result == Assign(target, source)
  {
    result := target;
    var i := 0;
    while i < |source|
      invariant 0 <= i <= |source|
      invariant result == Assign(target, source[..i])
    {
      assert source[..i + 1][..i] == source[..i];
      result := Set(result, source[i].0, source[i].1);
      i := i + 1;
    }
    assert source[..|source|] == source;
  }
}
