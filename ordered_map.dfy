/**
 * Insertion-ordered dictionaries and the array operations the analytics code chains over them.
 * A JavaScript `Map`, and a plain object whose keys are not array indices, enumerate their entries
 * in insertion order; assigning to an existing key keeps its position.
 */
module OrderedMap {
  import opened Wrappers

  ghost predicate Distinct<T>(s: seq<T>) {
    forall i, j :: 0 <= i < j < |s| ==> s[i] != s[j]
  }

  function Keys<V>(m: seq<(string, V)>): (ks: seq<string>)
    ensures |ks| == |m| && forall i :: 0 <= i < |m| ==> ks[i] == m[i].0
  {
    if m == [] then [] else [m[0].0] + Keys(m[1..])
  }

  ghost predicate DistinctKeys<V>(m: seq<(string, V)>) {
    Distinct(Keys(m))
  }

  /** `map.get(k)`: the value stored under `k`, if any. */
  function Get<V>(m: seq<(string, V)>, k: string): Option<V> {
    if m == [] then None
    else if m[0].0 == k then Some(m[0].1)
    else Get(m[1..], k)
  }

  /** `get` finds a value exactly for the keys present, and what it finds is an entry of the map. */
  lemma {:induction false} GetFound<V>(m: seq<(string, V)>, k: string)
    ensures Get(m, k).None? <==> k !in Keys(m)
    ensures Get(m, k).Some? ==> (k, Get(m, k).value) in m
  {
    if m != [] {
      assert Keys(m) == [m[0].0] + Keys(m[1..]);
      if m[0].0 != k {
        GetFound(m[1..], k);
      }
    }
  }

  /** `map.set(k, v)`, `obj[k] = v`: overwrites in place when `k` is present, appends otherwise. */
  function Put<V>(m: seq<(string, V)>, k: string, v: V): seq<(string, V)> {
    if m == [] then [(k, v)]
    else if m[0].0 == k then [(k, v)] + m[1..]
    else [m[0]] + Put(m[1..], k, v)
  }

  /** An existing key keeps its place; a new key goes last. */
  lemma {:induction false} PutKeys<V>(m: seq<(string, V)>, k: string, v: V)
    ensures Keys(Put(m, k, v)) == if k in Keys(m) then Keys(m) else Keys(m) + [k]
  {
    if m != [] {
      assert Keys(m) == [m[0].0] + Keys(m[1..]);
      if m[0].0 != k {
        PutKeys(m[1..], k, v);
        assert Keys(Put(m, k, v)) == [m[0].0] + Keys(Put(m[1..], k, v));
      } else {
        assert Keys(Put(m, k, v)) == [k] + Keys(m[1..]);
      }
    }
  }

  /** Reading back after `map.set(k, v)` finds `v` under `k` and the old value under any other key. */
  lemma {:induction false} GetPut<V>(m: seq<(string, V)>, k: string, v: V, k': string)
    ensures Get(Put(m, k, v), k') == if k' == k then Some(v) else Get(m, k')
  {
    if m != [] && m[0].0 != k {
      GetPut(m[1..], k, v, k');
    }
  }

  lemma PutKeepsDistinct<V>(m: seq<(string, V)>, k: string, v: V)
    requires DistinctKeys(m)
    ensures DistinctKeys(Put(m, k, v))
  {
    PutKeys(m, k, v);
  }

  /** An entry of a map with distinct keys is what `get` finds under its key. */
  lemma {:induction false} GetEntry<V>(m: seq<(string, V)>, k: string, v: V)
    requires DistinctKeys(m) && (k, v) in m
    ensures Get(m, k) == Some(v)
  {
    assert Keys(m) == [m[0].0] + Keys(m[1..]);
    if m[0] != (k, v) {
      assert (k, v) in m[1..];
      assert m[0].0 != k by {
        var i :| 1 <= i < |m| && m[i] == (k, v);
        assert Keys(m)[i] == k;
      }
      GetEntry(m[1..], k, v);
    }
  }

  /** A key present in the map is the key of one of its entries. */
  lemma {:induction false} KeyEntry<V>(m: seq<(string, V)>, k: string) returns (v: V)
    requires k in Keys(m)
    ensures (k, v) in m
  {
    var i :| 0 <= i < |m| && Keys(m)[i] == k;
    v := m[i].1;
  }

  /** The key of an entry of the map is among its keys. */
  lemma EntryKey<V>(m: seq<(string, V)>, e: (string, V))
    requires e in m
    ensures e.0 in Keys(m)
  {
    var i :| 0 <= i < |m| && m[i] == e;
    assert Keys(m)[i] == e.0;
  }

  /** After `map.set(k, v)` every entry is `(k, v)` or an entry that was there before. */
  lemma {:induction false} PutEntries<V>(m: seq<(string, V)>, k: string, v: V)
    ensures (k, v) in Put(m, k, v)
    ensures forall e :: e in Put(m, k, v) ==> e in m || e == (k, v)
  {
    if m != [] && m[0].0 != k {
      PutEntries(m[1..], k, v);
    }
  }

  /** `new Map(entries)`: each entry set in turn, so a later entry for a key overwrites an earlier one. */
  function FromEntries<V>(es: seq<(string, V)>): seq<(string, V)> {
    if es == [] then [] else Put(FromEntries(es[..|es| - 1]), es[|es| - 1].0, es[|es| - 1].1)
  }

  /** The key's last entry, if it has one. */
  function LastFor<V>(es: seq<(string, V)>, k: string): Option<V> {
    if es == [] then None
    else if es[|es| - 1].0 == k then Some(es[|es| - 1].1)
    else LastFor(es[..|es| - 1], k)
  }

  /** A map built from entries answers each key with the value of the last entry for it. */
  lemma {:induction false} FromEntriesGet<V>(es: seq<(string, V)>, k: string)
    ensures Get(FromEntries(es), k) == LastFor(es, k)
  {
    if es != [] {
      FromEntriesGet(es[..|es| - 1], k);
      GetPut(FromEntries(es[..|es| - 1]), es[|es| - 1].0, es[|es| - 1].1, k);
    }
  }

  /** `Array.from(map.values()).reduce((s, v) => s + f(v), 0)`. */
  function SumOf<V>(m: seq<(string, V)>, f: V -> int): int {
    if m == [] then 0 else f(m[0].1) + SumOf(m[1..], f)
  }

  /** Setting a key changes the sum by the new value's share less the old one's. */
  lemma {:induction false} SumOfPut<V>(m: seq<(string, V)>, k: string, v: V, f: V -> int)
    requires DistinctKeys(m)
    ensures SumOf(Put(m, k, v), f) == SumOf(m, f) + f(v) - (if Get(m, k).Some? then f(Get(m, k).value) else 0)
  {
    if m != [] {
      assert Keys(m) == [m[0].0] + Keys(m[1..]);
      if m[0].0 != k {
        SumOfPut(m[1..], k, v, f);
      } else {
        assert k !in Keys(m[1..]);
      }
    }
  }

  lemma {:induction false} SumOfNonNegative<V>(m: seq<(string, V)>, f: V -> int)
    requires forall i :: 0 <= i < |m| ==> f(m[i].1) >= 0
    ensures SumOf(m, f) >= 0
    ensures forall i :: 0 <= i < |m| ==> f(m[i].1) <= SumOf(m, f)
  {
    if m != [] {
      SumOfNonNegative(m[1..], f);
      assert forall i :: 1 <= i < |m| ==> m[i] == m[1..][i - 1];
    }
  }

  ghost predicate SortedDesc<T>(s: seq<T>, key: T -> int) {
    forall i, j :: 0 <= i < j < |s| ==> key(s[i]) >= key(s[j])
  }

  /** Inserts `x` after the leading elements whose key is at least `key(x)`. */
  function InsertDesc<T>(s: seq<T>, x: T, key: T -> int): (r: seq<T>)
    ensures multiset(r) == multiset(s) + multiset{x}
  {
    if s == [] || key(s[0]) < key(x) then [x] + s
    else
      assert s == [s[0]] + s[1..];
      [s[0]] + InsertDesc(s[1..], x, key)
  }

  /** Inserting into a descending sequence keeps it descending. */
  lemma {:induction false} InsertDescSorted<T>(s: seq<T>, x: T, key: T -> int)
    requires SortedDesc(s, key)
    ensures SortedDesc(InsertDesc(s, x, key), key)
  {
    if s != [] && key(s[0]) >= key(x) {
      SortedTail(s, key);
      InsertDescSorted(s[1..], x, key);
      var t := InsertDesc(s[1..], x, key);
      HeadDominates(s, x, t, key);
      SortedCons(s[0], t, key);
    }
  }

  lemma SortedTail<T>(s: seq<T>, key: T -> int)
    requires s != [] && SortedDesc(s, key)
    ensures SortedDesc(s[1..], key)
  {
    forall i, j | 0 <= i < j < |s[1..]| ensures key(s[1..][i]) >= key(s[1..][j]) {
      assert s[1..][i] == s[i + 1] && s[1..][j] == s[j + 1];
    }
  }

  /** The head of a descending `s` is at least every element of `s[1..]` with `x` added, when it is at least `x`. */
  lemma HeadDominates<T>(s: seq<T>, x: T, t: seq<T>, key: T -> int)
    requires s != [] && SortedDesc(s, key) && key(s[0]) >= key(x)
    requires multiset(t) == multiset(s[1..]) + multiset{x}
    ensures forall i :: 0 <= i < |t| ==> key(s[0]) >= key(t[i])
  {
    forall i | 0 <= i < |t| ensures key(s[0]) >= key(t[i]) {
      assert t[i] in multiset(t);
      if t[i] != x {
        assert t[i] in multiset(s[1..]);
        var j :| 0 <= j < |s[1..]| && s[1..][j] == t[i];
        assert s[1..][j] == s[j + 1];
      }
    }
  }

  lemma SortedCons<T>(h: T, t: seq<T>, key: T -> int)
    requires SortedDesc(t, key)
    requires forall i :: 0 <= i < |t| ==> key(h) >= key(t[i])
    ensures SortedDesc([h] + t, key)
  {
    var r := [h] + t;
    forall i, j | 0 <= i < j < |r| ensures key(r[i]) >= key(r[j]) {
      assert r[j] == t[j - 1];
      if i > 0 {
        assert r[i] == t[i - 1];
      }
    }
  }

  /**
   * `xs.sort((a, b) => key(b) - key(a))`: the elements of `xs` by descending key.
   * Like the engine's stable sort, elements with equal keys keep their relative order.
   */
  function SortDesc<T>(xs: seq<T>, key: T -> int): (r: seq<T>)
    ensures SortedDesc(r, key)
    ensures multiset(r) == multiset(xs)
  {
    if xs == [] then []
    else
      assert xs == xs[..|xs| - 1] + [xs[|xs| - 1]];
      var p := SortDesc(xs[..|xs| - 1], key);
      assert SortedDesc(InsertDesc(p, xs[|xs| - 1], key), key) by {
        InsertDescSorted(p, xs[|xs| - 1], key);
      }
      InsertDesc(p, xs[|xs| - 1], key)
  }

  /** The end index that `slice(0, end)` uses on a sequence of length `len`. */
  function SliceEnd(len: nat, end: int): (e: nat)
    ensures e <= len
    ensures end >= 0 ==> e == if end < len then end else len
  {
    if end < 0 then (if len + end < 0 then 0 else len + end)
    else if end < len then end else len
  }

  /** `xs.slice(0, end)`. */
  function Take<T>(xs: seq<T>, end: int): (r: seq<T>)
    ensures r == xs[..SliceEnd(|xs|, end)]
    ensures end >= 0 ==> |r| <= end
  {
    xs[..SliceEnd(|xs|, end)]
  }

  /** `xs.slice(-n)` for `n > 0`: the last `n` elements, or all of them. */
  function Last<T>(xs: seq<T>, n: nat): (r: seq<T>)
    ensures |r| == if |xs| < n then |xs| else n
    ensures r == xs[|xs| - |r|..]
  {
    if |xs| < n then xs else xs[|xs| - n..]
  }

  /**
   * The first `k` entries of a descending sort are entries with the largest keys: each of them
   * has a key at least that of every entry left out, and together the two parts are `xs`.
   */
  lemma TopKDominates<T>(xs: seq<T>, key: T -> int, k: int)
    ensures var s := SortDesc(xs, key);
      && multiset(Take(s, k)) + multiset(s[|Take(s, k)|..]) == multiset(xs)
      && forall a, b :: a in Take(s, k) && b in s[|Take(s, k)|..] ==> key(a) >= key(b)
  {
    var s := SortDesc(xs, key);
    var n := |Take(s, k)|;
    assert s == s[..n] + s[n..];
    forall a, b | a in Take(s, k) && b in s[n..] ensures key(a) >= key(b) {
      var i :| 0 <= i < n && s[i] == a;
      var j :| 0 <= j < |s| - n && s[n..][j] == b;
      assert s[n + j] == b;
    }
  }

  /** An element is in `xs` exactly when it is among the first `k` of the sort or among the rest. */
  lemma InTopOrRest<T>(xs: seq<T>, key: T -> int, k: int, x: T)
    ensures var s := SortDesc(xs, key);
      x in xs <==> x in Take(s, k) || x in s[|Take(s, k)|..]
  {
    var s := SortDesc(xs, key);
    var n := |Take(s, k)|;
    assert s == Take(s, k) + s[n..];
    assert x in xs <==> x in multiset(s);
  }
}
