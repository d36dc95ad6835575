/** Python's insertion-ordered `dict`, as an association list. Assigning
    `d[k] = v` replaces the value in place when `k` is already a key and
    appends `(k, v)` otherwise, so the keys stay distinct and keep the order
    in which they were first assigned. */
module PyDict {
  import opened Wrappers

  type Dict<K, V> = seq<(K, V)>

  /** `list(d.keys())`. */
  function Keys<K, V>(d: Dict<K, V>): (ks: seq<K>) {
    seq(|d|, i requires 0 <= i < |d| => d[i].0)
  }

  /** The position of `k` at or after index `i`, scanning left to right. */
  function IndexFrom<K(==), V>(d: Dict<K, V>, k: K, i: nat): (r: Option<nat>)
    requires i <= |d|
    ensures r.Some? ==> i <= r.value < |d| && d[r.value].0 == k
    decreases |d| - i
  {
    if i == |d| then None
    else if d[i].0 == k then Some(i)
    else IndexFrom(d, k, i + 1)
  }

  lemma {:induction false} IndexFromAbsent<K, V>(d: Dict<K, V>, k: K, i: nat)
    requires i <= |d| && IndexFrom(d, k, i).None?
    ensures forall j :: i <= j < |d| ==> d[j].0 != k
    decreases |d| - i
  {
    if i < |d| {
      IndexFromAbsent(d, k, i + 1);
    }
  }

  /** The scan only looks at the keys. */
  lemma {:induction false} IndexFromByKeys<K, V>(a: Dict<K, V>, b: Dict<K, V>, k: K, i: nat)
    requires Keys(a) == Keys(b) && i <= |a|
    ensures |a| == |b| && IndexFrom(a, k, i) == IndexFrom(b, k, i)
    decreases |a| - i
  {
    assert |a| == |Keys(a)| == |Keys(b)| == |b|;
    if i < |a| {
      assert a[i].0 == Keys(a)[i] == Keys(b)[i] == b[i].0;
      IndexFromByKeys(a, b, k, i + 1);
    }
  }

  /** Appending a pair leaves every earlier position where it was. */
  lemma {:induction false} IndexFromAppend<K, V>(d: Dict<K, V>, p: (K, V), k: K, i: nat)
    requires i <= |d|
    ensures IndexFrom(d + [p], k, i)
         == if IndexFrom(d, k, i).Some? then IndexFrom(d, k, i) else if p.0 == k then Some(|d|) else None
    decreases |d| - i
  {
    if i < |d| {
      assert (d + [p])[i] == d[i];
      IndexFromAppend(d, p, k, i + 1);
    } else {
      assert (d + [p])[i] == p;
      if p.0 != k {
        assert IndexFrom(d + [p], k, i + 1) == None;
      }
    }
  }

  /** The position of `k` in `d`, if it is a key. */
  function Index<K(==), V>(d: Dict<K, V>, k: K): (r: Option<nat>)
    ensures r.Some? ==> r.value < |d| && d[r.value].0 == k
    ensures r.None? <==> k !in Keys(d)
  {
    var r := IndexFrom(d, k, 0);
    if r.None? then
      IndexFromAbsent(d, k, 0);
      r
    else
      assert Keys(d)[r.value] == k;
      r
  }

  lemma {:induction false} KeysAt<K, V>(d: Dict<K, V>, i: int)
    requires 0 <= i < |d|
    ensures Keys(d)[i] == d[i].0
  {
  }

  /** `d.get(k)`: the value stored under `k`, if any. */
  function Get<K(==), V>(d: Dict<K, V>, k: K): (r: Option<V>)
    ensures r.Some? <==> k in Keys(d)
    ensures r.Some? ==> (k, r.value) in d
  {
    match Index(d, k)
    case None => None
    case Some(i) => Some(d[i].1)
  }

  /** `d[k] = v`. */
  function Put<K(==,!new), V>(d: Dict<K, V>, k: K, v: V): (r: Dict<K, V>)
    ensures Get(r, k) == Some(v)
    ensures forall k' {:trigger Get(r, k')} :: k' != k ==> Get(r, k') == Get(d, k')
    ensures Keys(r) == if k in Keys(d) then Keys(d) else Keys(d) + [k]
  {
    match Index(d, k)
    case None =>
      var r := d + [(k, v)];
      assert Keys(r) == Keys(d) + [k];
      assert forall k' :: IndexFrom(r, k', 0) == if IndexFrom(d, k', 0).Some? then IndexFrom(d, k', 0) else if k == k' then Some(|d|) else None by {
        forall k' { IndexFromAppend(d, (k, v), k', 0); }
      }
      assert forall k' :: k' != k && IndexFrom(d, k', 0).Some? ==> r[IndexFrom(d, k', 0).value] == d[IndexFrom(d, k', 0).value];
      r
    case Some(i) =>
      var r := d[i := (k, v)];
      assert Keys(r) == Keys(d);
      assert forall k' :: IndexFrom(r, k', 0) == IndexFrom(d, k', 0) by {
        forall k' { IndexFromByKeys(r, d, k', 0); }
      }
      r
  }

  predicate Distinct<T(==)>(s: seq<T>) {
    forall i, j :: 0 <= i < j < |s| ==> s[i] != s[j]
  }

  /** The distinct elements of `s` in order of first appearance: the key
      order of a dict built by assigning the keys of `s` one after another. */
  function Dedup<T(==,!new)>(s: seq<T>): (r: seq<T>)
    ensures Distinct(r)
    ensures forall x :: x in r <==> x in s
  {
    if |s| == 0 then []
    else
      var p := Dedup(s[..|s| - 1]);
      assert forall x :: x in s <==> x in s[..|s| - 1] || x == s[|s| - 1] by {
        assert s == s[..|s| - 1] + [s[|s| - 1]];
      }
      if s[|s| - 1] in p then p else p + [s[|s| - 1]]
  }

  lemma {:induction false} KeysAppend<K, V>(a: Dict<K, V>, b: Dict<K, V>)
    ensures Keys(a + b) == Keys(a) + Keys(b)
  {
    if |a| > 0 {
      assert (a + b)[1..] == a[1..] + b;
      KeysAppend(a[1..], b);
    } else {
      assert a + b == b;
    }
  }

  lemma DedupStep<T(!new)>(s: seq<T>, x: T)
    ensures Dedup(s + [x]) == if x in Dedup(s) then Dedup(s) else Dedup(s) + [x]
  {
    assert (s + [x])[..|s|] == s;
  }

  /** The dict built by assigning the pairs of `pairs` one after another, as
      a loop of `d[k] = v` does. */
  function PutAll<K(==,!new), V>(pairs: seq<(K, V)>): Dict<K, V> {
    if |pairs| == 0 then []
    else Put(PutAll(pairs[..|pairs| - 1]), pairs[|pairs| - 1].0, pairs[|pairs| - 1].1)
  }

  /** Each key appears once, in the order of its first assignment. */
  lemma {:induction false} PutAllKeys<K(!new), V>(pairs: seq<(K, V)>)
    ensures Keys(PutAll(pairs)) == Dedup(Keys(pairs))
  {
    if |pairs| > 0 {
      var n := |pairs| - 1;
      PutAllKeys(pairs[..n]);
      assert pairs == pairs[..n] + [pairs[n]];
      KeysAppend(pairs[..n], [pairs[n]]);
      DedupStep(Keys(pairs[..n]), pairs[n].0);
    }
  }

  /** A key holds the value of its last assignment. */
  lemma PutAllLast<K(!new), V>(pairs: seq<(K, V)>, i: int)
    requires 0 <= i < |pairs|
    requires forall j :: i < j < |pairs| ==> pairs[j].0 != pairs[i].0
    ensures Get(PutAll(pairs), pairs[i].0) == Some(pairs[i].1)
  {
    PutAllFrom(pairs, i, pairs[i].0, pairs[i].1);
  }

  lemma {:induction false} PutAllFrom<K(!new), V>(pairs: seq<(K, V)>, i: int, k: K, v: V)
    requires 0 <= i < |pairs| && pairs[i] == (k, v)
    requires forall j :: i < j < |pairs| ==> pairs[j].0 != k
    ensures Get(PutAll(pairs), k) == Some(v)
  {
    if i < |pairs| - 1 {
      PutAllFrom(pairs[..|pairs| - 1], i, k, v);
    }
  }

  /** A key never assigned is absent. */
  lemma {:induction false} PutAllAbsent<K(!new), V>(pairs: seq<(K, V)>, k: K)
    requires forall j :: 0 <= j < |pairs| ==> pairs[j].0 != k
    ensures Get(PutAll(pairs), k) == None
  {
    if |pairs| > 0 {
      PutAllAbsent(pairs[..|pairs| - 1], k);
    }
  }
}
