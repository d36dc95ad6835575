/** Python's `list.sort()` on a list: a stable sort under a caller-given
    order `le` ("may come before"). The source calls the sort of the standard
    library rather than writing one; this module gives it meaning as a
    stable insertion sort and proves what the library promises: the result
    is ordered, is a permutation of the input, and keeps equivalent elements
    in their input order. */
module Sorting {

  ghost predicate Total<T(!new)>(le: (T, T) -> bool) {
    forall a, b :: le(a, b) || le(b, a)
  }

  ghost predicate Transitive<T(!new)>(le: (T, T) -> bool) {
    forall a, b, c :: le(a, b) && le(b, c) ==> le(a, c)
  }

  ghost predicate Antisymmetric<T(!new)>(le: (T, T) -> bool) {
    forall a, b :: le(a, b) && le(b, a) ==> a == b
  }

  ghost predicate SortedBy<T>(le: (T, T) -> bool, s: seq<T>) {
    forall i, j :: 0 <= i < j < |s| ==> le(s[i], s[j])
  }

  /** Neither of `x`, `y` must come before the other: their sort keys tie. */
  predicate Equivalent<T>(le: (T, T) -> bool, x: T, y: T) {
    le(x, y) && le(y, x)
  }

  /** The elements of `s` whose key ties with `x`'s, in the order of `s`. */
  function ClassOf<T>(s: seq<T>, x: T, le: (T, T) -> bool): seq<T> {
    if |s| == 0 then []
    else (if Equivalent(le, x, s[0]) then [s[0]] else []) + ClassOf(s[1..], x, le)
  }

  /** Puts `x` in front of the first element it may come before. */
  function Insert<T>(x: T, s: seq<T>, le: (T, T) -> bool): (r: seq<T>)
    ensures multiset(r) == multiset(s) + multiset{x}
  {
    if |s| == 0 || le(x, s[0]) then [x] + s
    else
      assert s == [s[0]] + s[1..];
      [s[0]] + Insert(x, s[1..], le)
  }

  /** `list.sort(key=...)` with the order `le` between keys. */
  function Sort<T>(s: seq<T>, le: (T, T) -> bool): (r: seq<T>)
    ensures multiset(r) == multiset(s)
  {
    if |s| == 0 then []
    else
      assert s == [s[0]] + s[1..];
      Insert(s[0], Sort(s[1..], le), le)
  }

  lemma {:induction false} InsertSorted<T(!new)>(x: T, s: seq<T>, le: (T, T) -> bool)
    requires Total(le) && Transitive(le) && SortedBy(le, s)
    ensures SortedBy(le, Insert(x, s, le))
  {
    if |s| > 0 && !le(x, s[0]) {
      var tail := Insert(x, s[1..], le);
      InsertSorted(x, s[1..], le);
      forall y | y in tail ensures le(s[0], y) {
        assert y in multiset(tail);
        if y != x {
          assert y in multiset(s[1..]);
          var k :| 0 <= k < |s[1..]| && s[1..][k] == y;
          assert s[k + 1] == y;
        }
      }
      var r := [s[0]] + tail;
      forall i, j | 0 <= i < j < |r| ensures le(r[i], r[j]) {
        if i == 0 {
          assert r[j] in tail;
        } else {
          assert r[i] == tail[i - 1] && r[j] == tail[j - 1];
        }
      }
    }
  }

  /** The sort puts its result in order. */
  lemma {:induction false} SortSorted<T(!new)>(s: seq<T>, le: (T, T) -> bool)
    requires Total(le) && Transitive(le)
    ensures SortedBy(le, Sort(s, le))
  {
    if |s| > 0 {
      SortSorted(s[1..], le);
      InsertSorted(s[0], Sort(s[1..], le), le);
    }
  }

  lemma {:induction false} InsertClass<T(!new)>(y: T, t: seq<T>, x: T, le: (T, T) -> bool)
    requires Transitive(le)
    ensures ClassOf(Insert(y, t, le), x, le)
         == (if Equivalent(le, x, y) then [y] else []) + ClassOf(t, x, le)
  {
    if |t| > 0 && !le(y, t[0]) {
      InsertClass(y, t[1..], x, le);
      if Equivalent(le, x, y) {
        assert !Equivalent(le, x, t[0]);
      }
    }
  }

  /** The sort is stable: for every key, the elements with that key keep
      their input order. */
  lemma {:induction false} SortStable<T(!new)>(s: seq<T>, x: T, le: (T, T) -> bool)
    requires Transitive(le)
    ensures ClassOf(Sort(s, le), x, le) == ClassOf(s, x, le)
  {
    if |s| > 0 {
      SortStable(s[1..], x, le);
      InsertClass(s[0], Sort(s[1..], le), x, le);
    }
  }

  /** The first element of an ordered list may come before every element. */
  lemma HeadFirst<T(!new)>(s: seq<T>, x: T, le: (T, T) -> bool)
    requires Total(le) && SortedBy(le, s) && x in s
    ensures le(s[0], x)
  {
    var k :| 0 <= k < |s| && s[k] == x;
    if k > 0 {
      assert le(s[0], s[k]);
    } else {
      assert le(x, x);
    }
  }

  /** Every element of an ordered list may come before its last element. */
  lemma LastAfter<T(!new)>(s: seq<T>, x: T, le: (T, T) -> bool)
    requires Total(le) && SortedBy(le, s) && x in s
    ensures le(x, s[|s| - 1])
  {
    var k :| 0 <= k < |s| && s[k] == x;
    if k < |s| - 1 {
      assert le(s[k], s[|s| - 1]);
    } else {
      assert le(x, x);
    }
  }

  /** Under an order with no ties between distinct values, there is only one
      ordered arrangement of a multiset. */
  lemma {:induction false} SortedUnique<T(!new)>(a: seq<T>, b: seq<T>, le: (T, T) -> bool)
    requires Total(le) && Antisymmetric(le)
    requires SortedBy(le, a) && SortedBy(le, b) && multiset(a) == multiset(b)
    ensures a == b
  {
    if |a| == 0 {
      assert |multiset(b)| == 0;
    } else {
      assert a[0] in multiset(b);
      assert b[0] in multiset(a);
      HeadFirst(b, a[0], le);
      HeadFirst(a, b[0], le);
      assert a[0] == b[0];
      assert a == [a[0]] + a[1..];
      assert b == [b[0]] + b[1..];
      assert multiset(a[1..]) == multiset(a) - multiset{a[0]};
      assert multiset(b[1..]) == multiset(b) - multiset{b[0]};
      SortedUnique(a[1..], b[1..], le);
    }
  }

  /** Sorting two rearrangements of the same elements gives the same list. */
  lemma SortDeterminedByMultiset<T(!new)>(s: seq<T>, t: seq<T>, le: (T, T) -> bool)
    requires Total(le) && Transitive(le) && Antisymmetric(le)
    requires multiset(s) == multiset(t)
    ensures Sort(s, le) == Sort(t, le)
  {
    SortSorted(s, le);
    SortSorted(t, le);
    SortedUnique(Sort(s, le), Sort(t, le), le);
  }
}
