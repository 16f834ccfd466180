/**
 * Sorting with a JavaScript-style comparator, as `Array.prototype.sort(cmp)`
 * does it: `cmp(a, b) <= 0` lets `a` stay before `b`. The engine's algorithm
 * is not part of the pages; `SortBy` is a stable insertion sort standing in
 * for it, and what the pages rely on is proved about it: the result is a
 * permutation of the input, ordered by the comparator.
 */
module Sorting {

  /**
   * What a consistent comparator promises: opposite signs when the arguments
   * are swapped, and "not after" is transitive.
   */
  ghost predicate IsComparator<T(!new)>(cmp: (T, T) -> int) {
    && (forall a, b :: cmp(a, b) < 0 <==> cmp(b, a) > 0)
    && (forall a, b, c :: cmp(a, b) <= 0 && cmp(b, c) <= 0 ==> cmp(a, c) <= 0)
  }

  /** Every element is "not after" every later element. */
  ghost predicate SortedBy<T>(s: seq<T>, cmp: (T, T) -> int) {
    forall i, j :: 0 <= i < j < |s| ==> cmp(s[i], s[j]) <= 0
  }

  /** The comparator returned for `direction === "asc" ? cmp : -cmp`. */
  function Negated<T(!new)>(cmp: (T, T) -> int): (neg: (T, T) -> int)
    ensures forall a, b :: neg(a, b) == -cmp(a, b)
  {
    (a, b) => -cmp(a, b)
  }

  /** Comparing by an integer projection, `(a, b) => key(a) - key(b)`. */
  function ByInt<T(!new)>(key: T -> int): (cmp: (T, T) -> int)
    ensures forall a, b :: cmp(a, b) == key(a) - key(b)
  {
    (a, b) => key(a) - key(b)
  }

  /** Comparing by a projection under another comparator, `(a, b) => collate(f(a), f(b))`. */
  function Through<T(!new), U>(collate: (U, U) -> int, f: T -> U): (cmp: (T, T) -> int)
    ensures forall a, b :: cmp(a, b) == collate(f(a), f(b))
  {
    (a, b) => collate(f(a), f(b))
  }

  lemma NegatedIsComparator<T(!new)>(cmp: (T, T) -> int)
    requires IsComparator(cmp)
    ensures IsComparator(Negated(cmp))
  {
    var neg := Negated(cmp);
    forall a, b, c | neg(a, b) <= 0 && neg(b, c) <= 0 ensures neg(a, c) <= 0 {
      assert cmp(b, a) <= 0 && cmp(c, b) <= 0;
      assert cmp(c, a) <= 0;
    }
  }

  lemma ByIntIsComparator<T(!new)>(key: T -> int)
    ensures IsComparator(ByInt(key))
  {
  }

  lemma ThroughIsComparator<T(!new), U(!new)>(collate: (U, U) -> int, f: T -> U)
    requires IsComparator(collate)
    ensures IsComparator(Through(collate, f))
  {
    var cmp := Through(collate, f);
    forall a, b, c | cmp(a, b) <= 0 && cmp(b, c) <= 0 ensures cmp(a, c) <= 0 {
      assert collate(f(a), f(b)) <= 0 && collate(f(b), f(c)) <= 0;
    }
  }

  /** Places `x` before the first element it is "not after". */
  function Insert<T>(x: T, s: seq<T>, cmp: (T, T) -> int): (r: seq<T>)
    ensures multiset(r) == multiset(s) + multiset{x}
    ensures |r| == |s| + 1
  {
    if s == [] then [x]
    else if cmp(x, s[0]) <= 0 then [x] + s
    else
      assert s == [s[0]] + s[1..];
      [s[0]] + Insert(x, s[1..], cmp)
  }

  /** Insertion sort: sort the tail, then insert the head. */
  function SortBy<T>(s: seq<T>, cmp: (T, T) -> int): (r: seq<T>)
    ensures multiset(r) == multiset(s)
    ensures |r| == |s|
  {
    if s == [] then []
    else
      assert s == [s[0]] + s[1..];
      Insert(s[0], SortBy(s[1..], cmp), cmp)
  }

  /** Inserting an element that `h` is not after keeps `h` a lower bound. */
  lemma {:induction false} InsertKeepsLowerBound<T>(h: T, x: T, s: seq<T>, cmp: (T, T) -> int)
    requires cmp(h, x) <= 0
    requires forall k :: 0 <= k < |s| ==> cmp(h, s[k]) <= 0
    ensures forall k :: 0 <= k < |s| + 1 ==> cmp(h, Insert(x, s, cmp)[k]) <= 0
  {
    if s != [] && cmp(x, s[0]) > 0 {
      InsertKeepsLowerBound(h, x, s[1..], cmp);
      var rest := Insert(x, s[1..], cmp);
      assert Insert(x, s, cmp) == [s[0]] + rest;
    }
  }

  /** A sorted sequence stays sorted under a new head that is not after any of its elements. */
  lemma PrependSorted<T>(x: T, s: seq<T>, cmp: (T, T) -> int)
    requires SortedBy(s, cmp)
    requires forall k :: 0 <= k < |s| ==> cmp(x, s[k]) <= 0
    ensures SortedBy([x] + s, cmp)
  {
    var r := [x] + s;
    forall i, j | 0 <= i < j < |r| ensures cmp(r[i], r[j]) <= 0 {
      assert r[j] == s[j - 1];
      if i > 0 {
        assert r[i] == s[i - 1];
      }
    }
  }

  lemma TailSorted<T>(s: seq<T>, cmp: (T, T) -> int)
    requires s != [] && SortedBy(s, cmp)
    ensures SortedBy(s[1..], cmp)
    ensures forall k :: 0 <= k < |s[1..]| ==> cmp(s[0], s[1..][k]) <= 0
  {
    forall i, j | 0 <= i < j < |s[1..]| ensures cmp(s[1..][i], s[1..][j]) <= 0 {
      assert s[1..][i] == s[i + 1] && s[1..][j] == s[j + 1];
    }
    forall k | 0 <= k < |s[1..]| ensures cmp(s[0], s[1..][k]) <= 0 {
      assert s[1..][k] == s[k + 1];
    }
  }

  lemma {:induction false} InsertSorted<T(!new)>(x: T, s: seq<T>, cmp: (T, T) -> int)
    requires IsComparator(cmp) && SortedBy(s, cmp)
    ensures SortedBy(Insert(x, s, cmp), cmp)
  {
    if s == [] {
    } else if cmp(x, s[0]) > 0 {
      TailSorted(s, cmp);
      InsertSorted(x, s[1..], cmp);
      InsertKeepsLowerBound(s[0], x, s[1..], cmp);
      PrependSorted(s[0], Insert(x, s[1..], cmp), cmp);
    } else {
      forall k | 0 <= k < |s| ensures cmp(x, s[k]) <= 0 {
        if k > 0 {
          assert cmp(s[0], s[k]) <= 0;
        }
      }
      PrependSorted(x, s, cmp);
    }
  }

  /** The sorted sequence is ordered by the comparator, whenever the comparator is consistent. */
  lemma {:induction false} SortBySorted<T(!new)>(s: seq<T>, cmp: (T, T) -> int)
    requires IsComparator(cmp)
    ensures SortedBy(SortBy(s, cmp), cmp)
  {
    if s != [] {
      SortBySorted(s[1..], cmp);
      InsertSorted(s[0], SortBy(s[1..], cmp), cmp);
    }
  }
}
