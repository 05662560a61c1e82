/**
 * Sorting on a copy, as done by JavaScript's `Array.prototype.sort` with a
 * comparator and by C's `qsort`. The sort is parameterised by a `le`
 * relation; its facts hold when `le` is a total preorder, and the result is
 * unique when `le` is a total order.
 */
module Sorting {
  ghost predicate TotalPreorder<T(!new)>(le: (T, T) -> bool)
  {
    (forall a, b :: le(a, b) || le(b, a)) &&
    (forall a, b, c :: le(a, b) && le(b, c) ==> le(a, c))
  }

  ghost predicate TotalOrder<T(!new)>(le: (T, T) -> bool)
  {
    TotalPreorder(le) && forall a, b :: le(a, b) && le(b, a) ==> a == b
  }

  predicate SortedBy<T>(s: seq<T>, le: (T, T) -> bool)
  {
    forall i, j :: 0 <= i < j < |s| ==> le(s[i], s[j])
  }

  function Insert<T>(x: T, s: seq<T>, le: (T, T) -> bool): (r: seq<T>)
    ensures multiset(r) == multiset(s) + multiset{x}
    ensures |r| == |s| + 1
  {
    if s == [] then [x]
    else if le(x, s[0]) then [x] + s
    else
      assert s == [s[0]] + s[1..];
      [s[0]] + Insert(x, s[1..], le)
  }

  /** Insertion sort: a permutation of `s`, sorted by `le` (SortBySorted). */
  function SortBy<T>(s: seq<T>, le: (T, T) -> bool): (r: seq<T>)
    ensures multiset(r) == multiset(s)
    ensures |r| == |s|
  {
    if s == [] then []
    else
      assert s == [s[0]] + s[1..];
      Insert(s[0], SortBy(s[1..], le), le)
  }

  lemma {:induction false} InsertSorted<T(!new)>(x: T, s: seq<T>, le: (T, T) -> bool)
    requires TotalPreorder(le) && SortedBy(s, le)
    ensures SortedBy(Insert(x, s, le), le)
  {
    if s != [] && !le(x, s[0]) {
      var tail := s[1..];
      InsertSorted(x, tail, le);
      var r := Insert(x, tail, le);
      forall k | 0 <= k < |r|
        ensures le(s[0], r[k])
      {
        assert r[k] in multiset(r);
        if r[k] != x {
          assert r[k] in multiset(tail);
          var i :| 0 <= i < |tail| && tail[i] == r[k];
          assert s[i + 1] == r[k];
        }
      }
      assert Insert(x, s, le) == [s[0]] + r;
    }
  }

  lemma {:induction false} SortBySorted<T(!new)>(s: seq<T>, le: (T, T) -> bool)
    requires TotalPreorder(le)
    ensures SortedBy(SortBy(s, le), le)
  {
    if s != [] {
      SortBySorted(s[1..], le);
      InsertSorted(s[0], SortBy(s[1..], le), le);
    }
  }

  /** The head of a sorted sequence is below each of its elements. */
  lemma SortedHeadFirst<T(!new)>(s: seq<T>, x: T, le: (T, T) -> bool)
    requires TotalPreorder(le) && SortedBy(s, le) && x in multiset(s)
    ensures le(s[0], x)
  {
    var j :| 0 <= j < |s| && s[j] == x;
    if j > 0 { assert le(s[0], s[j]); }
  }

  /** Removing the head of a non-empty sequence removes one copy from its multiset. */
  lemma TailMultiset<T>(s: seq<T>)
    requires s != []
    ensures multiset(s[1..]) == multiset(s) - multiset{s[0]}
  {
    assert s == [s[0]] + s[1..];
  }

  /** Under a total order there is only one sorted arrangement of a multiset. */
  lemma {:induction false} SortedUnique<T(!new)>(s: seq<T>, t: seq<T>, le: (T, T) -> bool)
    requires TotalOrder(le)
    requires SortedBy(s, le) && SortedBy(t, le) && multiset(s) == multiset(t)
    ensures s == t
  {
    if s != [] {
      assert |multiset(t)| == |t|;
      assert s[0] in multiset(t);
      SortedHeadFirst(t, s[0], le);
      SortedHeadFirst(s, t[0], le);
      assert s[0] == t[0];
      TailMultiset(s);
      TailMultiset(t);
      SortedUnique(s[1..], t[1..], le);
      assert s == [s[0]] + s[1..];
      assert t == [t[0]] + t[1..];
    }
  }

  /** SortBy agrees with every sorted permutation of its input. */
  lemma SortByUnique<T(!new)>(s: seq<T>, t: seq<T>, le: (T, T) -> bool)
    requires TotalOrder(le)
    requires SortedBy(t, le) && multiset(t) == multiset(s)
    ensures SortBy(s, le) == t
  {
    SortBySorted(s, le);
    SortedUnique(SortBy(s, le), t, le);
  }

  /** Sorting depends only on the multiset of the input. */
  lemma SortByPermutation<T(!new)>(s: seq<T>, t: seq<T>, le: (T, T) -> bool)
    requires TotalOrder(le) && multiset(s) == multiset(t)
    ensures SortBy(s, le) == SortBy(t, le)
  {
    SortBySorted(t, le);
    SortByUnique(s, SortBy(t, le), le);
  }

  predicate RealLe(a: real, b: real) { a <= b }
  predicate IntLe(a: int, b: int) { a <= b }

  lemma RealLeTotalOrder()
    ensures TotalOrder(RealLe)
  {
  }

  /** Sorting reals by `<=` gives an ascending sequence. */
  lemma SortedReals(s: seq<real>)
    ensures SortedBy(SortBy(s, RealLe), RealLe)
  {
    RealLeTotalOrder();
    SortBySorted(s, RealLe);
  }

  lemma IntLeTotalOrder()
    ensures TotalOrder(IntLe)
  {
  }
}
