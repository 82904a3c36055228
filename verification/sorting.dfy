/**
 * `Array.prototype.sort` with a comparator. Since ECMAScript 2019 the sort is
 * stable, so the result is determined by the comparator; it is modelled by a
 * stable insertion sort. `le(a, b)` says that `a` may stay before `b`, that
 * is, the comparator returns a value <= 0 for `(a, b)`.
 */
module Sorting {
  import opened Seqs

  /** `le` orders every pair of values and is transitive: a consistent comparator. */
  ghost predicate TotalPreorder<T(!new)>(le: (T, T) -> bool) {
    (forall a, b :: le(a, b) || le(b, a))
    && (forall a, b, c :: le(a, b) && le(b, c) ==> le(a, c))
  }

  predicate SortedBy<T>(s: seq<T>, le: (T, T) -> bool) {
    forall i, j :: 0 <= i < j < |s| ==> le(s[i], s[j])
  }

  /** A value that may precede every element of a sorted list may be put in front of it. */
  lemma PrependSorted<T(!new)>(y: T, t: seq<T>, le: (T, T) -> bool)
    requires SortedBy(t, le)
    requires forall z :: z in multiset(t) ==> le(y, z)
    ensures SortedBy([y] + t, le)
  {
    var r := [y] + t;
    forall i, j | 0 <= i < j < |r|
      ensures le(r[i], r[j])
    {
      assert r[j] == t[j - 1] && t[j - 1] in multiset(t);
      if i > 0 {
        assert r[i] == t[i - 1];
      }
    }
  }

  /** A value that may precede the head of a sorted list may be put in front of it. */
  lemma PrependBeforeHead<T(!new)>(x: T, s: seq<T>, le: (T, T) -> bool)
    requires TotalPreorder(le)
    requires SortedBy(s, le)
    requires s == [] || le(x, s[0])
    ensures SortedBy([x] + s, le)
  {
    forall z | z in multiset(s)
      ensures le(x, z)
    {
      var j :| 0 <= j < |s| && s[j] == z;
      if j > 0 {
        assert le(s[0], s[j]);
      }
    }
    PrependSorted(x, s, le);
  }

  /**
   * When `x` may not precede the head of a sorted list, the head may precede
   * `x` and every other element, so it stays in front of the rest with `x`
   * inserted.
   */
  lemma HeadStaysFirst<T(!new)>(x: T, s: seq<T>, rest: seq<T>, le: (T, T) -> bool)
    requires TotalPreorder(le)
    requires SortedBy(s, le) && s != [] && !le(x, s[0])
    requires SortedBy(rest, le) && multiset(rest) == multiset(s[1..]) + multiset{x}
    ensures SortedBy([s[0]] + rest, le)
  {
    forall z | z in multiset(rest)
      ensures le(s[0], z)
    {
      if z != x {
        var j :| 1 <= j < |s| && s[j] == z;
      }
    }
    PrependSorted(s[0], rest, le);
  }

  /** Inserts `x` before the first element it may precede; `x` stays ahead of its equals. */
  function Insert<T(==,!new)>(x: T, s: seq<T>, le: (T, T) -> bool): (r: seq<T>)
    requires TotalPreorder(le)
    requires SortedBy(s, le)
    ensures SortedBy(r, le)
    ensures multiset(r) == multiset(s) + multiset{x}
    ensures |r| == |s| + 1
  {
    if s == [] || le(x, s[0]) then
      PrependBeforeHead(x, s, le);
      [x] + s
    else
      var rest := Insert(x, s[1..], le);
      assert s == [s[0]] + s[1..];
      HeadStaysFirst(x, s, rest, le);
      [s[0]] + rest
  }

  /** The values the comparator cannot tell apart from `k`: a tie with `k`. */
  function Equivalent<T>(le: (T, T) -> bool, k: T): T -> bool {
    (y: T) => le(y, k) && le(k, y)
  }

  /**
   * Stability: for every value `k`, the elements of `r` tied with `k` are
   * those of `s`, in the same order.
   */
  ghost predicate KeepsTies<T(!new)>(r: seq<T>, s: seq<T>, le: (T, T) -> bool) {
    forall k :: Filter(r, Equivalent(le, k)) == Filter(s, Equivalent(le, k))
  }

  /**
   * For every value `k`, the elements of `r` tied with `k` are the first
   * of those of `s`, in the same order: what a stable sort cut short keeps.
   */
  ghost predicate KeepsEarliestTies<T(!new)>(r: seq<T>, s: seq<T>, le: (T, T) -> bool) {
    forall k :: Filter(r, Equivalent(le, k)) <= Filter(s, Equivalent(le, k))
  }

  /**
   * Inserting `x` puts it ahead of every element tied with it, so among the
   * elements tied with any `k` it comes first.
   */
  lemma {:induction false} InsertKeepsTies<T(!new)>(x: T, s: seq<T>, le: (T, T) -> bool, k: T)
    requires TotalPreorder(le)
    requires SortedBy(s, le)
    ensures Filter(Insert(x, s, le), Equivalent(le, k))
      == (if Equivalent(le, k)(x) then [x] else []) + Filter(s, Equivalent(le, k))
  {
    var e := Equivalent(le, k);
    if s == [] || le(x, s[0]) {
      assert ([x] + s)[1..] == s;
    } else {
      var rest := Insert(x, s[1..], le);
      assert ([s[0]] + rest)[1..] == rest;
      InsertKeepsTies(x, s[1..], le, k);
      assert e(x) ==> !e(s[0]);
    }
  }

  /** The stable sort of `s` under the comparator `le`. */
  function SortBy<T(==,!new)>(s: seq<T>, le: (T, T) -> bool): (r: seq<T>)
    requires TotalPreorder(le)
    ensures SortedBy(r, le)
    ensures multiset(r) == multiset(s)
    ensures |r| == |s|
    ensures KeepsTies(r, s, le)
  {
    if s == [] then []
    else
      assert s == [s[0]] + s[1..];
      var t := SortBy(s[1..], le);
      forall k
        ensures Filter(Insert(s[0], t, le), Equivalent(le, k)) == Filter(s, Equivalent(le, k))
      {
        InsertKeepsTies(s[0], t, le, k);
      }
      Insert(s[0], t, le)
  }

  /** Sorting a list that is already in order leaves it as it is. */
  lemma {:induction false} SortSortedIsIdentity<T(!new)>(s: seq<T>, le: (T, T) -> bool)
    requires TotalPreorder(le)
    requires SortedBy(s, le)
    ensures SortBy(s, le) == s
  {
    if s != [] {
      SortSortedIsIdentity(s[1..], le);
    }
  }

  /**
   * In a sorted list, an element left out of the first `k` may follow every
   * one of them.
   */
  lemma LeftOutFollowPrefix<T>(sorted: seq<T>, le: (T, T) -> bool, k: nat)
    requires SortedBy(sorted, le)
    requires k <= |sorted|
    ensures multiset(sorted[..k]) <= multiset(sorted)
    ensures forall x :: x in multiset(sorted) - multiset(sorted[..k]) ==> forall i :: 0 <= i < k ==> le(sorted[i], x)
  {
    var head, tail := sorted[..k], sorted[k..];
    assert sorted == head + tail;
    assert multiset(sorted) == multiset(head) + multiset(tail);
    forall x | x in multiset(sorted) - multiset(head)
      ensures forall i :: 0 <= i < k ==> le(sorted[i], x)
    {
      assert x in multiset(tail);
      var j :| 0 <= j < |tail| && tail[j] == x;
      assert sorted[k + j] == x;
    }
  }

  /**
   * The first `k` elements of the sorted list, or all of it when it is
   * shorter: drawn from the list, in order, and every element left out may
   * follow each of them. Among tied elements the earliest ones are kept,
   * in their original order.
   */
  function FirstSorted<T(==,!new)>(s: seq<T>, le: (T, T) -> bool, k: nat): (r: seq<T>)
    requires TotalPreorder(le)
    ensures |r| == if k < |s| then k else |s|
    ensures multiset(r) <= multiset(s)
    ensures SortedBy(r, le)
    ensures forall x :: x in multiset(s) - multiset(r) ==> forall i :: 0 <= i < |r| ==> le(r[i], x)
    ensures KeepsEarliestTies(r, s, le)
  {
    var n := if k < |s| then k else |s|;
    var sorted := SortBy(s, le);
    LeftOutFollowPrefix(sorted, le, n);
    forall t
      ensures Filter(sorted[..n], Equivalent(le, t)) <= Filter(s, Equivalent(le, t))
    {
      assert sorted == sorted[..n] + sorted[n..];
      FilterAppend(sorted[..n], sorted[n..], Equivalent(le, t));
    }
    sorted[..n]
  }
}
