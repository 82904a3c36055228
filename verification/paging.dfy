/**
 * Client-side pagination: page counts, the slice of items a page shows, the
 * guard on page changes and the window of page numbers offered.
 */
module Paging {
  import opened Common

  /** `Math.ceil(n / size)`: the least number of pages of `size` items that hold `n` items. */
  function PageCount(n: nat, size: nat): (c: nat)
    requires size > 0
    ensures c * size >= n
    ensures c > 0 ==> (c - 1) * size < n
  {
    var c := (n + size - 1) / size;
    DivBounds(n + size - 1, size);
    c
  }

  lemma DivBounds(x: nat, d: nat)
    requires d > 0
    ensures (x / d) * d <= x < (x / d) * d + d
  {
  }

  /** The index of the first item on the 1-based page `page`. */
  function PageStart(page: nat, size: nat): (start: nat)
    requires page >= 1
    ensures start == (page - 1) * size
  {
    MulNonNegative(page - 1, size);
    (page - 1) * size
  }

  lemma MulNonNegative(a: nat, b: nat)
    ensures a * b >= 0
  {
  }

  /** More pages before a page means a later start. */
  lemma {:induction false} MulMonotonic(a: int, b: int, size: nat)
    requires a <= b
    ensures a * size <= b * size
    decreases b - a
  {
    if a < b {
      MulMonotonic(a, b - 1, size);
      assert (b - 1) * size + size == b * size;
    }
  }

  /**
   * The items on the 1-based page `page`, that is
   * `items.slice((page - 1) * size, (page - 1) * size + size)`.
   */
  function PageSlice<T>(items: seq<T>, page: nat, size: nat): (r: seq<T>)
    requires page >= 1 && size > 0
    ensures |r| == Max(0, Min(size, |items| - PageStart(page, size)))
    ensures forall k :: 0 <= k < |r| ==> r[k] == items[PageStart(page, size) + k]
  {
    var start := PageStart(page, size);
    if start >= |items| then [] else items[start..Min(start + size, |items|)]
  }

  /** Pages 1 to `k` shown one after the other. */
  function PagesUpTo<T>(items: seq<T>, size: nat, k: nat): seq<T>
    requires size > 0
  {
    if k == 0 then [] else PagesUpTo(items, size, k - 1) + PageSlice(items, k, size)
  }

  lemma {:induction false} PagesUpToIsPrefix<T>(items: seq<T>, size: nat, k: nat)
    requires size > 0
    ensures PagesUpTo(items, size, k) == items[..Min(k * size, |items|)]
  {
    if k > 0 {
      PagesUpToIsPrefix(items, size, k - 1);
      var start := PageStart(k, size);
      assert k * size == start + size;
      if start < |items| {
        assert items[..Min(k * size, |items|)] == items[..start] + items[start..Min(start + size, |items|)];
      }
    }
  }

  /** Paging through every page shows each item once, in order. */
  lemma PagesReassemble<T>(items: seq<T>, size: nat)
    requires size > 0
    ensures PagesUpTo(items, size, PageCount(|items|, size)) == items
  {
    PagesUpToIsPrefix(items, size, PageCount(|items|, size));
  }

  /** Item `i` is shown on page `i / size + 1`, at position `i % size`. */
  lemma ItemOnPage<T>(items: seq<T>, size: nat, i: nat)
    requires size > 0 && i < |items|
    ensures var p := PageSlice(items, i / size + 1, size);
      i % size < |p| && p[i % size] == items[i]
  {
    DivBounds(i, size);
    assert PageStart(i / size + 1, size) + i % size == i;
  }

  /**
   * `changePage`: a requested page is taken exactly when it is one of the
   * pages that show at least one item; otherwise the current page stays.
   */
  function ChangePage(current: int, requested: int, n: nat, size: nat): (p: int)
    requires size > 0
    ensures p == (if 1 <= requested && (requested - 1) * size < n then requested else current)
  {
    var c := PageCount(n, size);
    if requested < 1 then current
    else if requested > c then
      MulMonotonic(c, requested - 1, size);
      current
    else
      MulMonotonic(requested - 1, c - 1, size);
      requested
  }

  /**
   * The page numbers offered around `current`: every page within two of it,
   * in increasing order; nothing at all when there is at most one page.
   */
  function PageWindow(current: int, totalPages: nat): (w: Option<seq<int>>)
    ensures w.None? <==> totalPages <= 1
    ensures w.Some? ==> |w.value| <= 5
    ensures w.Some? ==> forall i :: 0 <= i < |w.value| ==>
      1 <= w.value[i] <= totalPages && current - 2 <= w.value[i] <= current + 2
    ensures w.Some? ==> forall i :: 0 < i < |w.value| ==> w.value[i] == w.value[i - 1] + 1
    ensures w.Some? ==> forall q :: 1 <= q <= totalPages && current - 2 <= q <= current + 2 ==> q in w.value
  {
    if totalPages <= 1 then None
    else
      var lo := Max(1, current - 2);
      var hi := Min(totalPages, current + 2);
      RangeHasAll(lo, hi);
      Some(Range(lo, hi))
  }

  /** The integers `lo` to `hi` in increasing order. */
  function Range(lo: int, hi: int): seq<int> {
    seq(Max(0, hi - lo + 1), i => lo + i)
  }

  lemma RangeHasAll(lo: int, hi: int)
    ensures forall q :: lo <= q <= hi ==> q in Range(lo, hi)
  {
    var pages := Range(lo, hi);
    forall q | lo <= q <= hi
      ensures q in pages
    {
      assert pages[q - lo] == q;
    }
  }
}
