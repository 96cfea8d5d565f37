/** What the loan list and the payment page share: the sort-header toggle, filtering a
    list by a predicate, and cutting the filtered list into pages. */
module ListView {

  datatype Direction = Asc | Desc

  /** The `sortConfig` state: `{ key, direction }`. */
  datatype SortConfig<K> = SortConfig(key: K, direction: Direction)

  /** `handleSort(key)`: a click on the header that is already sorted ascending sorts
      it descending; any other click sorts `key` ascending. */
  function ToggleSort<K(==)>(config: SortConfig<K>, key: K): (r: SortConfig<K>)
    ensures r.key == key
    ensures r.direction == Desc <==> config.key == key && config.direction == Asc
  {
    if config.key == key && config.direction == Asc then SortConfig(key, Desc)
    else SortConfig(key, Asc)
  }

  /** Clicking the same header twice always ends in the opposite direction to the
      first click. */
  lemma ToggleTwiceFlips<K>(config: SortConfig<K>, key: K)
    ensures ToggleSort(ToggleSort(config, key), key).key == key
    ensures ToggleSort(ToggleSort(config, key), key).direction != ToggleSort(config, key).direction
  {
  }

  /** `s.filter(keep)`. */
  function Filter<T>(s: seq<T>, keep: T -> bool): seq<T>
    decreases |s|
  {
    if s == [] then []
    else if keep(s[0]) then [s[0]] + Filter(s[1..], keep)
    else Filter(s[1..], keep)
  }

  /** `a` is `b` with some elements left out, the rest in their original order. */
  predicate IsSubsequence<T(==)>(a: seq<T>, b: seq<T>)
    decreases |b|
  {
    if a == [] then true
    else if b == [] then false
    else (a[0] == b[0] && IsSubsequence(a[1..], b[1..])) || IsSubsequence(a, b[1..])
  }

  /** Filtering keeps the order of what it keeps. */
  lemma {:induction false} FilterIsSubsequence<T>(s: seq<T>, keep: T -> bool)
    ensures IsSubsequence(Filter(s, keep), s)
    decreases |s|
  {
    if s != [] {
      FilterIsSubsequence(s[1..], keep);
      var rest := Filter(s[1..], keep);
      if keep(s[0]) {
        assert ([s[0]] + rest)[1..] == rest;
      }
    }
  }

  /** An element is kept exactly when it is in the list and passes the test. */
  lemma {:induction false} FilterMembers<T>(s: seq<T>, keep: T -> bool, x: T)
    ensures x in Filter(s, keep) <==> x in s && keep(x)
    decreases |s|
  {
    if s != [] {
      FilterMembers(s[1..], keep, x);
      assert s == [s[0]] + s[1..];
    }
  }

  /** Each element is kept as many times as it occurs, when it passes the test, and
      not at all otherwise; so no matching duplicate is dropped. */
  lemma {:induction false} FilterCount<T>(s: seq<T>, keep: T -> bool, x: T)
    ensures multiset(Filter(s, keep))[x] == if keep(x) then multiset(s)[x] else 0
    decreases |s|
  {
    if s != [] {
      FilterCount(s[1..], keep, x);
      assert s == [s[0]] + s[1..];
    }
  }

  /** A test that every element passes keeps the whole list. */
  lemma {:induction false} FilterKeepsAll<T>(s: seq<T>, keep: T -> bool)
    requires forall i :: 0 <= i < |s| ==> keep(s[i])
    ensures Filter(s, keep) == s
    decreases |s|
  {
    if s != [] {
      FilterKeepsAll(s[1..], keep);
      assert s == [s[0]] + s[1..];
    }
  }

  /** Two tests that agree on every element keep the same elements. */
  lemma {:induction false} FilterCongruent<T>(s: seq<T>, keep1: T -> bool, keep2: T -> bool)
    requires forall i :: 0 <= i < |s| ==> keep1(s[i]) == keep2(s[i])
    ensures Filter(s, keep1) == Filter(s, keep2)
    decreases |s|
  {
    if s != [] {
      FilterCongruent(s[1..], keep1, keep2);
      assert s == [s[0]] + s[1..];
    }
  }

  /** `Math.ceil(n / size)`. */
  function TotalPages(n: nat, size: nat): nat
    requires size > 0
  {
    (n + size - 1) / size
  }

  /** `totalPages` is the least number of pages of `size` rows that holds `n` rows. */
  lemma TotalPagesIsCeiling(n: nat, size: nat)
    requires size > 0
    ensures TotalPages(n, size) * size >= n
    ensures n > 0 ==> (TotalPages(n, size) - 1) * size < n
    ensures TotalPages(n, size) == 0 <==> n == 0
  {
    var q := TotalPages(n, size);
    var r := (n + size - 1) % size;
    assert n + size - 1 == q * size + r;
  }

  /** `startIndex = (currentPage - 1) * itemsPerPage`. */
  function PageStart(page: int, size: nat): int {
    (page - 1) * size
  }

  /** `list.slice(startIndex, startIndex + size)`, with `slice` clamping both ends to the
      list's length. */
  function PageSlice<T>(s: seq<T>, page: int, size: nat): (r: seq<T>)
    requires page >= 1
    ensures |r| <= size
    ensures |r| == if PageStart(page, size) >= |s| then 0
                   else if PageStart(page, size) + size <= |s| then size
                   else |s| - PageStart(page, size)
    ensures forall k :: 0 <= k < |r| ==> PageStart(page, size) + k < |s| && r[k] == s[PageStart(page, size) + k]
  {
    var start := PageStart(page, size);
    var lo := if start < |s| then start else |s|;
    var hi := if start + size < |s| then start + size else |s|;
    s[lo..hi]
  }

  /** Multiplying by a positive page size keeps the order of page numbers. */
  lemma MulMonotone(a: int, b: int, size: nat)
    requires size > 0
    ensures a <= b <==> a * size <= b * size
  {
    assert b * size - a * size == (b - a) * size;
  }

  /** The pages 1 .. totalPages are the non-empty ones; every later page is empty. */
  lemma PageSliceNonEmpty<T>(s: seq<T>, page: int, size: nat)
    requires page >= 1 && size > 0
    ensures PageSlice(s, page, size) != [] <==> page <= TotalPages(|s|, size)
  {
    var total := TotalPages(|s|, size);
    TotalPagesIsCeiling(|s|, size);
    var start := PageStart(page, size);
    if page <= total {
      MulMonotone(page - 1, total - 1, size);
      assert start < |s|;
      assert |PageSlice(s, page, size)| > 0;
    } else {
      MulMonotone(total, page - 1, size);
      assert start >= |s|;
    }
  }

  /** Row j belongs to page j / size + 1, which is one of the pages, and sits at
      offset j % size from that page's start. */
  lemma PageOfRow(n: nat, size: nat, j: int)
    requires size > 0 && 0 <= j < n
    ensures j / size + 1 <= TotalPages(n, size)
    ensures 0 <= j % size < size
    ensures PageStart(j / size + 1, size) + j % size == j
  {
    var q, r := j / size, j % size;
    assert j == q * size + r;
    assert PageStart(q + 1, size) == q * size;
    TotalPagesIsCeiling(n, size);
    MulMonotone(TotalPages(n, size), q, size);
  }

  /** Every row appears on one page: row j is at position j % size of page j / size + 1. */
  lemma RowOnPage<T>(s: seq<T>, size: nat, j: int)
    requires size > 0 && 0 <= j < |s|
    ensures j / size + 1 <= TotalPages(|s|, size)
    ensures j % size < |PageSlice(s, j / size + 1, size)|
    ensures PageSlice(s, j / size + 1, size)[j % size] == s[j]
  {
    PageOfRow(|s|, size, j);
    var lo := PageStart(j / size + 1, size);
    var hi := if lo + size < |s| then lo + size else |s|;
    assert PageSlice(s, j / size + 1, size) == s[lo..hi];
  }
}
