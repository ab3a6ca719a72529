/** `Array.prototype.sort(compare)`: a stable sort, modelled as insertion
    sort on sequences. The comparator returns a number; negative means
    "before", zero "keep the input order", positive "after". */
module Sorting {
  import opened Seqs

  /** A comparator the sort can rely on: swapping the arguments flips the
      sign, and "not after" is transitive. */
  ghost predicate IsComparator<T(!new)>(cmp: (T, T) -> real) {
    (forall a, b :: cmp(b, a) == -cmp(a, b))
    && (forall a, b, c :: cmp(a, b) <= 0.0 && cmp(b, c) <= 0.0 ==> cmp(a, c) <= 0.0)
  }

  ghost predicate SortedBy<T>(s: seq<T>, cmp: (T, T) -> real) {
    forall i, j :: 0 <= i < j < |s| ==> cmp(s[i], s[j]) <= 0.0
  }

  /** Inserts `x` after every element that does not compare after it. */
  function Insert<T>(s: seq<T>, x: T, cmp: (T, T) -> real): (r: seq<T>)
    ensures multiset(r) == multiset(s) + multiset{x}
    ensures |r| == |s| + 1
  {
    if |s| == 0 then [x]
    else if cmp(s[|s| - 1], x) <= 0.0 then s + [x]
    else
      InitLast(s);
      Insert(s[..|s| - 1], x, cmp) + [s[|s| - 1]]
  }

  /** The stable sort of `s` by `cmp`. */
  function SortBy<T>(s: seq<T>, cmp: (T, T) -> real): (r: seq<T>)
    ensures multiset(r) == multiset(s)
    ensures |r| == |s|
  {
    if |s| == 0 then []
    else
      InitLast(s);
      Insert(SortBy(s[..|s| - 1], cmp), s[|s| - 1], cmp)
  }

  ghost predicate AllNotAfter<T>(s: seq<T>, y: T, cmp: (T, T) -> real) {
    forall k :: 0 <= k < |s| ==> cmp(s[k], y) <= 0.0
  }

  lemma {:induction false} InsertNotAfter<T>(s: seq<T>, x: T, y: T, cmp: (T, T) -> real)
    requires AllNotAfter(s, y, cmp) && cmp(x, y) <= 0.0
    ensures AllNotAfter(Insert(s, x, cmp), y, cmp)
    decreases |s|
  {
    if |s| > 0 && cmp(s[|s| - 1], x) > 0.0 {
      InsertNotAfter(s[..|s| - 1], x, y, cmp);
    }
  }

  lemma SortedAppend<T>(s: seq<T>, x: T, cmp: (T, T) -> real)
    requires SortedBy(s, cmp) && AllNotAfter(s, x, cmp)
    ensures SortedBy(s + [x], cmp)
  {
  }

  lemma {:induction false} InsertSorted<T(!new)>(s: seq<T>, x: T, cmp: (T, T) -> real)
    requires IsComparator(cmp) && SortedBy(s, cmp)
    ensures SortedBy(Insert(s, x, cmp), cmp)
    decreases |s|
  {
    if |s| > 0 {
      var last := s[|s| - 1];
      if cmp(last, x) <= 0.0 {
        SortedAppendAfterLast(s, x, cmp);
      } else {
        var p := s[..|s| - 1];
        assert cmp(x, last) <= 0.0;
        InsertSorted(p, x, cmp);
        InsertNotAfter(p, x, last, cmp);
        SortedAppend(Insert(p, x, cmp), last, cmp);
      }
    }
  }

  /** Appending an element that the last one does not come after keeps a
      sequence sorted. */
  lemma SortedAppendAfterLast<T(!new)>(s: seq<T>, x: T, cmp: (T, T) -> real)
    requires IsComparator(cmp) && SortedBy(s, cmp) && |s| > 0 && cmp(s[|s| - 1], x) <= 0.0
    ensures SortedBy(s + [x], cmp)
  {
    var last := s[|s| - 1];
    forall k | 0 <= k < |s| ensures cmp(s[k], x) <= 0.0 {
      if k < |s| - 1 {
        assert cmp(s[k], last) <= 0.0;
      }
    }
    SortedAppend(s, x, cmp);
  }

  /** The sort orders its output whenever the comparator is consistent. */
  lemma {:induction false} SortBySorted<T(!new)>(s: seq<T>, cmp: (T, T) -> real)
    requires IsComparator(cmp)
    ensures SortedBy(SortBy(s, cmp), cmp)
    decreases |s|
  {
    if |s| > 0 {
      SortBySorted(s[..|s| - 1], cmp);
      InsertSorted(SortBy(s[..|s| - 1], cmp), s[|s| - 1], cmp);
    }
  }

  /** A comparator that never separates two elements keeps the input order:
      this is what stability means for `return 0`. */
  lemma {:induction false} SortByNeutral<T>(s: seq<T>, cmp: (T, T) -> real)
    requires forall i, j :: 0 <= i < |s| && 0 <= j < |s| ==> cmp(s[i], s[j]) == 0.0
    ensures SortBy(s, cmp) == s
    decreases |s|
  {
    if |s| > 0 {
      var p := s[..|s| - 1];
      SortByNeutral(p, cmp);
      if |p| > 0 {
        assert cmp(p[|p| - 1], s[|s| - 1]) == 0.0;
      }
      InitLast(s);
    }
  }
}
