/** Sequence helpers standing for the JavaScript array methods the source
    uses: `filter`, `some`, and duplicate-freedom of a list. */
module Seqs {

  /** `Array.prototype.filter`: the elements of `s` that satisfy `p`, in order. */
  function Filter<T>(s: seq<T>, p: T -> bool): (r: seq<T>)
    ensures |r| <= |s|
    ensures forall k :: 0 <= k < |r| ==> r[k] in s && p(r[k])
    ensures forall k :: 0 <= k < |s| && p(s[k]) ==> s[k] in r
  {
    if |s| == 0 then []
    else
      InitLast(s);
      Filter(s[..|s| - 1], p) + (if p(s[|s| - 1]) then [s[|s| - 1]] else [])
  }

  /** The elements of a filter are those of the sequence that match. */
  lemma {:induction false} FilterMembers<T>(s: seq<T>, p: T -> bool)
    ensures forall x :: x in Filter(s, p) <==> x in s && p(x)
    decreases |s|
  {
    if |s| > 0 {
      var init := s[..|s| - 1];
      FilterMembers(init, p);
      InitLast(s);
      assert forall x :: x in s <==> x in init || x == s[|s| - 1];
    }
  }

  /** Filtering takes each element at most as often as it occurs. */
  lemma {:induction false} FilterSubMultiset<T>(s: seq<T>, p: T -> bool)
    ensures multiset(Filter(s, p)) <= multiset(s)
    decreases |s|
  {
    if |s| > 0 {
      var init := s[..|s| - 1];
      FilterSubMultiset(init, p);
      InitLast(s);
      assert multiset(s) == multiset(init) + multiset([s[|s| - 1]]);
    }
  }

  /** A non-empty sequence is its head followed by its tail. */
  lemma HeadTail<T>(s: seq<T>)
    requires |s| >= 1
    ensures s == [s[0]] + s[1..]
  {
  }

  /** A non-empty sequence is its front followed by its last element. */
  lemma InitLast<T>(s: seq<T>)
    requires |s| >= 1
    ensures s[..|s| - 1] + [s[|s| - 1]] == s
  {
  }

  ghost predicate Distinct<T>(s: seq<T>) {
    forall i, j :: 0 <= i < j < |s| ==> s[i] != s[j]
  }

  lemma {:induction false} FilterAppend<T>(a: seq<T>, b: seq<T>, p: T -> bool)
    ensures Filter(a + b, p) == Filter(a, p) + Filter(b, p)
    decreases |b|
  {
    if |b| == 0 {
      assert a + b == a;
    } else {
      var b' := b[..|b| - 1];
      assert (a + b)[..|a + b| - 1] == a + b';
      FilterAppend(a, b', p);
    }
  }

  /** Once a prefix holds as many matches as the whole sequence, the rest
      contributes nothing. */
  lemma FilterPrefixComplete<T>(s: seq<T>, k: nat, p: T -> bool)
    requires k <= |s|
    requires |Filter(s[..k], p)| == |Filter(s, p)|
    ensures Filter(s[..k], p) == Filter(s, p)
  {
    var front, rest := s[..k], s[k..];
    assert front + rest == s;
    FilterAppend(front, rest, p);
    assert |Filter(rest, p)| == 0;
    assert Filter(front, p) + Filter(rest, p) == Filter(front, p);
  }

  /** The first element is kept or dropped, then the rest is filtered. */
  lemma FilterFront<T>(s: seq<T>, p: T -> bool)
    requires |s| > 0
    ensures Filter(s, p) == (if p(s[0]) then [s[0]] else []) + Filter(s[1..], p)
  {
    var h := [s[0]];
    assert s == h + s[1..];
    FilterAppend(h, s[1..], p);
    assert Filter(h, p) == (if p(s[0]) then [s[0]] else []) by {
      assert h[..0] == [];
    }
  }

  /** Extending a prefix by one element adds that element iff it matches. */
  lemma FilterStep<T>(s: seq<T>, k: nat, p: T -> bool)
    requires k < |s|
    ensures Filter(s[..k + 1], p) == Filter(s[..k], p) + (if p(s[k]) then [s[k]] else [])
  {
    assert s[..k + 1][..k] == s[..k];
  }

  lemma {:induction false} FilterAll<T>(s: seq<T>, p: T -> bool)
    requires forall k :: 0 <= k < |s| ==> p(s[k])
    ensures Filter(s, p) == s
    decreases |s|
  {
    if |s| > 0 {
      var init := s[..|s| - 1];
      FilterAll(init, p);
      InitLast(s);
    }
  }

  lemma {:induction false} FilterDistinct<T>(s: seq<T>, p: T -> bool)
    requires Distinct(s)
    ensures Distinct(Filter(s, p))
    decreases |s|
  {
    if |s| > 0 {
      var s' := s[..|s| - 1];
      FilterDistinct(s', p);
      assert s[|s| - 1] !in s';
    }
  }

  /** The concatenation of a sequence of sequences (`join('')`). */
  function Concat<T>(ss: seq<seq<T>>): seq<T> {
    if |ss| == 0 then [] else Concat(ss[..|ss| - 1]) + ss[|ss| - 1]
  }

  lemma {:induction false} ConcatAppend<T>(a: seq<seq<T>>, b: seq<seq<T>>)
    ensures Concat(a + b) == Concat(a) + Concat(b)
    decreases |b|
  {
    if |b| == 0 {
      assert a + b == a;
    } else {
      assert (a + b)[..|a + b| - 1] == a + b[..|b| - 1];
      ConcatAppend(a, b[..|b| - 1]);
    }
  }
}
