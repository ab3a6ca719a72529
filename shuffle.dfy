/** `shuffle`: the in-place Fisher–Yates shuffle. `Math.random()` is a
    parameter: `random(k)` is the `k`-th number it returns, in `[0, 1)`. */
module Shuffle {

  /** `Math.floor(r * (i + 1))`: an index in `[0, i]` for `r` in `[0, 1)`. */
  function PickIndex(r: real, i: nat): (j: nat)
    requires 0.0 <= r < 1.0
    ensures j <= i
  {
    ProductBounds(r, (i + 1) as real);
    (r * (i + 1) as real).Floor
  }

  lemma ProductBounds(r: real, m: real)
    requires 0.0 <= r < 1.0 && m > 0.0
    ensures 0.0 <= r * m < m
  {
    assert m - r * m == (1.0 - r) * m;
  }

  function Swap<T>(s: seq<T>, i: nat, j: nat): (r: seq<T>)
    requires i < |s| && j < |s|
    ensures |r| == |s| && r[i] == s[j] && r[j] == s[i]
    ensures forall k :: 0 <= k < |s| && k != i && k != j ==> r[k] == s[k]
  {
    s[i := s[j]][j := s[i]]
  }

  /** The shuffle of `s` from position `i` down to 1, where the `n`-th swap
      uses `random(n)`. */
  function FisherYates<T>(s: seq<T>, i: nat, n: nat, random: nat -> real): seq<T>
    requires i < |s| || (i == 0 && |s| == 0)
    requires forall k :: 0.0 <= random(k) < 1.0
    decreases i
  {
    if i == 0 then s
    else FisherYates(Swap(s, i, PickIndex(random(n), i)), i - 1, n + 1, random)
  }

  /** Swapping two positions rearranges the elements. */
  lemma SwapPermutes<T>(s: seq<T>, i: nat, j: nat)
    requires i < |s| && j < |s|
    ensures multiset(Swap(s, i, j)) == multiset(s)
  {
    if i != j {
      var t := s[i := s[j]];
      assert multiset(t) == multiset(s) - multiset{s[i]} + multiset{s[j]};
    }
  }

  /** The shuffle returns a rearrangement of its input: the same elements,
      each as many times. */
  lemma {:induction false} FisherYatesPermutes<T>(s: seq<T>, i: nat, n: nat, random: nat -> real)
    requires i < |s| || (i == 0 && |s| == 0)
    requires forall k :: 0.0 <= random(k) < 1.0
    ensures |FisherYates(s, i, n, random)| == |s|
    ensures multiset(FisherYates(s, i, n, random)) == multiset(s)
    decreases i
  {
    if i > 0 {
      var j := PickIndex(random(n), i);
      SwapPermutes(s, i, j);
      FisherYatesPermutes(Swap(s, i, j), i - 1, n + 1, random);
    }
  }

  /** Positions above `i` are never touched again: once placed, the last
      element stays. */
  lemma {:induction false} FisherYatesKeepsTail<T>(s: seq<T>, i: nat, n: nat, random: nat -> real)
    requires i < |s|
    requires forall k :: 0.0 <= random(k) < 1.0
    ensures |FisherYates(s, i, n, random)| == |s|
    ensures FisherYates(s, i, n, random)[i + 1..] == s[i + 1..]
    decreases i
  {
    FisherYatesPermutes(s, i, n, random);
    if i > 0 {
      var t := Swap(s, i, PickIndex(random(n), i));
      var r := FisherYates(t, i - 1, n + 1, random);
      FisherYatesKeepsTail(t, i - 1, n + 1, random);
      assert r[i + 1..] == r[i..][1..];
      assert t[i + 1..] == t[i..][1..];
      assert t[i + 1..] == s[i + 1..];
    }
  }

  /** When every draw picks the position itself (`random` just below 1),
      nothing moves. */
  lemma {:induction false} FisherYatesIdentity<T>(s: seq<T>, i: nat, n: nat, random: nat -> real)
    requires i < |s| || (i == 0 && |s| == 0)
    requires forall k :: 0.0 <= random(k) < 1.0
    requires forall k :: n <= k < n + i ==> PickIndex(random(k), i + n - k) == i + n - k
    ensures FisherYates(s, i, n, random) == s
    decreases i
  {
    if i > 0 {
      assert PickIndex(random(n), i) == i;
      assert Swap(s, i, i) == s;
      FisherYatesIdentity(s, i - 1, n + 1, random);
    }
  }

  /** The in-place loop: `for (i = length - 1; i > 0; i--)`, swapping
      position `i` with a random position at or below it. */
  method Shuffle<T>(a: array<T>, random: nat -> real)
    requires forall k :: 0.0 <= random(k) < 1.0
    modifies a
    ensures a[..] == FisherYates(old(a[..]), if a.Length == 0 then 0 else a.Length - 1, 0, random)
    ensures multiset(a[..]) == multiset(old(a[..]))
  {
    ghost var s := a[..];
    if a.Length == 0 {
      return;
    }
    var i := a.Length - 1;
    var n := 0;
    while i > 0
      invariant 0 <= i < a.Length && n == a.Length - 1 - i
      invariant FisherYates(a[..], i, n, random) == FisherYates(s, a.Length - 1, 0, random)
    {
      var j := PickIndex(random(n), i);
      a[i], a[j] := a[j], a[i];
      i := i - 1;
      n := n + 1;
    }
    FisherYatesPermutes(s, a.Length - 1, 0, random);
  }
}
