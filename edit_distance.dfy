/** Levenshtein distance, computed the way the trainer does: a full
    `(m+1) x (n+1)` table filled row by row. */
module EditDistance {

  function Min3(x: int, y: int, z: int): (r: int)
    ensures r <= x && r <= y && r <= z
    ensures r == x || r == y || r == z
  {
    if x <= y && x <= z then x else if y <= z then y else z
  }

  function Abs(x: int): nat {
    if x < 0 then -x else x
  }

  function Max(x: int, y: int): int {
    if x < y then y else x
  }

  /** The table entry `dp[i][j]`: the distance between the first `i`
      characters of `a` and the first `j` characters of `b`. */
  function DistAt(a: string, b: string, i: nat, j: nat): nat
    requires i <= |a| && j <= |b|
    decreases i + j
  {
    if i == 0 then j
    else if j == 0 then i
    else if a[i - 1] == b[j - 1] then DistAt(a, b, i - 1, j - 1)
    else 1 + Min3(DistAt(a, b, i - 1, j), DistAt(a, b, i, j - 1), DistAt(a, b, i - 1, j - 1))
  }

  function Dist(a: string, b: string): nat {
    DistAt(a, b, |a|, |b|)
  }

  /** Fills the table, as `calculateEditDistance` and
      `highlightAnswerDifferences` both do. */
  method EditDistanceTable(a: string, b: string) returns (dp: array2<int>)
    ensures fresh(dp) && dp.Length0 == |a| + 1 && dp.Length1 == |b| + 1
    ensures forall i, j {:trigger dp[i, j]} :: 0 <= i <= |a| && 0 <= j <= |b| ==> dp[i, j] == DistAt(a, b, i, j)
  {
    dp := InitTable(|a|, |b|);
    var i := 1;
    while i <= |a|
      invariant 1 <= i <= |a| + 1
      invariant forall p, q {:trigger dp[p, q]} :: 0 <= p < i && 0 <= q <= |b| ==> dp[p, q] == DistAt(a, b, p, q)
      invariant forall p :: i <= p <= |a| ==> dp[p, 0] == p
    {
      FillRow(dp, a, b, i);
      i := i + 1;
    }
  }

  /** The zero-filled table with its first column and first row set to
      `i` and `j`. */
  method InitTable(m: nat, n: nat) returns (dp: array2<int>)
    ensures fresh(dp) && dp.Length0 == m + 1 && dp.Length1 == n + 1
    ensures forall p :: 0 <= p <= m ==> dp[p, 0] == p
    ensures forall q :: 0 <= q <= n ==> dp[0, q] == q
  {
    dp := new int[m + 1, n + 1]((i, j) => 0);
    var i := 0;
    while i <= m
      invariant 0 <= i <= m + 1
      invariant forall p :: 0 <= p < i ==> dp[p, 0] == p
    {
      dp[i, 0] := i;
      i := i + 1;
    }
    var j := 0;
    while j <= n
      invariant 0 <= j <= n + 1
      invariant forall q :: 0 <= q < j ==> dp[0, q] == q
      invariant forall p :: 0 <= p <= m ==> dp[p, 0] == p
    {
      dp[0, j] := j;
      j := j + 1;
    }
  }

  /** Fills row `i` from the row above it. */
  method FillRow(dp: array2<int>, a: string, b: string, i: nat)
    requires 1 <= i <= |a| && dp.Length0 == |a| + 1 && dp.Length1 == |b| + 1
    requires forall p, q {:trigger dp[p, q]} :: 0 <= p < i && 0 <= q <= |b| ==> dp[p, q] == DistAt(a, b, p, q)
    requires dp[i, 0] == i
    modifies dp
    ensures forall p, q {:trigger dp[p, q]} :: 0 <= p <= i && 0 <= q <= |b| ==> dp[p, q] == DistAt(a, b, p, q)
    ensures forall p, q :: 0 <= p < dp.Length0 && 0 <= q < dp.Length1 && p != i ==> dp[p, q] == old(dp[p, q])
  {
    var j := 1;
    while j <= |b|
      invariant 1 <= j <= |b| + 1
      invariant forall q {:trigger dp[i, q]} :: 0 <= q < j ==> dp[i, q] == DistAt(a, b, i, q)
      invariant forall p, q :: 0 <= p < dp.Length0 && 0 <= q < dp.Length1 && p != i ==> dp[p, q] == old(dp[p, q])
    {
      assert dp[i - 1, j - 1] == DistAt(a, b, i - 1, j - 1) && dp[i - 1, j] == DistAt(a, b, i - 1, j);
      var d := if a[i - 1] == b[j - 1] then dp[i - 1, j - 1]
               else 1 + Min3(dp[i - 1, j], dp[i, j - 1], dp[i - 1, j - 1]);
      assert d == DistAt(a, b, i, j);
      dp[i, j] := d;
      j := j + 1;
    }
  }

  /** `calculateEditDistance`. */
  method CalculateEditDistance(a: string, b: string) returns (r: int)
    ensures r == Dist(a, b)
    ensures Abs(|a| - |b|) <= r <= Max(|a|, |b|)
  {
    var dp := EditDistanceTable(a, b);
    r := dp[|a|, |b|];
    DistAtBounds(a, b, |a|, |b|);
  }

  /** Every table entry lies between the length difference and the longer
      length. */
  lemma {:induction false} DistAtBounds(a: string, b: string, i: nat, j: nat)
    requires i <= |a| && j <= |b|
    ensures Abs(i - j) <= DistAt(a, b, i, j) <= Max(i, j)
    decreases i + j
  {
    if i > 0 && j > 0 {
      DistAtBounds(a, b, i - 1, j - 1);
      var z := DistAt(a, b, i - 1, j - 1);
      if a[i - 1] == b[j - 1] {
        assert DistAt(a, b, i, j) == z;
      } else {
        DistAtBounds(a, b, i - 1, j);
        DistAtBounds(a, b, i, j - 1);
        var x, y := DistAt(a, b, i - 1, j), DistAt(a, b, i, j - 1);
        assert DistAt(a, b, i, j) == 1 + Min3(x, y, z);
      }
    }
  }

  /** Against the empty string the distance is the other length. */
  lemma DistEmpty(a: string)
    ensures Dist(a, "") == |a| && Dist("", a) == |a|
  {
  }

  lemma {:induction false} DistAtSame(a: string, i: nat)
    requires i <= |a|
    ensures DistAt(a, a, i, i) == 0
  {
    if i > 0 {
      DistAtSame(a, i - 1);
    }
  }

  /** A string is at distance 0 from itself. */
  lemma DistSelf(a: string)
    ensures Dist(a, a) == 0
  {
    DistAtSame(a, |a|);
  }

  lemma {:induction false} DistAtSymmetric(a: string, b: string, i: nat, j: nat)
    requires i <= |a| && j <= |b|
    ensures DistAt(a, b, i, j) == DistAt(b, a, j, i)
    decreases i + j
  {
    if i > 0 && j > 0 {
      DistAtSymmetric(a, b, i - 1, j - 1);
      if a[i - 1] != b[j - 1] {
        DistAtSymmetric(a, b, i - 1, j);
        DistAtSymmetric(a, b, i, j - 1);
        SymmetricStep(a, b, i, j);
      } else {
        SymmetricStep(a, b, i, j);
      }
    }
  }

  /** Symmetry at `(i, j)` from symmetry at the entries it is built from. */
  lemma SymmetricStep(a: string, b: string, i: nat, j: nat)
    requires 0 < i <= |a| && 0 < j <= |b|
    requires DistAt(a, b, i - 1, j - 1) == DistAt(b, a, j - 1, i - 1)
    requires a[i - 1] != b[j - 1] ==>
      DistAt(a, b, i - 1, j) == DistAt(b, a, j, i - 1) && DistAt(a, b, i, j - 1) == DistAt(b, a, j - 1, i)
    ensures DistAt(a, b, i, j) == DistAt(b, a, j, i)
  {
    DistAtStep(a, b, i, j);
    DistAtStep(b, a, j, i);
    Min3Swap(DistAt(a, b, i - 1, j), DistAt(a, b, i, j - 1), DistAt(a, b, i - 1, j - 1));
  }

  /** One step of the recurrence, away from the borders of the table. */
  lemma DistAtStep(a: string, b: string, i: nat, j: nat)
    requires 0 < i <= |a| && 0 < j <= |b|
    ensures DistAt(a, b, i, j) ==
      if a[i - 1] == b[j - 1] then DistAt(a, b, i - 1, j - 1)
      else 1 + Min3(DistAt(a, b, i - 1, j), DistAt(a, b, i, j - 1), DistAt(a, b, i - 1, j - 1))
  {
  }

  lemma Min3Swap(x: int, y: int, z: int)
    ensures Min3(x, y, z) == Min3(y, x, z)
  {
  }

  /** The distance does not depend on the order of its arguments. */
  lemma DistSymmetric(a: string, b: string)
    ensures Dist(a, b) == Dist(b, a)
  {
    DistAtSymmetric(a, b, |a|, |b|);
  }

  /** Distance zero means equal strings. */
  lemma {:induction false} DistAtZero(a: string, b: string, i: nat, j: nat)
    requires i <= |a| && j <= |b|
    requires DistAt(a, b, i, j) == 0
    ensures i == j && a[..i] == b[..j]
    decreases i + j
  {
    if i > 0 && j > 0 {
      DistAtZero(a, b, i - 1, j - 1);
      assert a[..i] == a[..i - 1] + [a[i - 1]];
      assert b[..j] == b[..j - 1] + [b[j - 1]];
    }
  }

  lemma DistZero(a: string, b: string)
    ensures Dist(a, b) == 0 <==> a == b
  {
    if Dist(a, b) == 0 {
      DistAtZero(a, b, |a|, |b|);
      assert a == a[..|a|] && b == b[..|b|];
    }
    if a == b {
      DistSelf(a);
    }
  }
}
