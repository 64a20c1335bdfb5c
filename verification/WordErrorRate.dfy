/**
 `word_error_rate`: the two-dimensional table filled row by row, and the rate
 that is read off its last cell. Costs are exact; the rate is an exact quotient.
 */
module WordErrorRate {
  import opened EditDistance
  import opened TextNormalization

  /** What cell (i, j) of the table should hold. */
  function Cell<T(==)>(a: seq<T>, b: seq<T>, i: nat, j: nat): nat
    requires i <= |a| && j <= |b|
  {
    Dist(a[..i], b[..j])
  }

  /** The recurrence of the table. */
  lemma CellEquation<T>(a: seq<T>, b: seq<T>, i: nat, j: nat)
    requires i <= |a| && j <= |b|
    ensures i == 0 ==> Cell(a, b, i, j) == j
    ensures j == 0 ==> Cell(a, b, i, j) == i
    ensures i > 0 && j > 0 ==>
              Cell(a, b, i, j) ==
              if a[i - 1] == b[j - 1] then Cell(a, b, i - 1, j - 1)
              else 1 + Min3(Cell(a, b, i - 1, j), Cell(a, b, i, j - 1), Cell(a, b, i - 1, j - 1))
  {
    if i > 0 && j > 0 {
      assert Init(a[..i]) == a[..i - 1] && Init(b[..j]) == b[..j - 1];
    }
  }

  /** The inner loop: one row from the row above it. */
  method FillRow<T(==)>(dp: array2<nat>, reference: seq<T>, hypothesis: seq<T>, i: nat, above: nat)
    requires dp.Length0 == |reference| + 1 && dp.Length1 == |hypothesis| + 1
    requires 1 <= i <= |reference| && above == i - 1 && dp[i, 0] == i
    requires forall l :: 0 <= l <= |hypothesis| ==> dp[above, l] == Cell(reference, hypothesis, above, l)
    modifies dp
    ensures forall l :: 0 <= l <= |hypothesis| ==> dp[i, l] == Cell(reference, hypothesis, i, l)
    ensures forall k, l :: 0 <= k < dp.Length0 && k != i && 0 <= l < dp.Length1 ==> dp[k, l] == old(dp[k, l])
  {
    CellEquation(reference, hypothesis, i, 0);
    for j := 1 to |hypothesis| + 1
      invariant forall l :: 0 <= l < j ==> dp[i, l] == Cell(reference, hypothesis, i, l)
      invariant forall k, l :: 0 <= k < dp.Length0 && k != i && 0 <= l < dp.Length1 ==> dp[k, l] == old(dp[k, l])
    {
      CellEquation(reference, hypothesis, i, j);
      if reference[i - 1] == hypothesis[j - 1] {
        dp[i, j] := dp[i - 1, j - 1];
      } else {
        dp[i, j] := 1 + Min3(dp[i - 1, j], dp[i, j - 1], dp[i - 1, j - 1]);
      }
    }
  }

  /** The border: a column of deletions and a row of insertions. */
  method NewTable(n: nat, m: nat) returns (dp: array2<nat>)
    ensures fresh(dp) && dp.Length0 == n + 1 && dp.Length1 == m + 1
    ensures forall i :: 0 <= i <= n ==> dp[i, 0] == i
    ensures forall j :: 0 <= j <= m ==> dp[0, j] == j
  {
    dp := new nat[n + 1, m + 1]((i, j) => 0);
    for i := 0 to n + 1
      invariant forall k :: 0 <= k < i ==> dp[k, 0] == k
    {
      dp[i, 0] := i;
    }
    for j := 0 to m + 1
      invariant forall k :: 0 <= k <= n ==> dp[k, 0] == k
      invariant forall k :: 0 <= k < j ==> dp[0, k] == k
    {
      dp[0, j] := j;
    }
  }

  /** Fills the table for two word lists and returns its last cell. */
  method EditTable<T(==)>(reference: seq<T>, hypothesis: seq<T>) returns (distance: nat)
    ensures distance == Dist(reference, hypothesis)
  {
    var n, m := |reference|, |hypothesis|;
    var dp := NewTable(n, m);
    forall l | 0 <= l <= m
      ensures dp[0, l] == Cell(reference, hypothesis, 0, l)
    {
      CellEquation(reference, hypothesis, 0, l);
    }
    for above := 0 to n
      invariant forall k :: 0 <= k <= n ==> dp[k, 0] == k
      invariant forall l :: 0 <= l <= m ==> dp[above, l] == Cell(reference, hypothesis, above, l)
    {
      FillRow(dp, reference, hypothesis, above + 1, above);
      CellEquation(reference, hypothesis, above + 1, 0);
    }
    assert reference[..n] == reference && hypothesis[..m] == hypothesis;
    return dp[n, m];
  }

  /** The rate of two word lists: one for an empty reference the hypothesis does not match. */
  function Rate<T(==)>(reference: seq<T>, hypothesis: seq<T>): real {
    if reference == [] then (if hypothesis == [] then 0.0 else 1.0)
    else Dist(reference, hypothesis) as real / |reference| as real
  }

  method WordErrorRate(reference: string, hypothesis: string) returns (rate: real)
    ensures rate == Rate(Split(reference), Split(hypothesis))
  {
    var refWords := Split(reference);
    var hypWords := Split(hypothesis);
    if refWords == [] {
      return if hypWords == [] then 0.0 else 1.0;
    }
    if hypWords == [] {
      QuotientUnits(|refWords|);
      return 1.0;
    }
    var distance := EditTable(refWords, hypWords);
    return distance as real / (if |refWords| < 1 then 1 else |refWords|) as real;
  }

  lemma RateRange<T>(reference: seq<T>, hypothesis: seq<T>)
    requires reference != []
    ensures 0.0 <= Rate(reference, hypothesis) <= Max(|reference|, |hypothesis|) as real / |reference| as real
    ensures Rate(reference, hypothesis) == 0.0 <==> reference == hypothesis
    ensures Rate(reference, hypothesis) > 1.0 ==> |hypothesis| > |reference|
    ensures hypothesis == [] ==> Rate(reference, hypothesis) == 1.0
  {
    DistBounds(reference, hypothesis);
    ZeroIffEqual(reference, hypothesis);
    var d, n := Dist(reference, hypothesis), |reference|;
    QuotientOrder(0, d, n);
    QuotientOrder(d, 0, n);
    QuotientOrder(d, n, n);
    QuotientOrder(d, Max(n, |hypothesis|), n);
    QuotientUnits(n);
  }

  lemma QuotientOrder(x: nat, y: nat, n: nat)
    requires 0 < n
    ensures x <= y <==> x as real / n as real <= y as real / n as real
  {
    if x < y {
      assert y as real == x as real + (y - x) as real;
    } else if y < x {
      assert x as real == y as real + (x - y) as real;
    }
  }

  lemma QuotientUnits(n: nat)
    requires 0 < n
    ensures 0 as real / n as real == 0.0 && n as real / n as real == 1.0
  {
  }

  /**
   The docstring promises the distance over max(reference length, 1) whenever
   the reference is non-empty or the lists agree; on an empty reference the code
   returns one. The two agree unless two or more words are invented from nothing.
   */
  lemma RateIsNormalizedDistanceIff<T>(reference: seq<T>, hypothesis: seq<T>)
    ensures Rate(reference, hypothesis) == Dist(reference, hypothesis) as real / Max(|reference|, 1) as real
       <==> (reference != [] || |hypothesis| <= 1)
  {
  }

  /** Without a reference there is nothing to divide by: 0 for an empty hypothesis, 1 for any other. */
  lemma RateOfEmptyReference<T>(hypothesis: seq<T>)
    ensures Rate([], hypothesis) == if |hypothesis| == 0 then 0.0 else 1.0
  {
  }

  /** Which breaking character separates two words makes no difference to the rate. */
  lemma BreaksAreAlike(u: string, c: char, d: char, v: string)
    requires c in BREAKS && d in BREAKS
    ensures Rate(Split(u + [c] + v), Split(u + [d] + v)) == 0.0
  {
    BreakCutsSplit(u, c, v);
    BreakCutsSplit(u, d, v);
    ZeroIffEqual(Split(u + [c] + v), Split(u + [d] + v));
    var n := |Split(u + [c] + v)|;
    if n > 0 {
      QuotientUnits(n);
    }
  }
}
