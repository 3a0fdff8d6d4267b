/** Maximum drawdown and its duration in one pass over the equity curve (metrics.py). */
module Drawdown {

  /** The highest equity among the first `k + 1`. */
  function Peak(e: seq<real>, k: nat): real
    requires k < |e|
  {
    if k == 0 || e[k] >= Peak(e, k - 1) then e[k] else Peak(e, k - 1)
  }

  /** Strictly below the running maximum. */
  predicate Below(e: seq<real>, k: int)
  {
    0 <= k < |e| && e[k] < Peak(e, k)
  }

  function Drop(from: real, to: real): real { if from > 0.0 then (from - to) / from * 100.0 else 0.0 }

  ghost predicate IsMaxDrop(e: seq<real>, dd: real)
  {
    && dd >= 0.0
    && (forall k :: Below(e, k) ==> Drop(Peak(e, k), e[k]) <= dd)
    && (dd == 0.0 || exists k :: Below(e, k) && dd == Drop(Peak(e, k), e[k]))
  }

  /** Every index of `[a, b)` lies below the running maximum. */
  ghost predicate Underwater(e: seq<real>, a: int, b: int)
  {
    0 <= a <= b <= |e| && forall k :: a <= k < b ==> Below(e, k)
  }

  /** No block that ends by `edge` is longer than `d`. */
  ghost predicate LongestUpTo(e: seq<real>, edge: int, d: int)
  {
    forall a, b :: Underwater(e, a, b) && b <= edge ==> b - a <= d
  }

  ghost predicate IsLongestUnderwater(e: seq<real>, d: nat)
  {
    LongestUpTo(e, |e|, d) && exists a, b :: Underwater(e, a, b) && b - a == d
  }

  /** No drop before `i` is deeper than `dd`, which is none or the one at `worst`. */
  ghost predicate WorstUpTo(e: seq<real>, i: int, dd: real, worst: int)
  {
    && dd >= 0.0
    && (forall k :: k < i && Below(e, k) ==> Drop(Peak(e, k), e[k]) <= dd)
    && (dd == 0.0 || (Below(e, worst) && dd == Drop(Peak(e, worst), e[worst])))
  }

  lemma WorstIsMaxDrop(e: seq<real>, dd: real, worst: int)
    requires WorstUpTo(e, |e|, dd, worst)
    ensures IsMaxDrop(e, dd)
  {
  }

  method MaxDrawdown(e: seq<real>) returns (maxDd: real, maxDuration: nat)
    ensures IsMaxDrop(e, maxDd)
    ensures IsLongestUnderwater(e, maxDuration)
  {
    if e == [] {
      assert Underwater(e, 0, 0);
      return 0.0, 0;
    }
    var peak := e[0];
    maxDd, maxDuration := 0.0, 0;
    var start := 0;
    var inDrawdown := false;
    ghost var from, to, worst := 0, 0, 0;
    for i := 0 to |e|
      invariant if i > 0 then peak == Peak(e, i - 1) else peak == e[0] && !inDrawdown
      invariant WorstUpTo(e, i, maxDd, worst)
      invariant if inDrawdown then start < i && Underwater(e, start, i) && !Below(e, start - 1) else !Below(e, i - 1)
      invariant LongestUpTo(e, if inDrawdown then start else i, maxDuration)
      invariant Underwater(e, from, to) && to - from == maxDuration
    {
      var equity := e[i];
      if equity >= peak {
        if inDrawdown {
          var duration := i - start;
          BlockEnds(e, start, i, maxDuration);
          if duration > maxDuration {
            maxDuration := duration;
            from, to := start, i;
          }
          inDrawdown := false;
        } else {
          DryIndex(e, i, maxDuration);
        }
        peak := equity;
      } else {
        if !inDrawdown {
          start := i;
          inDrawdown := true;
        }
        var dd := Drop(peak, equity);
        if dd > maxDd {
          maxDd, worst := dd, i;
        }
      }
    }
    WorstIsMaxDrop(e, maxDd, worst);
    if inDrawdown {
      var duration := |e| - start;
      BlockEnds(e, start, |e|, maxDuration);
      if duration > maxDuration {
        maxDuration := duration;
        from, to := start, |e|;
      }
    } else {
      DryIndex(e, |e|, maxDuration);
    }
  }

  lemma DryIndex(e: seq<real>, i: int, d: int)
    requires !Below(e, i) && LongestUpTo(e, i, d) && d >= 0
    ensures LongestUpTo(e, i + 1, d)
  {
    forall a, b | Underwater(e, a, b) && b <= i + 1 ensures b - a <= d {
    }
  }

  /** Where a block that started after a dry index ends, it has been the only candidate since. */
  lemma BlockEnds(e: seq<real>, start: int, i: int, d: int)
    requires Underwater(e, start, i) && !Below(e, start - 1) && !Below(e, i)
    requires LongestUpTo(e, start, d) && d >= 0
    ensures LongestUpTo(e, i + 1, if i - start > d then i - start else d)
  {
    forall a, b | Underwater(e, a, b) && b <= i + 1 ensures b - a <= if i - start > d then i - start else d {
    }
  }

  /** A fall is counted in percent of where it started; from nothing, or from debt, there is none. */
  lemma DropIsPercentage(from: real, to: real)
    ensures from > 0.0 ==> Drop(from, to) * from == 100.0 * (from - to)
    ensures from <= 0.0 ==> Drop(from, to) == 0.0
  {
    if from > 0.0 {
      var share := (from - to) / from;
      assert share * from == from - to;
      Percent(share, from);
    }
  }

  lemma Percent(share: real, whole: real)
    ensures share * 100.0 * whole == 100.0 * (share * whole)
  {
  }

  // ---------------------------------------------------------------- the quadratic definition

  ghost predicate AllPositive(e: seq<real>)
  {
    forall k :: 0 <= k < |e| ==> e[k] > 0.0
  }

  lemma {:induction false} PeakIsMax(e: seq<real>, k: nat)
    requires k < |e|
    ensures forall i :: 0 <= i <= k ==> e[i] <= Peak(e, k)
    ensures exists i :: 0 <= i <= k && e[i] == Peak(e, k)
  {
    if k > 0 { PeakIsMax(e, k - 1); }
    if k == 0 || e[k] >= Peak(e, k - 1) {
      assert e[k] == Peak(e, k);
    } else {
      var i :| 0 <= i <= k - 1 && e[i] == Peak(e, k - 1);
      assert e[i] == Peak(e, k);
    }
  }

  lemma PositiveFactor(y: real, z: real)
    requires y * z > 0.0 && z > 0.0
    ensures y > 0.0
  {
  }

  lemma DropGrowsWithPeak(p: real, q: real, x: real)
    requires 0.0 < p <= q && x > 0.0
    ensures Drop(p, x) <= Drop(q, x) < 100.0
  {
    var u, v := (p - x) / p, (q - x) / q;
    assert u * p == p - x && v * q == q - x;
    assert (1.0 - u) * p == x && (1.0 - v) * q == x;
    PositiveFactor(1.0 - v, q);
    if u > v {
      assert (1.0 - u) * p < (1.0 - v) * p;
      assert (1.0 - v) * p <= (1.0 - v) * q;
    }
  }

  lemma PairBounded(e: seq<real>, dd: real, i: nat, j: nat)
    requires AllPositive(e) && IsMaxDrop(e, dd) && i <= j < |e|
    ensures Drop(e[i], e[j]) <= dd
  {
    PeakIsMax(e, j);
    assert e[i] <= Peak(e, j);
    DropGrowsWithPeak(e[i], Peak(e, j), e[j]);
    assert Below(e, j) || Drop(Peak(e, j), e[j]) == 0.0;
  }

  /** For positive equities the one-pass result is the largest percentage fall over all pairs of instants. */
  lemma MaxDropIsQuadratic(e: seq<real>, dd: real)
    requires AllPositive(e) && IsMaxDrop(e, dd)
    ensures forall i, j :: 0 <= i <= j < |e| ==> Drop(e[i], e[j]) <= dd
    ensures dd == 0.0 || exists i, j :: 0 <= i <= j < |e| && dd == Drop(e[i], e[j])
    ensures 0.0 <= dd < 100.0
  {
    forall i, j | 0 <= i <= j < |e| ensures Drop(e[i], e[j]) <= dd {
      PairBounded(e, dd, i, j);
    }
    if dd != 0.0 {
      var k :| Below(e, k) && dd == Drop(Peak(e, k), e[k]);
      PeakIsMax(e, k);
      var i :| 0 <= i <= k && e[i] == Peak(e, k);
      assert dd == Drop(e[i], e[k]);
      DropGrowsWithPeak(e[i], e[i], e[k]);
    }
  }
}
