/** Folding an equity curve to one point a day through an insertion-ordered dictionary (result.py). */
module Resample {
  import opened Collections
  import Strings

  const THRESHOLD := 500

  datatype CurvePoint = CurvePoint(date: Option<string>, timestamp: string, equity: real)
  type Curve = seq<CurvePoint>

  function Day(s: string): string { if |s| <= 10 then s else s[..10] }

  /** The day of a point, or the empty string when it has none. */
  function ExtractDate(p: CurvePoint): string
  {
    if p.date.Some? then Day(p.date.value) else Day(p.timestamp)
  }

  function Daily(curve: Curve): Dict<string, CurvePoint>
  {
    if curve == [] then Dict([], map[])
    else
      var d := Daily(curve[..|curve| - 1]);
      var p := curve[|curve| - 1];
      if ExtractDate(p) == "" then d else Put(d, ExtractDate(p), p)
  }

  lemma {:induction false} DailyProper(curve: Curve)
    ensures Proper(Daily(curve))
    ensures forall k :: k in Daily(curve).entries ==> ExtractDate(Daily(curve).entries[k]) == k != ""
  {
    if curve != [] { DailyProper(curve[..|curve| - 1]); }
  }

  ghost function Resampled(curve: Curve, threshold: nat): Curve
  {
    if |curve| <= threshold then curve else DailyProper(curve); Values(Daily(curve))
  }

  method ResampleEquityCurveDaily(curve: Curve, threshold: nat := THRESHOLD) returns (r: Curve)
    ensures r == Resampled(curve, threshold)
  {
    if |curve| <= threshold { return curve; }
    var keys: seq<string> := [];
    var daily: map<string, CurvePoint> := map[];
    for i := 0 to |curve|
      invariant Dict(keys, daily) == Daily(curve[..i])
    {
      assert curve[..i + 1][..i] == curve[..i];
      var key := ExtractDate(curve[i]);
      if key != "" {
        if key !in daily {
          keys := keys + [key];
        }
        daily := daily[key := curve[i]];
      }
    }
    assert curve[..|curve|] == curve;
    DailyProper(curve);
    r := [];
    for i := 0 to |keys|
      invariant r == Values(Daily(curve))[..i]
    {
      assert keys[i] in keys;
      r := r + [daily[keys[i]]];
    }
  }

  /** A curve of up to 500 points is reported as it is, a longer one day by day. */
  lemma ReportedCurve(curve: Curve)
    ensures Resampled(curve, THRESHOLD) == if |curve| <= 500 then curve else Resampled(curve, 0)
  {
  }

  /** The day of a point: up to ten characters of its date, or else of its time stamp. */
  lemma DayOfPoint(p: CurvePoint)
    ensures var text := if p.date.Some? then p.date.value else p.timestamp;
            ExtractDate(p) <= text && |ExtractDate(p)| == if |text| < 10 then |text| else 10
  {
  }

  // ---------------------------------------------------------------- what the fold keeps

  /** `curve[j]` is the last point of day `k`. */
  ghost predicate LastOf(curve: Curve, j: int, k: string)
  {
    && 0 <= j < |curve| && ExtractDate(curve[j]) == k
    && forall i :: j < i < |curve| ==> ExtractDate(curve[i]) != k
  }

  lemma {:induction false} LastOfItsDay(curve: Curve, j: nat, k: string)
    requires LastOf(curve, j, k) && k != ""
    ensures k in Daily(curve).entries && Daily(curve).entries[k] == curve[j]
  {
    if j < |curve| - 1 {
      var init := curve[..|curve| - 1];
      assert LastOf(init, j, k);
      LastOfItsDay(init, j, k);
    }
  }

  lemma {:induction false} DaysComeFromCurve(curve: Curve, k: string) returns (j: nat)
    requires k in Daily(curve).entries
    ensures k != "" && LastOf(curve, j, k) && Daily(curve).entries[k] == curve[j]
  {
    j := |curve| - 1;
    var init := curve[..j];
    DailyProper(curve);
    if ExtractDate(curve[j]) != k {
      assert k in Daily(init).entries;
      var last := j;
      j := DaysComeFromCurve(init, k);
      forall i | j < i < |curve| ensures ExtractDate(curve[i]) != k {
        assert i == last || curve[i] == init[i];
      }
    }
  }

  /** One point per distinct day: each is the last of its day, and every day of the curve has one. */
  lemma {:induction false} OnePointPerDay(curve: Curve)
    ensures var r := Resampled(curve, 0);
            && (forall a, b :: 0 <= a < b < |r| ==> ExtractDate(r[a]) != ExtractDate(r[b]))
            && (forall a :: 0 <= a < |r| ==> exists j :: LastOf(curve, j, ExtractDate(r[a])) && r[a] == curve[j])
            && (forall j :: 0 <= j < |curve| && ExtractDate(curve[j]) != "" ==>
                  exists a :: 0 <= a < |r| && ExtractDate(r[a]) == ExtractDate(curve[j]))
  {
    DailyProper(curve);
    var d := Daily(curve);
    var r := Resampled(curve, 0);
    assert r == Values(d);
    forall a | 0 <= a < |r| ensures ExtractDate(r[a]) == d.keys[a] {
      assert d.keys[a] in d.keys;
    }
    forall a | 0 <= a < |r| ensures exists j :: LastOf(curve, j, ExtractDate(r[a])) && r[a] == curve[j] {
      assert d.keys[a] in d.keys;
      var j := DaysComeFromCurve(curve, d.keys[a]);
    }
    forall j | 0 <= j < |curve| && ExtractDate(curve[j]) != ""
      ensures exists a :: 0 <= a < |r| && ExtractDate(r[a]) == ExtractDate(curve[j])
    {
      DayIsKept(curve, j);
      var a :| 0 <= a < |d.keys| && d.keys[a] == ExtractDate(curve[j]);
      assert ExtractDate(r[a]) == d.keys[a];
    }
  }

  lemma {:induction false} DayIsKept(curve: Curve, j: nat)
    requires j < |curve| && ExtractDate(curve[j]) != ""
    ensures ExtractDate(curve[j]) in Daily(curve).keys
  {
    DailyProper(curve[..|curve| - 1]);
    if j < |curve| - 1 { DayIsKept(curve[..|curve| - 1], j); }
  }

  // ---------------------------------------------------------------- idempotence and order

  ghost predicate DistinctDays(r: Curve)
  {
    && (forall a :: 0 <= a < |r| ==> ExtractDate(r[a]) != "")
    && (forall a, b :: 0 <= a < b < |r| ==> ExtractDate(r[a]) != ExtractDate(r[b]))
  }

  ghost function Days(r: Curve): seq<string> { seq(|r|, i requires 0 <= i < |r| => ExtractDate(r[i])) }

  lemma {:induction false} DistinctDaysAreFixed(r: Curve)
    requires DistinctDays(r)
    ensures Daily(r).keys == Days(r)
  {
    if r != [] {
      var init := r[..|r| - 1];
      DistinctDaysAreFixed(init);
      var k := ExtractDate(r[|r| - 1]);
      assert k !in Days(init);
      KeysArePoints(init, k);
      assert Days(r) == Days(init) + [k];
    }
  }

  lemma KeysArePoints(curve: Curve, k: string)
    ensures k in Daily(curve).keys <==> k in Daily(curve).entries
  {
    DailyProper(curve);
  }

  /** Folding a folded curve changes nothing, whatever the curve. */
  lemma {:induction false} ResampleIdempotent(curve: Curve)
    ensures Resampled(Resampled(curve, 0), 0) == Resampled(curve, 0)
  {
    DailyProper(curve);
    var d := Daily(curve);
    var r := Values(d);
    if curve != [] {
      forall a | 0 <= a < |r| ensures ExtractDate(r[a]) == d.keys[a] != "" {
        assert d.keys[a] in d.keys;
      }
      DistinctDaysAreFixed(r);
      DailyProper(r);
      forall a | 0 <= a < |r| ensures Values(Daily(r))[a] == r[a] {
        LastOfItsDay(r, a, ExtractDate(r[a]));
      }
      assert Values(Daily(r)) == r;
    }
  }

  ghost predicate Chronological(curve: Curve)
  {
    && (forall i :: 0 <= i < |curve| ==> ExtractDate(curve[i]) != "")
    && (forall i, j :: 0 <= i < j < |curve| ==> Strings.AtMost(ExtractDate(curve[i]), ExtractDate(curve[j])))
  }

  ghost predicate Increasing(keys: seq<string>)
  {
    forall a, b :: 0 <= a < b < |keys| ==> Strings.Less(keys[a], keys[b])
  }

  /** The last of increasing keys is the largest: a key not below it is it, or extends them. */
  lemma KeysExtend(keys: seq<string>, k: string)
    requires Increasing(keys) && keys != [] && Strings.AtMost(keys[|keys| - 1], k)
    ensures k in keys ==> k == keys[|keys| - 1]
    ensures k !in keys ==> Increasing(keys + [k])
  {
    var last := keys[|keys| - 1];
    assert k == last || Strings.Less(last, k);
    if k != last {
      forall a | 0 <= a < |keys| ensures Strings.Less(keys[a], k) {
        if a < |keys| - 1 { Strings.LessTransitive(keys[a], last, k); }
      }
      Strings.LessIrreflexive(k);
    }
  }

  lemma {:induction false} KeysAscend(curve: Curve)
    requires Chronological(curve) && curve != []
    ensures var keys := Daily(curve).keys;
            && keys != [] && keys[|keys| - 1] == ExtractDate(curve[|curve| - 1])
            && Increasing(keys)
  {
    var init := curve[..|curve| - 1];
    var k := ExtractDate(curve[|curve| - 1]);
    if init != [] {
      assert Strings.AtMost(ExtractDate(curve[|curve| - 2]), k);
      KeysAscend(init);
      KeysExtend(Daily(init).keys, k);
      KeysArePoints(init, k);
    }
  }

  /** A chronological curve folds to strictly increasing days and keeps its final point. */
  lemma {:induction false} ResampleChronological(curve: Curve)
    requires Chronological(curve) && curve != []
    ensures var r := Resampled(curve, 0);
            && r != [] && r[|r| - 1] == curve[|curve| - 1]
            && forall a, b :: 0 <= a < b < |r| ==> Strings.Less(ExtractDate(r[a]), ExtractDate(r[b]))
  {
    DailyProper(curve);
    KeysAscend(curve);
    var d := Daily(curve);
    LastOfItsDay(curve, |curve| - 1, ExtractDate(curve[|curve| - 1]));
    forall a | 0 <= a < |d.keys| ensures ExtractDate(Values(d)[a]) == d.keys[a] {
      assert d.keys[a] in d.keys;
    }
  }
}
