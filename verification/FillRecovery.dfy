/** Recovering missed fills: which tracked order a broker report is credited to, and what reporting keeps
    (fill_scheduler.py, order_tracker.py, fill_applier.py). */
module FillRecovery {
  import opened Collections

  datatype Status = Open | Partial | Filled | Expired | Cancelled

  /** A tracked order; `day` is its business day, which orders as its YYYYMMDD string does. */
  datatype Order = Order(odno: string, symbol: string, buy: bool, ordered: real, recorded: real,
                         status: Status, day: nat)
  type Table = seq<Order>

  predicate Live(o: Order) { o.status == Open || o.status == Partial }

  /** The tracker's table: (odno, day) is unique, numbers are not empty, quantities are positive, an open order
      has no recorded fill, a partially filled one less than all of it and a filled one all of it. */
  ghost predicate Tracked(t: Table)
  {
    && (forall i :: 0 <= i < |t| ==> t[i].odno != "" && t[i].ordered > 0.0 && t[i].recorded >= 0.0)
    && (forall i :: 0 <= i < |t| && t[i].status == Open ==> t[i].recorded == 0.0)
    && (forall i :: 0 <= i < |t| && t[i].status == Partial ==> t[i].recorded < t[i].ordered)
    && (forall i :: 0 <= i < |t| && t[i].status == Filled ==> t[i].ordered <= t[i].recorded)
    && (forall i, j :: 0 <= i < j < |t| ==> t[i].odno != t[j].odno || t[i].day != t[j].day)
  }

  predicate Matches(o: Order, odno: string, day: nat) { o.odno == odno && o.day <= day }

  /** The live order with this number submitted latest, up to `day`. */
  function Lookup(t: Table, odno: string, day: nat): Option<nat>
  {
    if t == [] then None
    else
      var init, o := t[..|t| - 1], t[|t| - 1];
      var best := Lookup(init, odno, day);
      if Live(o) && Matches(o, odno, day) && (best.None? || best.value >= |init| || init[best.value].day < o.day)
      then Some(|init|) else best
  }

  ghost predicate Latest(t: Table, odno: string, day: nat, i: int, live: bool)
  {
    && 0 <= i < |t| && Matches(t[i], odno, day) && (live ==> Live(t[i]))
    && forall j :: 0 <= j < |t| && Matches(t[j], odno, day) && (live ==> Live(t[j])) ==> t[j].day <= t[i].day
  }

  lemma {:induction false} LookupSpec(t: Table, odno: string, day: nat)
    ensures match Lookup(t, odno, day)
            case Some(i) => Latest(t, odno, day, i, true)
            case None => forall j :: 0 <= j < |t| ==> !(Live(t[j]) && Matches(t[j], odno, day))
  {
    if t != [] {
      var init := t[..|t| - 1];
      LookupSpec(init, odno, day);
      assert forall j :: 0 <= j < |init| ==> init[j] == t[j];
    }
  }

  /** `recorded := max(recorded, observed)`; an advance reopens or completes the order. */
  function RecordFill(o: Order, cumulative: real): Order
  {
    if cumulative <= o.recorded then o
    else o.(recorded := cumulative,
            status := if o.ordered > 0.0 && cumulative >= o.ordered then Filled else Partial)
  }

  datatype Report = Report(odno: string, day: nat, cumulative: real)

  function ApplyCumulative(t: Table, r: Report): Table
  {
    var found := Lookup(t, r.odno, r.day);
    if found.None? || found.value >= |t| then t
    else t[found.value := RecordFill(t[found.value], r.cumulative)]
  }

  /** The history loop: reports without a number or without a fill are skipped. */
  predicate Relevant(r: Report) { r.odno != "" && r.cumulative > 0.0 }

  function ApplyReports(t: Table, reports: seq<Report>): Table
  {
    if reports == [] then t
    else
      var before := ApplyReports(t, reports[..|reports| - 1]);
      var r := reports[|reports| - 1];
      if Relevant(r) then ApplyCumulative(before, r) else before
  }

  // ---------------------------------------------------------------- which order is credited

  /** Of the orders that share a number, only the newest may be live. */
  ghost predicate OnlyNewestLive(t: Table)
  {
    forall i, j :: 0 <= i < |t| && 0 <= j < |t| && t[i].odno == t[j].odno && t[i].day < t[j].day ==> !Live(t[i])
  }

  /** A report about (odno, day) is credited to no order but the newest with that number up to that day. */
  ghost predicate CreditsNewest(t: Table, odno: string, day: nat)
  {
    var found := Lookup(t, odno, day);
    found.Some? ==> Latest(t, odno, day, found.value, false)
  }

  /** The moves of `t` that reports can make: orders keep who they are, and only live orders change. */
  ghost predicate Advances(t: Table, t': Table)
  {
    && |t'| == |t|
    && forall i :: 0 <= i < |t| ==>
         && (t'[i].odno, t'[i].symbol, t'[i].buy, t'[i].ordered, t'[i].day)
            == (t[i].odno, t[i].symbol, t[i].buy, t[i].ordered, t[i].day)
         && t[i].recorded <= t'[i].recorded
         && (!Live(t[i]) ==> t'[i] == t[i])
         && (t'[i].status == Open ==> t'[i] == t[i])
         && (Live(t[i]) ==> Live(t'[i]) || t'[i].status == Filled)
  }

  lemma ApplyAdvances(t: Table, r: Report)
    requires Tracked(t)
    ensures Advances(t, ApplyCumulative(t, r)) && Tracked(ApplyCumulative(t, r))
  {
    LookupSpec(t, r.odno, r.day);
  }

  lemma {:induction false} ReportsAdvance(t: Table, reports: seq<Report>)
    requires Tracked(t)
    ensures Advances(t, ApplyReports(t, reports)) && Tracked(ApplyReports(t, reports))
  {
    if reports != [] {
      var init := reports[..|reports| - 1];
      ReportsAdvance(t, init);
      ApplyAdvances(ApplyReports(t, init), reports[|reports| - 1]);
    }
  }

  lemma OnlyNewestLiveStays(t: Table, t': Table)
    requires OnlyNewestLive(t) && Advances(t, t')
    ensures OnlyNewestLive(t')
  {
  }

  lemma NewestIsCredited(t: Table, odno: string, day: nat)
    requires OnlyNewestLive(t)
    ensures CreditsNewest(t, odno, day)
  {
    LookupSpec(t, odno, day);
  }

  /** No report shows more than the order it is about could fill. */
  ghost predicate Plausible(t: Table, reports: seq<Report>)
  {
    forall k, i :: 0 <= k < |reports| && Latest(t, reports[k].odno, reports[k].day, i, false) ==>
      reports[k].cumulative <= t[i].ordered
  }

  /** Whatever has been reported before, a report is credited to the order it is about, if and only if no
      older order of a reused number was live: matching days with `<=` does not by itself keep them apart, even
      when no report ever shows more than was ordered. */
  lemma {:induction false} CreditIff(t: Table)
    requires Tracked(t)
    ensures (forall reports, odno, day :: CreditsNewest(ApplyReports(t, reports), odno, day)) <==> OnlyNewestLive(t)
    ensures (forall reports, odno, day :: Plausible(t, reports) ==> CreditsNewest(ApplyReports(t, reports), odno, day))
            <==> OnlyNewestLive(t)
  {
    if OnlyNewestLive(t) {
      forall reports, odno, day ensures CreditsNewest(ApplyReports(t, reports), odno, day) {
        ReportsAdvance(t, reports);
        OnlyNewestLiveStays(t, ApplyReports(t, reports));
        NewestIsCredited(ApplyReports(t, reports), odno, day);
      }
    }
    if !OnlyNewestLive(t) {
      var i, j :| 0 <= i < |t| && 0 <= j < |t| && t[i].odno == t[j].odno && t[i].day < t[j].day && Live(t[i]);
      var reports := Misleading(t, i, j);
      assert !CreditsNewest(ApplyReports(t, reports), t[j].odno, t[j].day);
    }
  }

  /** A report about a finished order goes to an older live one of the same number. */
  lemma FinishedMisleads(t: Table, i: nat, j: nat)
    requires Tracked(t) && i < |t| && j < |t|
    requires t[i].odno == t[j].odno && t[i].day < t[j].day && Live(t[i]) && !Live(t[j])
    ensures !CreditsNewest(t, t[j].odno, t[j].day)
  {
    var odno, day := t[j].odno, t[j].day;
    LookupSpec(t, odno, day);
    assert Live(t[i]) && Matches(t[i], odno, day);
    var k := Lookup(t, odno, day).value;
    assert Live(t[k]) && k != j && t[k].day != day;
    assert Matches(t[j], odno, day) && t[k].day < t[j].day;
  }

  /** With an older order live, at most one report, a full fill, makes the next one go to the wrong order. */
  lemma Misleading(t: Table, i: nat, j: nat) returns (reports: seq<Report>)
    requires Tracked(t) && i < |t| && j < |t|
    requires t[i].odno == t[j].odno && t[i].day < t[j].day && Live(t[i])
    ensures Plausible(t, reports) && !CreditsNewest(ApplyReports(t, reports), t[j].odno, t[j].day)
  {
    if !Live(t[j]) {
      reports := [];
      FinishedMisleads(t, i, j);
    } else {
      var r := Report(t[j].odno, t[j].day, t[j].ordered);
      reports := [r];
      forall k | Latest(t, r.odno, r.day, k, false) ensures k == j {
        assert Matches(t[j], r.odno, r.day);
      }
      assert reports[..0] == [] && ApplyReports(t, []) == t;
      assert ApplyReports(t, reports) == ApplyCumulative(t, r);
      LookupSelf(t, j);
      ApplyAdvances(t, r);
      FinishedMisleads(ApplyCumulative(t, r), i, j);
    }
  }

  lemma LookupSelf(t: Table, i: nat)
    requires Tracked(t) && i < |t| && Live(t[i])
    ensures Lookup(t, t[i].odno, t[i].day) == Some(i)
  {
    LookupSpec(t, t[i].odno, t[i].day);
    assert Matches(t[i], t[i].odno, t[i].day);
  }

  /** Yesterday's partially filled order and today's order share number 7: today's fill of 5, reported twice,
      is credited to today's order and then to yesterday's. */
  lemma ReusedNumberCounterexample()
    ensures var older, newer := Order("7", "A", true, 10.0, 3.0, Partial, 1), Order("7", "A", true, 5.0, 0.0, Open, 2);
            var r := Report("7", 2, 5.0);
            ApplyReports([older, newer], [r, r]) == [older.(recorded := 5.0), newer.(recorded := 5.0, status := Filled)]
  {
    var older, newer := Order("7", "A", true, 10.0, 3.0, Partial, 1), Order("7", "A", true, 5.0, 0.0, Open, 2);
    var r := Report("7", 2, 5.0);
    var t := [older, newer];
    var t' := [older, newer.(recorded := 5.0, status := Filled)];
    LookupSpec(t, "7", 2);
    assert Live(t[1]) && Matches(t[1], "7", 2);
    assert ApplyCumulative(t, r) == t';
    LookupSpec(t', "7", 2);
    assert Live(t'[0]) && Matches(t'[0], "7", 2);
    assert [r, r][..1] == [r] && [r][..0] == [];
    assert ApplyReports(t, []) == t;
    assert ApplyReports(t, [r]) == t';
  }

  // ---------------------------------------------------------------- true fills

  /** `q[i]` is what really was filled of order `i`. */
  ghost predicate Bounded(t: Table, q: seq<real>)
  {
    |q| == |t| && forall i :: 0 <= i < |t| ==> t[i].recorded <= q[i] <= t[i].ordered
  }

  /** The report does not exceed the true fill of the order it is about. */
  ghost predicate Truthful(t: Table, q: seq<real>, r: Report)
    requires |q| == |t|
  {
    forall i :: Latest(t, r.odno, r.day, i, false) ==> r.cumulative <= q[i]
  }

  /** Same orders, nothing forgotten, nothing brought back to life. */
  ghost predicate Narrows(t: Table, t': Table)
  {
    && |t'| == |t|
    && forall i :: 0 <= i < |t| ==>
         && (t'[i].odno, t'[i].symbol, t'[i].buy, t'[i].ordered, t'[i].day)
            == (t[i].odno, t[i].symbol, t[i].buy, t[i].ordered, t[i].day)
         && t[i].recorded <= t'[i].recorded && (Live(t'[i]) ==> Live(t[i]))
  }

  lemma TruthfulStays(t: Table, t': Table, q: seq<real>, r: Report)
    requires |q| == |t| && Narrows(t, t') && Truthful(t, q, r)
    ensures Truthful(t', q, r)
  {
    forall i | Latest(t', r.odno, r.day, i, false) ensures r.cumulative <= q[i] {
      forall j | 0 <= j < |t| && Matches(t[j], r.odno, r.day) ensures t[j].day <= t[i].day {
        assert Matches(t'[j], r.odno, r.day);
      }
      assert Latest(t, r.odno, r.day, i, false);
    }
  }

  /** Truthful reports keep recorded <= true fill <= ordered, when only newest orders are live. */
  lemma {:induction false} ReportsKeepBounded(t: Table, q: seq<real>, reports: seq<Report>)
    requires Tracked(t) && OnlyNewestLive(t) && Bounded(t, q)
    requires forall k :: 0 <= k < |reports| ==> Truthful(t, q, reports[k])
    ensures Bounded(ApplyReports(t, reports), q)
  {
    if reports != [] {
      var init, r := reports[..|reports| - 1], reports[|reports| - 1];
      assert forall k :: 0 <= k < |init| ==> init[k] == reports[k];
      ReportsKeepBounded(t, q, init);
      var before := ApplyReports(t, init);
      ReportsAdvance(t, init);
      OnlyNewestLiveStays(t, before);
      NewestIsCredited(before, r.odno, r.day);
      TruthfulStays(t, before, q, r);
    }
  }

  // ---------------------------------------------------------------- reporting again

  predicate Settled(t: Table, r: Report)
  {
    var found := Lookup(t, r.odno, r.day);
    found.None? || (found.value < |t| && r.cumulative <= t[found.value].recorded)
  }

  lemma SettledStays(t: Table, t': Table, r: Report)
    requires Tracked(t) && OnlyNewestLive(t) && Narrows(t, t') && Settled(t, r)
    ensures Settled(t', r)
  {
    LookupSpec(t, r.odno, r.day);
    LookupSpec(t', r.odno, r.day);
    NewestIsCredited(t, r.odno, r.day);
    var found := Lookup(t', r.odno, r.day);
    if found.Some? {
      var i := found.value;
      assert Live(t[i]) && Matches(t[i], r.odno, r.day);
      var j := Lookup(t, r.odno, r.day).value;
      assert t[i].day == t[j].day;
    }
  }

  lemma AppliedIsSettled(t: Table, r: Report)
    requires Tracked(t) && OnlyNewestLive(t)
    ensures Settled(ApplyCumulative(t, r), r)
  {
    var t' := ApplyCumulative(t, r);
    LookupSpec(t, r.odno, r.day);
    LookupSpec(t', r.odno, r.day);
    NewestIsCredited(t, r.odno, r.day);
    var found := Lookup(t', r.odno, r.day);
    if found.Some? {
      var i := found.value;
      assert Live(t[i]) && Matches(t[i], r.odno, r.day);
      var j := Lookup(t, r.odno, r.day).value;
      assert t[i].day == t[j].day;
    }
  }

  lemma {:induction false} ReportsSettle(t: Table, reports: seq<Report>)
    requires Tracked(t) && OnlyNewestLive(t)
    ensures forall k :: 0 <= k < |reports| && Relevant(reports[k]) ==> Settled(ApplyReports(t, reports), reports[k])
  {
    if reports != [] {
      var init, r := reports[..|reports| - 1], reports[|reports| - 1];
      ReportsSettle(t, init);
      var before, after := ApplyReports(t, init), ApplyReports(t, reports);
      ReportsAdvance(t, init);
      OnlyNewestLiveStays(t, before);
      ApplyAdvances(before, r);
      if Relevant(r) { AppliedIsSettled(before, r); }
      forall k | 0 <= k < |reports| && Relevant(reports[k]) ensures Settled(after, reports[k]) {
        if k < |init| {
          assert init[k] == reports[k];
          SettledStays(before, after, reports[k]);
        }
      }
    }
  }

  lemma {:induction false} SettledReportsDoNothing(t: Table, reports: seq<Report>)
    requires forall k :: 0 <= k < |reports| && Relevant(reports[k]) ==> Settled(t, reports[k])
    ensures ApplyReports(t, reports) == t
  {
    if reports != [] {
      var init := reports[..|reports| - 1];
      assert forall k :: 0 <= k < |init| ==> init[k] == reports[k];
      SettledReportsDoNothing(t, init);
      var found := Lookup(t, reports[|reports| - 1].odno, reports[|reports| - 1].day);
      if found.Some? && found.value < |t| { assert t[found.value := t[found.value]] == t; }
    }
  }

  /** Polling the same reports again changes nothing, even after fills or expiries in between. */
  lemma {:induction false} ReportsIdempotent(t: Table, reports: seq<Report>, later: Table)
    requires Tracked(t) && OnlyNewestLive(t) && Narrows(ApplyReports(t, reports), later)
    ensures ApplyReports(later, reports) == later
  {
    ReportsAdvance(t, reports);
    OnlyNewestLiveStays(t, ApplyReports(t, reports));
    ReportsSettle(t, reports);
    forall k | 0 <= k < |reports| && Relevant(reports[k]) ensures Settled(later, reports[k]) {
      SettledStays(ApplyReports(t, reports), later, reports[k]);
    }
    SettledReportsDoNothing(later, reports);
  }
}
