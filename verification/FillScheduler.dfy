/** The tracker's table and the scheduler that polls into it, as objects (fill_scheduler.py, order_tracker.py). */
module FillScheduler {
  import opened Collections
  import opened FillRecovery
  import opened PollCycle

  class OrderTracker {
    var orders: Table

    constructor ()
      ensures orders == []
    {
      orders := [];
    }

    /** The fill applier's single entry point; the increment is what gets traded and booked. */
    method Apply(r: Report) returns (delta: real)
      modifies this
      ensures orders == ApplyCumulative(old(orders), r)
      ensures delta >= 0.0 && (delta > 0.0 <==> Advanced(old(orders), r))
    {
      var found := Lookup(orders, r.odno, r.day);
      if found.None? || found.value >= |orders| { return 0.0; }
      var o := orders[found.value];
      if r.cumulative <= o.recorded {
        assert orders[found.value := o] == orders;
        return 0.0;
      }
      ghost var before := orders;
      delta := r.cumulative - o.recorded;
      var status := if o.ordered > 0.0 && r.cumulative >= o.ordered then Filled else Partial;
      orders := orders[found.value := o.(recorded := r.cumulative, status := status)];
      assert orders[found.value] != before[found.value];
    }

    method ExpireStale(today: nat)
      modifies this
      ensures orders == Expire(old(orders), today)
    {
      orders := Expire(orders, today);
    }
  }

  class FillReconcileScheduler {
    const tracker: OrderTracker
    /** Enabled, with a trade service, on a paper account. */
    const fallbackEnabled: bool
    var fallbackVerify: Verify

    constructor (tracker: OrderTracker, fallbackEnabled: bool)
      ensures this.tracker == tracker && this.fallbackEnabled == fallbackEnabled && fallbackVerify == map[]
    {
      this.tracker := tracker;
      this.fallbackEnabled := fallbackEnabled;
      fallbackVerify := map[];
    }

    function Contents(): Books
      reads this, tracker
    {
      Books(tracker.orders, fallbackVerify)
    }

    method VerifyFallbackAgainstCcld(r: Report) returns (alert: bool)
      modifies this
      ensures fallbackVerify == Verified(old(fallbackVerify), r)
      ensures alert == Alarming(old(fallbackVerify), r)
    {
      if r.odno !in fallbackVerify { return false; }
      var entry := fallbackVerify[r.odno];
      if entry.day != r.day { return false; }
      alert := 0.0 < r.cumulative < entry.recorded;
      fallbackVerify := fallbackVerify - {r.odno};
    }

    method ExpireStaleFallbackVerify(today: nat)
      modifies this
      ensures fallbackVerify == Prune(old(fallbackVerify), today)
    {
      fallbackVerify := map k | k in fallbackVerify && fallbackVerify[k].day >= today :: fallbackVerify[k];
    }

    method SumBySymbol(rows: seq<Holding>, books: bool) returns (totals: map<string, real>)
      ensures totals == Totals(rows, books)
    {
      totals := map[];
      for i := 0 to |rows|
        invariant totals == Totals(rows[..i], books)
      {
        assert rows[..i + 1][..i] == rows[..i];
        if !(if books then rows[i].quantity <= 0.0 else rows[i].symbol == "") {
          totals := totals[rows[i].symbol := At(totals, rows[i].symbol) + rows[i].quantity];
        }
      }
      assert rows[..|rows|] == rows;
    }

    /** Per symbol, how many live buys there are; and whether any buy is unrecovered. */
    method CountLiveBuys(open: Table) returns (counts: map<string, nat>, wanted: bool)
      ensures forall symbol :: (if symbol in counts then counts[symbol] else 0) == LiveBuys(open, symbol)
      ensures wanted == Wanted(open)
    {
      counts, wanted := map[], false;
      for i := 0 to |open|
        invariant forall symbol :: (if symbol in counts then counts[symbol] else 0) == LiveBuys(open[..i], symbol)
        invariant wanted == exists k :: 0 <= k < i && Unrecovered(open[k])
      {
        assert open[..i + 1][..i] == open[..i];
        var o := open[i];
        if o.buy && Live(o) {
          counts := counts[o.symbol := (if o.symbol in counts then counts[o.symbol] else 0) + 1];
        }
        if Unrecovered(o) { wanted := true; }
      }
      assert open[..|open|] == open;
    }

    method ApplyPositionFallback(w: Outside) returns (raised: bool, applied: nat)
      modifies this, tracker
      ensures Outcome(raised, Contents()) == FallbackPhase(fallbackEnabled, old(Contents()), w)
      ensures applied == PhaseApplied(fallbackEnabled, old(Contents()), w)
    {
      applied := 0;
      if !fallbackEnabled { return false, 0; }
      var open := tracker.orders;
      var counts, wanted := CountLiveBuys(open);
      if !wanted { return false, 0; }
      if w.positions.None? { return true, 0; }
      var broker := SumBySymbol(w.positions.value, false);
      var book := SumBySymbol(w.books(open), true);
      for i := 0 to |open|
        invariant Contents() == Fallback(open, i, old(fallbackVerify), broker, book)
        invariant applied == FallbackApplied(open, i, old(fallbackVerify), broker, book)
      {
        var o := open[i];
        if Unrecovered(o) && o.symbol in counts && counts[o.symbol] == 1 {
          var excess := At(broker, o.symbol) - At(book, o.symbol);
          if excess > 0.0 && excess == o.ordered {
            assert Fires(open, i, broker, book);
            var delta := tracker.Apply(FullFill(o));
            if delta > 0.0 {
              applied := applied + 1;
              fallbackVerify := fallbackVerify[o.odno := VerifyEntry(o.ordered, o.day)];
            }
          }
        }
      }
      return false, applied;
    }

    /** Reports, then fallback, then expiry. `applied` counts the fills and `alerts` the late contradictions. */
    method PollAndApply(today: nat, w: Outside) returns (raised: bool, applied: nat, alerts: seq<Report>)
      modifies this, tracker
      ensures Outcome(raised, Contents()) == Cycle(fallbackEnabled, old(Contents()), today, w)
      ensures alerts == AlertsOf(old(Contents()), today, w)
      ensures !raised ==> applied == CycleApplied(fallbackEnabled, old(Contents()), today, w)
    {
      raised, applied, alerts := false, 0, [];
      if Idle(Contents()) { return; }
      var history := w.history(From(Contents()), today);
      if history.None? { return true, 0, []; }
      var reports := history.value;
      for i := 0 to |reports|
        invariant Contents() == Books(ApplyReports(old(tracker.orders), reports[..i]),
                                      VerifyReports(old(fallbackVerify), reports[..i]))
        invariant alerts == LateReports(old(fallbackVerify), reports[..i])
        invariant applied == ReportsApplied(old(tracker.orders), reports[..i])
      {
        assert reports[..i + 1][..i] == reports[..i];
        var r := reports[i];
        if r.odno != "" && r.cumulative > 0.0 {
          var alert := VerifyFallbackAgainstCcld(r);
          if alert { alerts := alerts + [r]; }
          var delta := tracker.Apply(r);
          if delta > 0.0 { applied := applied + 1; }
        }
      }
      assert reports[..|reports|] == reports;
      var more: nat;
      raised, more := ApplyPositionFallback(w);
      if raised { return; }
      applied := applied + more;
      tracker.ExpireStale(today);
      ExpireStaleFallbackVerify(today);
    }
  }
}
