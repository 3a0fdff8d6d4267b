/** When a poll cycle asks for what, and which orders its fallback completes, in quantities alone
    (fill_scheduler.py). */
module FallbackTerms {
  import opened Collections
  import opened FillRecovery
  import opened PollCycle
  import opened PollAlerts

  // ---------------------------------------------------------------- what a report records

  /** Still open or partially filled, with this number and of this day or before. */
  predicate Reportable(o: Order, r: Report)
  {
    (o.status == Open || o.status == Partial) && o.odno == r.odno && o.day <= r.day
  }

  /** A report is recorded for the latest order that it can be about, if it shows more than was recorded; this fills the
      order once it reaches the quantity ordered, and leaves it partially filled before. */
  lemma ReportRecords(t: Table, r: Report, i: nat)
    requires Tracked(t) && i < |t|
    ensures var u := ApplyCumulative(t, r);
            && |u| == |t|
            && u[i] == if Reportable(t[i], r) && t[i].recorded < r.cumulative
                          && forall j :: 0 <= j < |t| && Reportable(t[j], r) ==> t[j].day <= t[i].day
                       then t[i].(recorded := r.cumulative,
                                  status := if r.cumulative < t[i].ordered then Partial else Filled)
                       else t[i]
  {
    LookupSpec(t, r.odno, r.day);
    var found := Lookup(t, r.odno, r.day);
    forall j | 0 <= j < |t| ensures Reportable(t[j], r) <==> Live(t[j]) && Matches(t[j], r.odno, r.day) {
    }
    if found.Some? && found.value != i && Reportable(t[i], r) { assert t[found.value].day != t[i].day; }
  }

  // ---------------------------------------------------------------- what is compared

  /** What the rows hold of a symbol: of the books the positive rows, of the broker all that name a symbol. */
  function Amount(rows: seq<Holding>, symbol: string, books: bool): real
  {
    if rows == [] then 0.0
    else
      (if rows[0].symbol == symbol && (if books then rows[0].quantity > 0.0 else symbol != "") then rows[0].quantity
       else 0.0)
      + Amount(rows[1..], symbol, books)
  }

  lemma {:induction false} AmountSplits(a: seq<Holding>, b: seq<Holding>, symbol: string, books: bool)
    ensures Amount(a + b, symbol, books) == Amount(a, symbol, books) + Amount(b, symbol, books)
  {
    if a == [] {
      assert a + b == b;
    } else {
      assert (a + b)[1..] == a[1..] + b;
      AmountSplits(a[1..], b, symbol, books);
    }
  }

  /** The totals by symbol are sums over the rows. */
  lemma {:induction false} TotalsAreAmounts(rows: seq<Holding>, symbol: string, books: bool)
    ensures At(Totals(rows, books), symbol) == Amount(rows, symbol, books)
  {
    if rows != [] {
      var init, r := rows[..|rows| - 1], rows[|rows| - 1];
      TotalsAreAmounts(init, symbol, books);
      AmountSplits(init, [r], symbol, books);
      assert rows == init + [r] && [r][1..] == [];
    }
  }

  /** An open or partially filled buy. */
  predicate OpenBuy(o: Order, symbol: string)
  {
    o.buy && o.symbol == symbol && (o.status == Open || o.status == Partial)
  }

  lemma {:induction false} NoneIsCounted(t: Table, symbol: string)
    requires forall j :: 0 <= j < |t| ==> !OpenBuy(t[j], symbol)
    ensures LiveBuys(t, symbol) == 0
  {
    if t != [] { NoneIsCounted(t[..|t| - 1], symbol); }
  }

  /** One open buy is counted exactly if no other is open. */
  lemma {:induction false} OnlyOneIsCounted(t: Table, i: nat, symbol: string)
    requires i < |t| && OpenBuy(t[i], symbol)
    ensures LiveBuys(t, symbol) == 1 <==> forall j :: 0 <= j < |t| && j != i ==> !OpenBuy(t[j], symbol)
  {
    var init := t[..|t| - 1];
    if i < |t| - 1 {
      OnlyOneIsCounted(init, i, symbol);
      OneLiveBuy(init, symbol, i);
      assert forall j :: 0 <= j < |init| ==> init[j] == t[j];
    } else if LiveBuys(init, symbol) == 0 {
      NoLiveBuy(init, symbol);
      assert forall j :: 0 <= j < |init| ==> init[j] == t[j];
    } else if j :| 0 <= j < |init| && OpenBuy(init[j], symbol) {
      assert OpenBuy(t[j], symbol);
    } else {
      NoneIsCounted(init, symbol);
    }
  }

  // ---------------------------------------------------------------- what the fallback completes

  /** Nothing of this open buy is recorded yet. */
  predicate Missed(o: Order) { OpenBuy(o, o.symbol) && o.recorded == 0.0 && o.ordered > 0.0 }

  /** No other buy of the symbol is open, and the account holds exactly the ordered quantity more than the books. */
  ghost predicate Explains(t: Table, i: nat, held: seq<Holding>, booked: seq<Holding>)
    requires i < |t|
  {
    && (forall j :: 0 <= j < |t| && j != i ==> !OpenBuy(t[j], t[i].symbol))
    && Amount(held, t[i].symbol, false) == Amount(booked, t[i].symbol, true) + t[i].ordered
  }

  lemma FiresIff(t: Table, i: nat, held: seq<Holding>, booked: seq<Holding>)
    requires i < |t|
    ensures Fires(t, i, Totals(held, false), Totals(booked, true)) <==> Missed(t[i]) && Explains(t, i, held, booked)
  {
    TotalsAreAmounts(held, t[i].symbol, false);
    TotalsAreAmounts(booked, t[i].symbol, true);
    if OpenBuy(t[i], t[i].symbol) { OnlyOneIsCounted(t, i, t[i].symbol); }
  }

  /** The fallback records exactly the missed buys that the account explains, each in full, and no other order. */
  lemma CompletedIff(enabled: bool, b: Books, w: Outside, i: nat)
    requires Tracked(b.table) && i < |b.table|
    ensures var t, u := b.table, FallbackPhase(enabled, b, w).books.table;
            && |u| == |t|
            && u[i] == if enabled && Missed(t[i]) && w.positions.Some? && Explains(t, i, w.positions.value, w.books(t))
                       then t[i].(recorded := t[i].ordered, status := Filled) else t[i]
  {
    var t := b.table;
    if w.positions.Some? {
      var broker, book := Totals(w.positions.value, false), Totals(w.books(t), true);
      FiresIff(t, i, w.positions.value, w.books(t));
      FallbackCompletes(t, |t|, b.verify, broker, book);
    }
    if Missed(t[i]) { assert Unrecovered(t[i]); }
  }

  // ---------------------------------------------------------------- what a cycle asks for

  /** A cycle raises exactly if the ledger, or the positions asked for because a buy was missed, cannot be had; it then
      leaves the books with the reports applied, and nothing expired or pruned. */
  lemma RaisesIff(enabled: bool, b: Books, today: nat, w: Outside)
    ensures var history := if Idle(b) then Some([]) else w.history(From(b), today);
            if history.None? then Cycle(enabled, b, today, w) == Outcome(true, b)
            else
              var c := Reported(b, history.value);
              if !Idle(b) && enabled && w.positions.None? && exists i :: 0 <= i < |c.table| && Missed(c.table[i])
              then Cycle(enabled, b, today, w) == Outcome(true, c)
              else !Cycle(enabled, b, today, w).raised
  {
    if !Idle(b) && w.history(From(b), today).Some? {
      MissedIsWanted(Reported(b, w.history(From(b), today).value).table);
    }
  }

  lemma MissedIsWanted(t: Table)
    ensures Wanted(t) <==> exists i :: 0 <= i < |t| && Missed(t[i])
  {
    forall i | 0 <= i < |t| ensures Missed(t[i]) <==> Unrecovered(t[i]) {
    }
  }

  /** The ledger is asked from the earliest day of an open order or of a check on; if there is neither, nothing is. */
  lemma AskedFrom(b: Books)
    ensures Idle(b) <==> (forall i :: 0 <= i < |b.table| ==> b.table[i].status !in {Open, Partial}) && b.verify == map[]
    ensures !Idle(b) ==>
              && (forall i :: 0 <= i < |b.table| && b.table[i].status in {Open, Partial} ==> From(b) <= b.table[i].day)
              && (forall k :: k in b.verify ==> From(b) <= b.verify[k].day)
              && ((exists i :: 0 <= i < |b.table| && b.table[i].status in {Open, Partial} && From(b) == b.table[i].day)
                  || exists k :: k in b.verify && From(b) == b.verify[k].day)
  {
    if !Idle(b) {
      assert From(b) in Days(b);
      forall i | 0 <= i < |b.table| && b.table[i].status in {Open, Partial} ensures From(b) <= b.table[i].day {
        assert Live(b.table[i]) && b.table[i].day in Days(b);
      }
      forall k | k in b.verify ensures From(b) <= b.verify[k].day {
        assert b.verify[k].day in Days(b);
      }
    }
  }
}
