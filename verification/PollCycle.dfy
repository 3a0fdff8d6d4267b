/** Deriving a full fill from the account's positions when the broker's ledger is late, and one whole poll
    cycle of the scheduler (fill_scheduler.py). */
module PollCycle {
  import opened Collections
  import opened FillRecovery

  function LiveBuys(t: Table, symbol: string): nat
  {
    if t == [] then 0
    else
      var o := t[|t| - 1];
      LiveBuys(t[..|t| - 1], symbol) + if o.buy && Live(o) && o.symbol == symbol then 1 else 0
  }

  /** A live buy without any recorded fill: the reason to ask for positions at all. */
  predicate Unrecovered(o: Order) { o.buy && Live(o) && o.recorded == 0.0 && o.ordered > 0.0 }

  function Excess(broker: map<string, real>, book: map<string, real>, symbol: string): real
  {
    At(broker, symbol) - At(book, symbol)
  }

  /** The fallback takes order `i` for filled: the only live buy of its symbol, none of it recorded, and the
      account holds exactly its quantity more than the books say. */
  predicate Fires(t: Table, i: nat, broker: map<string, real>, book: map<string, real>)
  {
    && i < |t| && Unrecovered(t[i]) && LiveBuys(t, t[i].symbol) == 1
    && Excess(broker, book, t[i].symbol) > 0.0 && Excess(broker, book, t[i].symbol) == t[i].ordered
  }

  function FullFill(o: Order): Report { Report(o.odno, o.day, o.ordered) }

  datatype VerifyEntry = VerifyEntry(recorded: real, day: nat)
  type Verify = map<string, VerifyEntry>

  datatype Books = Books(table: Table, verify: Verify)

  /** What applying a report changed: the increment returned by the fill applier. */
  predicate Advanced(t: Table, r: Report) { ApplyCumulative(t, r) != t }

  /** The fallback over the first `n` orders of the table as it was read, `t`. */
  function Fallback(t: Table, n: nat, verify: Verify, broker: map<string, real>, book: map<string, real>): Books
  {
    if n == 0 then Books(t, verify)
    else
      var b := Fallback(t, n - 1, verify, broker, book);
      if Fires(t, n - 1, broker, book) then
        var o := t[n - 1];
        Books(ApplyCumulative(b.table, FullFill(o)),
              if Advanced(b.table, FullFill(o)) then b.verify[o.odno := VerifyEntry(o.ordered, o.day)] else b.verify)
      else b
  }

  function Completed(o: Order): Order { o.(recorded := o.ordered, status := Filled) }

  lemma FullFillCompletes(t: Table, i: nat)
    requires Tracked(t) && i < |t| && Unrecovered(t[i])
    ensures ApplyCumulative(t, FullFill(t[i])) == t[i := Completed(t[i])]
  {
    LookupSelf(t, i);
  }

  /** Order `i` after the fallback has seen the first `n`. */
  function After(t: Table, i: nat, n: nat, broker: map<string, real>, book: map<string, real>): Order
    requires i < |t|
  {
    if i < n && Fires(t, i, broker, book) then Completed(t[i]) else t[i]
  }

  ghost predicate Stands(t: Table, u: Table, n: nat, broker: map<string, real>, book: map<string, real>)
  {
    |u| == |t| && forall i :: 0 <= i < |t| ==> u[i] == After(t, i, n, broker, book)
  }

  lemma CompletedTracked(t: Table, u: Table, n: nat, broker: map<string, real>, book: map<string, real>)
    requires Tracked(t) && Stands(t, u, n, broker, book)
    ensures Tracked(u)
  {
  }

  lemma OneMoreStands(t: Table, u: Table, n: nat, broker: map<string, real>, book: map<string, real>)
    requires n < |t| && Stands(t, u, n, broker, book)
    ensures u[n] == t[n]
    ensures Stands(t, if Fires(t, n, broker, book) then u[n := Completed(t[n])] else u, n + 1, broker, book)
  {
  }

  lemma {:induction false} FallbackPointwise(t: Table, n: nat, verify: Verify,
                                             broker: map<string, real>, book: map<string, real>)
    requires Tracked(t) && n <= |t|
    ensures Stands(t, Fallback(t, n, verify, broker, book).table, n, broker, book)
  {
    if n > 0 {
      FallbackPointwise(t, n - 1, verify, broker, book);
      FallbackOneMore(t, n - 1, verify, broker, book);
    }
  }

  lemma FallbackOneMore(t: Table, n: nat, verify: Verify, broker: map<string, real>, book: map<string, real>)
    requires Tracked(t) && n < |t| && Stands(t, Fallback(t, n, verify, broker, book).table, n, broker, book)
    ensures Stands(t, Fallback(t, n + 1, verify, broker, book).table, n + 1, broker, book)
  {
    var before, after := Fallback(t, n, verify, broker, book).table, Fallback(t, n + 1, verify, broker, book).table;
    CompletedTracked(t, before, n, broker, book);
    OneMoreStands(t, before, n, broker, book);
    if Fires(t, n, broker, book) {
      FullFillCompletes(before, n);
      assert after == before[n := Completed(t[n])];
    } else {
      assert after == before;
    }
  }

  /** The fallback completes exactly the orders it fires for and touches no other. */
  lemma FallbackCompletes(t: Table, n: nat, verify: Verify, broker: map<string, real>, book: map<string, real>)
    requires Tracked(t) && n <= |t|
    ensures var u := Fallback(t, n, verify, broker, book).table;
            Tracked(u) && |u| == |t| && forall i :: 0 <= i < |t| ==> u[i] == After(t, i, n, broker, book)
  {
    FallbackPointwise(t, n, verify, broker, book);
    CompletedTracked(t, Fallback(t, n, verify, broker, book).table, n, broker, book);
  }

  // ---------------------------------------------------------------- soundness

  /** Signed sum over the orders of a symbol: buys add, sells subtract. */
  function Net(t: Table, amounts: seq<real>, symbol: string): real
    requires |amounts| == |t|
  {
    if t == [] then 0.0
    else
      var o, x := t[|t| - 1], amounts[|t| - 1];
      Net(t[..|t| - 1], amounts[..|t| - 1], symbol)
      + if o.symbol != symbol then 0.0 else if o.buy then x else -x
  }

  function Recorded(t: Table): (r: seq<real>)
    ensures |r| == |t|
  {
    seq(|t|, i requires 0 <= i < |t| => t[i].recorded)
  }

  /** True fills not yet recorded, of the sells of a symbol. */
  function MissingSells(t: Table, q: seq<real>, symbol: string): real
    requires |q| == |t|
  {
    if t == [] then 0.0
    else
      var o := t[|t| - 1];
      MissingSells(t[..|t| - 1], q[..|t| - 1], symbol)
      + if o.symbol == symbol && !o.buy then q[|t| - 1] - o.recorded else 0.0
  }

  /** Broker and books start from the same position; the books follow the records, the broker the true fills
      and whatever was traded outside. */
  ghost predicate Snapshot(t: Table, q: seq<real>, opening: real, external: real, symbol: string,
                           broker: map<string, real>, book: map<string, real>)
    requires |q| == |t|
  {
    && At(broker, symbol) == opening + Net(t, q, symbol) + external
    && At(book, symbol) == opening + Net(t, Recorded(t), symbol)
  }

  ghost predicate TerminalRecorded(t: Table, q: seq<real>)
    requires |q| == |t|
  {
    forall i :: 0 <= i < |t| && !Live(t[i]) ==> t[i].recorded == q[i]
  }

  lemma {:induction false} NoLiveBuy(t: Table, symbol: string)
    requires LiveBuys(t, symbol) == 0
    ensures forall i :: 0 <= i < |t| && t[i].symbol == symbol && t[i].buy ==> !Live(t[i])
  {
    if t != [] { NoLiveBuy(t[..|t| - 1], symbol); }
  }

  /** With one live buy, what the broker holds beyond the books is its missing fill less the missing sells. */
  lemma {:induction false} ExcessExplained(t: Table, q: seq<real>, symbol: string, i: nat)
    requires |q| == |t| && TerminalRecorded(t, q) && LiveBuys(t, symbol) <= 1
    requires i < |t| && t[i].symbol == symbol && t[i].buy && Live(t[i])
    ensures Net(t, q, symbol) - Net(t, Recorded(t), symbol) == q[i] - t[i].recorded - MissingSells(t, q, symbol)
  {
    var n := |t| - 1;
    assert Recorded(t)[..n] == Recorded(t[..n]);
    if i == n {
      NoGapWithoutLiveBuy(t[..n], q[..n], symbol);
    } else {
      ExcessExplained(t[..n], q[..n], symbol, i);
      OneLiveBuy(t[..n], symbol, i);
    }
  }

  lemma {:induction false} OneLiveBuy(t: Table, symbol: string, i: nat)
    requires i < |t| && t[i].symbol == symbol && t[i].buy && Live(t[i])
    ensures LiveBuys(t, symbol) >= 1
  {
    if i < |t| - 1 { OneLiveBuy(t[..|t| - 1], symbol, i); }
  }

  lemma {:induction false} NoGapWithoutLiveBuy(t: Table, q: seq<real>, symbol: string)
    requires |q| == |t| && TerminalRecorded(t, q) && LiveBuys(t, symbol) == 0
    ensures Net(t, q, symbol) - Net(t, Recorded(t), symbol) == -MissingSells(t, q, symbol)
  {
    if t != [] {
      var n := |t| - 1;
      assert Recorded(t)[..n] == Recorded(t[..n]);
      NoGapWithoutLiveBuy(t[..n], q[..n], symbol);
    }
  }

  lemma {:induction false} MissingSellsNonNegative(t: Table, q: seq<real>, symbol: string)
    requires Bounded(t, q)
    ensures MissingSells(t, q, symbol) >= 0.0
  {
    if t != [] { MissingSellsNonNegative(t[..|t| - 1], q[..|t| - 1], symbol); }
  }

  /** When the fallback fires, the order was filled in full exactly if trades made outside balance the sells
      not yet recorded; in particular whenever there were none outside. */
  lemma FallbackSoundIff(t: Table, q: seq<real>, opening: real, external: real, i: nat,
                         broker: map<string, real>, book: map<string, real>)
    requires Bounded(t, q) && TerminalRecorded(t, q) && Fires(t, i, broker, book)
    requires Snapshot(t, q, opening, external, t[i].symbol, broker, book)
    ensures q[i] == t[i].ordered <==> external == MissingSells(t, q, t[i].symbol)
    ensures external == 0.0 ==> q[i] == t[i].ordered
  {
    ExcessExplained(t, q, t[i].symbol, i);
    MissingSellsNonNegative(t, q, t[i].symbol);
  }

  // ---------------------------------------------------------------- one poll cycle

  datatype Holding = Holding(symbol: string, quantity: real)

  /** Quantities by symbol; the books count positive positions only, the broker's rows need a symbol. */
  function Totals(rows: seq<Holding>, books: bool): map<string, real>
  {
    if rows == [] then map[]
    else
      var before, r := Totals(rows[..|rows| - 1], books), rows[|rows| - 1];
      if (if books then r.quantity <= 0.0 else r.symbol == "") then before
      else before[r.symbol := At(before, r.symbol) + r.quantity]
  }

  predicate Stale(o: Order, today: nat) { o.status == Open && o.day < today }

  /** End of day: open orders of earlier days without any observed fill expire. */
  function Expire(t: Table, today: nat): Table
  {
    seq(|t|, i requires 0 <= i < |t| => if Stale(t[i], today) then t[i].(status := Expired) else t[i])
  }

  function Prune(v: Verify, today: nat): Verify { map k | k in v && v[k].day >= today :: v[k] }

  predicate Checks(v: Verify, r: Report) { r.odno in v && v[r.odno].day == r.day }

  /** The first report of an order the fallback completed settles its check. */
  function Verified(v: Verify, r: Report): Verify { if Checks(v, r) then v - {r.odno} else v }

  /** The ledger says less than the fallback recorded. */
  predicate Alarming(v: Verify, r: Report) { Checks(v, r) && 0.0 < r.cumulative < v[r.odno].recorded }

  function VerifyReports(v: Verify, reports: seq<Report>): Verify
  {
    if reports == [] then v
    else
      var before, r := VerifyReports(v, reports[..|reports| - 1]), reports[|reports| - 1];
      if Relevant(r) then Verified(before, r) else before
  }

  /** The reports that contradict a completed order. */
  function LateReports(v: Verify, reports: seq<Report>): seq<Report>
  {
    if reports == [] then []
    else
      var init, r := reports[..|reports| - 1], reports[|reports| - 1];
      if Relevant(r) && Alarming(VerifyReports(v, init), r) then LateReports(v, init) + [r] else LateReports(v, init)
  }

  lemma {:induction false} ChecksOnlySettle(v: Verify, reports: seq<Report>)
    ensures forall k :: k in VerifyReports(v, reports) ==> k in v && VerifyReports(v, reports)[k] == v[k]
    ensures forall k :: 0 <= k < |reports| && Relevant(reports[k]) && Checks(v, reports[k]) ==>
              reports[k].odno !in VerifyReports(v, reports)
  {
    if reports != [] {
      var init := reports[..|reports| - 1];
      ChecksOnlySettle(v, init);
      assert forall k :: 0 <= k < |init| ==> init[k] == reports[k];
    }
  }

  ghost predicate Contradicts(v: Verify, reports: seq<Report>, r: Report)
  {
    r in reports && Relevant(r) && Alarming(v, r)
  }

  /** Each completed order is contradicted at most once, by a report of its own day that shows a smaller fill
      than was recorded. */
  lemma {:induction false} OneAlertPerOrder(v: Verify, reports: seq<Report>)
    ensures forall l :: l in LateReports(v, reports) ==> Contradicts(v, reports, l)
    ensures forall j, k :: 0 <= j < k < |LateReports(v, reports)| ==>
              LateReports(v, reports)[j].odno != LateReports(v, reports)[k].odno
  {
    if reports != [] {
      var init, r := reports[..|reports| - 1], reports[|reports| - 1];
      OneAlertPerOrder(v, init);
      ChecksOnlySettle(v, init);
      assert reports == init + [r];
      var late := LateReports(v, init);
      forall k | 0 <= k < |late| ensures late[k].odno !in VerifyReports(v, init) {
        assert late[k] in late && Contradicts(v, init, late[k]);
        var i :| 0 <= i < |init| && init[i] == late[k];
      }
    }
  }

  predicate Idle(b: Books) { (forall i :: 0 <= i < |b.table| ==> !Live(b.table[i])) && b.verify == map[] }

  function Days(b: Books): set<int>
  {
    (set i | 0 <= i < |b.table| && Live(b.table[i]) :: b.table[i].day) + (set k | k in b.verify :: b.verify[k].day)
  }

  /** The earliest day the poll must cover. */
  function From(b: Books): int
    requires !Idle(b)
  {
    assert Days(b) != {} by {
      if b.verify != map[] {
        var k :| k in b.verify;
        assert b.verify[k].day in Days(b);
      } else {
        var i :| 0 <= i < |b.table| && Live(b.table[i]);
        assert b.table[i].day in Days(b);
      }
    }
    Least(Days(b))
  }

  /** What the outside answers: the ledger over a window, the broker's positions (None when the call raised),
      and the positions the books show given the recorded fills. */
  datatype Outside = Outside(history: (int, int) -> Option<seq<Report>>, positions: Option<seq<Holding>>,
                             books: Table -> seq<Holding>)

  datatype Outcome = Outcome(raised: bool, books: Books)

  /** Reports first, then the fallback, and only then end-of-day expiry; a call that raises ends the cycle. */
  function Cycle(enabled: bool, b: Books, today: nat, w: Outside): Outcome
  {
    if Idle(b) then Outcome(false, b)
    else
      var reports := w.history(From(b), today);
      if reports.None? then Outcome(true, b)
      else
        var t, v := ApplyReports(b.table, reports.value), VerifyReports(b.verify, reports.value);
        var done := FallbackPhase(enabled, Books(t, v), w);
        if done.raised then done
        else Outcome(false, Books(Expire(done.books.table, today), Prune(done.books.verify, today)))
  }

  /** The alerts of a cycle. */
  function AlertsOf(b: Books, today: nat, w: Outside): seq<Report>
  {
    if Idle(b) then []
    else
      var reports := w.history(From(b), today);
      if reports.None? then [] else LateReports(b.verify, reports.value)
  }

  predicate Wanted(t: Table) { exists i :: 0 <= i < |t| && Unrecovered(t[i]) }

  function FallbackPhase(enabled: bool, b: Books, w: Outside): Outcome
  {
    if !enabled || !Wanted(b.table) then Outcome(false, b)
    else if w.positions.None? then Outcome(true, b)
    else Outcome(false, Fallback(b.table, |b.table|, b.verify, Totals(w.positions.value, false),
                                 Totals(w.books(b.table), true)))
  }

  /** A raising call expires nothing; what was reported before it stays applied. */
  lemma RaisingExpiresNothing(enabled: bool, b: Books, today: nat, w: Outside, i: nat)
    requires Tracked(b.table) && i < |b.table| && Cycle(enabled, b, today, w).raised
    ensures var t' := Cycle(enabled, b, today, w).books.table;
            |t'| == |b.table| && (b.table[i].status == Open ==> t'[i].status in {Open, Partial, Filled})
            && b.table[i].recorded <= t'[i].recorded
  {
    var reports := w.history(From(b), today);
    if reports.Some? { ReportsAdvance(b.table, reports.value); }
  }

  /** The broker's account and the books as the fallback compares them, with no trades outside. */
  ghost predicate Consistent(t: Table, q: seq<real>, w: Outside, opening: string -> real)
  {
    |q| == |t| &&
    (w.positions.Some? ==>
       forall symbol ::
         Snapshot(t, q, opening(symbol), 0.0, symbol, Totals(w.positions.value, false), Totals(w.books(t), true)))
  }

  lemma TerminalStaysRecorded(t: Table, t': Table, q: seq<real>)
    requires Tracked(t') && Advances(t, t') && Bounded(t', q) && TerminalRecorded(t, q)
    ensures TerminalRecorded(t', q)
  {
  }

  lemma FallbackKeepsBounded(enabled: bool, b: Books, q: seq<real>, w: Outside, opening: string -> real)
    requires Tracked(b.table) && Bounded(b.table, q) && TerminalRecorded(b.table, q)
    requires Consistent(b.table, q, w, opening)
    ensures Bounded(FallbackPhase(enabled, b, w).books.table, q)
  {
    var t := b.table;
    if enabled && Wanted(t) && w.positions.Some? {
      var broker, book := Totals(w.positions.value, false), Totals(w.books(t), true);
      FallbackCompletes(t, |t|, b.verify, broker, book);
      forall i | 0 <= i < |t| && Fires(t, i, broker, book) ensures q[i] == t[i].ordered {
        FallbackSoundIff(t, q, opening(t[i].symbol), 0.0, i, broker, book);
      }
    }
  }

  /** A cycle with truthful reports and a consistent snapshot never records more than was really filled:
      recorded <= true fill <= ordered is kept for every order, also when a call raises midway. */
  lemma {:induction false} CycleKeepsBounded(enabled: bool, b: Books, q: seq<real>, today: nat, w: Outside,
                                             opening: string -> real)
    requires Tracked(b.table) && OnlyNewestLive(b.table) && Bounded(b.table, q) && TerminalRecorded(b.table, q)
    requires !Idle(b) && w.history(From(b), today).Some? ==>
               var reports := w.history(From(b), today).value;
               (forall k :: 0 <= k < |reports| ==> Truthful(b.table, q, reports[k]))
               && Consistent(ApplyReports(b.table, reports), q, w, opening)
    ensures Bounded(Cycle(enabled, b, today, w).books.table, q)
  {
    if !Idle(b) && w.history(From(b), today).Some? {
      var reports := w.history(From(b), today).value;
      ReportsKeepBounded(b.table, q, reports);
      ReportsAdvance(b.table, reports);
      var t, v := ApplyReports(b.table, reports), VerifyReports(b.verify, reports);
      TerminalStaysRecorded(b.table, t, q);
      FallbackKeepsBounded(enabled, Books(t, v), q, w, opening);
    }
  }

  // ---------------------------------------------------------------- what is left to check

  /** The fallback only adds checks, of the days of its orders. */
  lemma {:induction false} FallbackAddsChecks(t: Table, n: nat, verify: Verify,
                                              broker: map<string, real>, book: map<string, real>)
    requires n <= |t|
    ensures var v := Fallback(t, n, verify, broker, book).verify;
            && verify.Keys <= v.Keys
            && forall k :: k in v ==> (k in verify && v[k] == verify[k])
                                      || exists i :: 0 <= i < n && t[i].odno == k && v[k].day == t[i].day
  {
    if n > 0 { FallbackAddsChecks(t, n - 1, verify, broker, book); }
  }

  /** Nothing in the books is of a later day. */
  ghost predicate UpToDay(b: Books, today: nat)
  {
    && (forall i :: 0 <= i < |b.table| ==> b.table[i].day <= today)
    && (forall k :: k in b.verify ==> b.verify[k].day <= today)
  }

  lemma PhaseUpToDay(enabled: bool, b: Books, today: nat, w: Outside)
    requires Tracked(b.table) && UpToDay(b, today)
    ensures UpToDay(FallbackPhase(enabled, b, w).books, today)
    ensures b.verify.Keys <= FallbackPhase(enabled, b, w).books.verify.Keys
  {
    if enabled && Wanted(b.table) && w.positions.Some? {
      var broker, book := Totals(w.positions.value, false), Totals(w.books(b.table), true);
      FallbackCompletes(b.table, |b.table|, b.verify, broker, book);
      FallbackAddsChecks(b.table, |b.table|, b.verify, broker, book);
    }
  }

  lemma ReportsUpToDay(b: Books, reports: seq<Report>, today: nat)
    requires Tracked(b.table) && UpToDay(b, today)
    ensures var c := Books(ApplyReports(b.table, reports), VerifyReports(b.verify, reports));
            Tracked(c.table) && UpToDay(c, today)
  {
    ReportsAdvance(b.table, reports);
    ChecksOnlySettle(b.verify, reports);
  }

  /** A finished cycle leaves checks of its own day only. */
  lemma ChecksAreOfToday(enabled: bool, b: Books, today: nat, w: Outside)
    requires Tracked(b.table) && UpToDay(b, today) && !Cycle(enabled, b, today, w).raised
    ensures var done := Cycle(enabled, b, today, w).books;
            UpToDay(done, today) && forall k :: k in done.verify ==> done.verify[k].day == today
  {
    if !Idle(b) {
      var reports := w.history(From(b), today).value;
      var c := Books(ApplyReports(b.table, reports), VerifyReports(b.verify, reports));
      ReportsUpToDay(b, reports, today);
      PhaseUpToDay(enabled, c, today, w);
      PruneUpToDay(FallbackPhase(enabled, c, w).books, today);
    }
  }

  lemma PruneUpToDay(b: Books, today: nat)
    requires UpToDay(b, today)
    ensures var done := Books(Expire(b.table, today), Prune(b.verify, today));
            UpToDay(done, today) && forall k :: k in done.verify ==> done.verify[k].day == today
  {
  }

  /** So the next poll reaches back to today or to the oldest live order, never further for a check's sake. */
  lemma NextWindow(enabled: bool, b: Books, today: nat, w: Outside)
    requires Tracked(b.table) && UpToDay(b, today) && !Cycle(enabled, b, today, w).raised
    ensures var done := Cycle(enabled, b, today, w).books;
            !Idle(done) ==>
              From(done) <= today
              && (From(done) == today
                  || exists i :: 0 <= i < |done.table| && Live(done.table[i]) && done.table[i].day == From(done))
  {
    ChecksAreOfToday(enabled, b, today, w);
    var done := Cycle(enabled, b, today, w).books;
    if !Idle(done) { assert From(done) in Days(done); }
  }

  // ---------------------------------------------------------------- the number a cycle reports

  /** How many reports advanced the order they were credited to. */
  function ReportsApplied(t: Table, reports: seq<Report>): nat
  {
    if reports == [] then 0
    else
      var init, r := reports[..|reports| - 1], reports[|reports| - 1];
      ReportsApplied(t, init) + if Relevant(r) && Advanced(ApplyReports(t, init), r) then 1 else 0
  }

  /** How many of the first `n` orders the fallback advanced. */
  function FallbackApplied(t: Table, n: nat, verify: Verify, broker: map<string, real>, book: map<string, real>): nat
  {
    if n == 0 then 0
    else
      FallbackApplied(t, n - 1, verify, broker, book)
      + if Fires(t, n - 1, broker, book) && Advanced(Fallback(t, n - 1, verify, broker, book).table, FullFill(t[n - 1]))
        then 1 else 0
  }

  function PhaseApplied(enabled: bool, b: Books, w: Outside): nat
  {
    if !enabled || !Wanted(b.table) || w.positions.None? then 0
    else FallbackApplied(b.table, |b.table|, b.verify, Totals(w.positions.value, false),
                         Totals(w.books(b.table), true))
  }

  function CycleApplied(enabled: bool, b: Books, today: nat, w: Outside): nat
  {
    if Idle(b) then 0
    else
      var reports := w.history(From(b), today);
      if reports.None? then 0
      else
        ReportsApplied(b.table, reports.value)
        + PhaseApplied(enabled, Books(ApplyReports(b.table, reports.value), VerifyReports(b.verify, reports.value)), w)
  }

  ghost predicate Larger(t: Table, u: Table, i: int) { 0 <= i < |t| == |u| && t[i].recorded < u[i].recorded }

  /** Recorded quantities only grow, and a table that differs has a larger one. */
  ghost predicate Grown(t: Table, u: Table)
  {
    && |t| == |u| && (forall i :: 0 <= i < |t| ==> t[i].recorded <= u[i].recorded)
    && (t == u || exists i :: Larger(t, u, i))
  }

  lemma ApplyGrows(t: Table, r: Report)
    ensures Grown(t, ApplyCumulative(t, r))
  {
    var found := Lookup(t, r.odno, r.day);
    if Advanced(t, r) { assert Larger(t, ApplyCumulative(t, r), found.value); }
  }

  lemma GrownTwice(t: Table, u: Table, v: Table)
    requires Grown(t, u) && Grown(u, v)
    ensures Grown(t, v) && (t == v <==> t == u && u == v)
  {
    if t != u {
      var i :| Larger(t, u, i);
      assert Larger(t, v, i);
    } else if u != v {
      var i :| Larger(u, v, i);
      assert Larger(t, v, i);
    }
  }

  lemma {:induction false} ReportsGrow(t: Table, reports: seq<Report>)
    ensures Grown(t, ApplyReports(t, reports))
    ensures ReportsApplied(t, reports) == 0 <==> ApplyReports(t, reports) == t
  {
    if reports != [] {
      var init, r := reports[..|reports| - 1], reports[|reports| - 1];
      var before := ApplyReports(t, init);
      ReportsGrow(t, init);
      ApplyGrows(before, r);
      GrownTwice(t, before, ApplyReports(t, reports));
    }
  }

  lemma {:induction false} FallbackGrows(t: Table, n: nat, verify: Verify, broker: map<string, real>,
                                         book: map<string, real>)
    ensures Grown(t, Fallback(t, n, verify, broker, book).table)
    ensures FallbackApplied(t, n, verify, broker, book) == 0 <==> Fallback(t, n, verify, broker, book).table == t
  {
    if n > 0 {
      var before := Fallback(t, n - 1, verify, broker, book).table;
      FallbackGrows(t, n - 1, verify, broker, book);
      if Fires(t, n - 1, broker, book) { ApplyGrows(before, FullFill(t[n - 1])); }
      GrownTwice(t, before, Fallback(t, n, verify, broker, book).table);
    }
  }

  ghost predicate SameRecorded(t: Table, u: Table)
  {
    |t| == |u| && forall i :: 0 <= i < |t| ==> t[i].recorded == u[i].recorded
  }

  lemma SameRecordedIff(t: Table, u: Table, today: nat)
    requires Grown(t, u)
    ensures SameRecorded(t, Expire(u, today)) <==> t == u
  {
    if t != u {
      var i :| Larger(t, u, i);
      assert Expire(u, today)[i].recorded == u[i].recorded;
    }
  }

  /** A cycle that completes reports no fill exactly if it left every recorded quantity as it was. */
  lemma NoneAppliedIff(enabled: bool, b: Books, today: nat, w: Outside)
    requires !Cycle(enabled, b, today, w).raised
    ensures CycleApplied(enabled, b, today, w) == 0
            <==> SameRecorded(b.table, Cycle(enabled, b, today, w).books.table)
  {
    if !Idle(b) {
      var reports := w.history(From(b), today).value;
      var middle := Books(ApplyReports(b.table, reports), VerifyReports(b.verify, reports));
      var done := FallbackPhase(enabled, middle, w);
      ReportsGrow(b.table, reports);
      PhaseGrows(enabled, middle, w);
      GrownTwice(b.table, middle.table, done.books.table);
      SameRecordedIff(b.table, done.books.table, today);
    }
  }

  lemma PhaseGrows(enabled: bool, b: Books, w: Outside)
    requires !FallbackPhase(enabled, b, w).raised
    ensures Grown(b.table, FallbackPhase(enabled, b, w).books.table)
    ensures PhaseApplied(enabled, b, w) == 0 <==> FallbackPhase(enabled, b, w).books.table == b.table
  {
    if enabled && Wanted(b.table) {
      FallbackGrows(b.table, |b.table|, b.verify, Totals(w.positions.value, false), Totals(w.books(b.table), true));
    }
  }
}
