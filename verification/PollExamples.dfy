/** Concrete accounts on which poll cycles behave as the theorems about them allow. */
module PollExamples {
  import opened Collections
  import opened FillRecovery
  import opened PollCycle
  import opened PollRepeat

  // ---------------------------------------------------------------- the hypotheses can be met

  /** The symbols of a table, each once. */
  function SymbolsOf(t: Table): (r: seq<string>)
    ensures forall i :: 0 <= i < |t| ==> t[i].symbol in r
    ensures forall i, j :: 0 <= i < j < |r| ==> r[i] != r[j]
  {
    if t == [] then []
    else
      var init := SymbolsOf(t[..|t| - 1]);
      var s := t[|t| - 1].symbol;
      assert forall i :: 0 <= i < |t| - 1 ==> t[i] == t[..|t| - 1][i];
      if s in init then init else init + [s]
  }

  /** Books that show every position the recorded fills add up to. */
  function ExactBooks(t: Table): seq<Holding>
  {
    var symbols := SymbolsOf(t);
    seq(|symbols|, i requires 0 <= i < |symbols| => Holding(symbols[i], Net(t, Recorded(t), symbols[i])))
  }

  lemma {:induction false} NetOfStranger(t: Table, symbol: string)
    requires forall i :: 0 <= i < |t| ==> t[i].symbol != symbol
    ensures Net(t, Recorded(t), symbol) == 0.0
  {
    if t != [] {
      var n := |t| - 1;
      assert Recorded(t)[..n] == Recorded(t[..n]);
      NetOfStranger(t[..n], symbol);
    }
  }

  lemma {:induction false} TotalOfOne(rows: seq<Holding>, symbol: string)
    requires forall i, j :: 0 <= i < j < |rows| ==> rows[i].symbol != rows[j].symbol
    ensures forall i :: 0 <= i < |rows| && rows[i].symbol == symbol ==>
              At(Totals(rows, true), symbol) == Long(rows[i].quantity)
    ensures (forall i :: 0 <= i < |rows| ==> rows[i].symbol != symbol) ==> symbol !in Totals(rows, true)
  {
    if rows != [] {
      var init := rows[..|rows| - 1];
      assert forall i :: 0 <= i < |init| ==> init[i] == rows[i];
      TotalOfOne(init, symbol);
      if rows[|rows| - 1].symbol == symbol {
        assert symbol !in Totals(init, true);
      }
    }
  }

  /** Whatever the broker answers, the exact books of an account that started empty follow the recorded fills. */
  lemma SteadyIsMet(reports: seq<Report>, positions: seq<Holding>)
    ensures Steady(Outside((from, to) => Some(reports), Some(positions), ExactBooks), reports, symbol => 0.0)
  {
    forall t, symbol ensures At(Totals(ExactBooks(t), true), symbol) == Long(0.0 + Net(t, Recorded(t), symbol)) {
      BooksAreExact(t, symbol);
    }
  }

  lemma BooksAreExact(t: Table, symbol: string)
    ensures At(Totals(ExactBooks(t), true), symbol) == Long(Net(t, Recorded(t), symbol))
  {
    TotalOfOne(ExactBooks(t), symbol);
    if symbol in SymbolsOf(t) {
      var i :| 0 <= i < |SymbolsOf(t)| && SymbolsOf(t)[i] == symbol;
      assert ExactBooks(t)[i].symbol == symbol;
    } else {
      NetOfStranger(t, symbol);
    }
  }

  /** Three open buys, two of one symbol of which the first is stale, the account holding exactly the others. */
  lemma ThreeBuys(a: Order, b: Order, c: Order, today: nat, w: Outside)
    requires a.buy && b.buy && c.buy && a.status == b.status == c.status == Open
    requires Tracked([a, b, c]) && a.symbol == b.symbol != c.symbol && a.day < today == b.day == c.day
    requires w.positions.Some? && w.books == ExactBooks
    requires At(Broker(w), b.symbol) == b.ordered && At(Broker(w), c.symbol) == c.ordered
    ensures Fires([a, b, c], 2, Broker(w), Book(w, [a, b, c])) && HeldBack([a, b, c], 1, today, w)
  {
    var t := [a, b, c];
    BooksAreExact(t, b.symbol);
    BooksAreExact(t, c.symbol);
    NothingRecorded(t, b.symbol);
    NothingRecorded(t, c.symbol);
    CountedAlone(t, b.symbol, 0, 1);
    AloneCounted(t, c.symbol, 2);
  }

  /** One account in which a first cycle completes an order and leaves another held back. */
  lemma FiringAndHeldBack()
    ensures var t := [Order("1", "A", true, 5.0, 0.0, Open, 1), Order("2", "A", true, 4.0, 0.0, Open, 2),
                      Order("3", "B", true, 3.0, 0.0, Open, 2)];
            var w := Outside((from, to) => Some([]), Some([Holding("A", 4.0), Holding("B", 3.0)]), ExactBooks);
            && Tracked(t) && OnlyNewestLive(t) && Steady(w, [], symbol => 0.0)
            && Fires(t, 2, Broker(w), Book(w, t)) && HeldBack(t, 1, 2, w)
  {
    var a, b := Order("1", "A", true, 5.0, 0.0, Open, 1), Order("2", "A", true, 4.0, 0.0, Open, 2);
    OneFiresOneWaits(a, b, Order("3", "B", true, 3.0, 0.0, Open, 2), 2);
  }

  lemma OneFiresOneWaits(a: Order, b: Order, c: Order, today: nat)
    requires a.buy && b.buy && c.buy && a.status == b.status == c.status == Open && b.symbol != "" && c.symbol != ""
    requires Tracked([a, b, c]) && a.symbol == b.symbol != c.symbol && a.day < today == b.day == c.day
    requires a.odno != b.odno && a.odno != c.odno && b.odno != c.odno
    ensures var t := [a, b, c];
            var w := Outside((from, to) => Some([]), Some([Holding(b.symbol, b.ordered), Holding(c.symbol, c.ordered)]),
                             ExactBooks);
            && OnlyNewestLive(t) && Steady(w, [], symbol => 0.0)
            && Fires(t, 2, Broker(w), Book(w, t)) && HeldBack(t, 1, today, w)
  {
    var rows := [Holding(b.symbol, b.ordered), Holding(c.symbol, c.ordered)];
    SteadyIsMet([], rows);
    TwoTotals(rows[0], rows[1]);
    ThreeBuys(a, b, c, today, Outside((from, to) => Some([]), Some(rows), ExactBooks));
  }

  lemma TwoTotals(a: Holding, b: Holding)
    requires a.symbol != "" && b.symbol != "" && a.symbol != b.symbol
    ensures At(Totals([a, b], false), a.symbol) == a.quantity && At(Totals([a, b], false), b.symbol) == b.quantity
  {
    assert [a, b][..1] == [a] && [a][..0] == [];
    assert Totals([], false) == map[];
    assert Totals([a], false) == map[a.symbol := a.quantity];
  }

  lemma {:induction false} NothingRecorded(t: Table, symbol: string)
    requires forall i :: 0 <= i < |t| ==> t[i].recorded == 0.0
    ensures Net(t, Recorded(t), symbol) == 0.0
  {
    if t != [] {
      var n := |t| - 1;
      assert Recorded(t)[..n] == Recorded(t[..n]);
      NothingRecorded(t[..n], symbol);
    }
  }

  // ---------------------------------------------------------------- a second cycle that changes the table

  /** Two open buys of one symbol, the first of them stale, the account holding what the second ordered: the
      first cycle sees two candidates and expires one, the second completes the other. */
  lemma TwoCyclesOfTwoBuys(stale: Order, current: Order, today: nat, w: Outside)
    requires Tracked([stale, current]) && stale.buy && current.buy && stale.status == current.status == Open
    requires stale.symbol == current.symbol != "" && stale.day < today == current.day
    requires Answers(w, []) && w.positions == Some([Holding(current.symbol, current.ordered)]) && w.books == ExactBooks
    ensures var once := Cycle(true, Books([stale, current], map[]), today, w).books;
            && once.table == [stale.(status := Expired), current]
            && Cycle(true, once, today, w).books.table == [stale.(status := Expired), Completed(current)]
  {
    var once := Cycle(true, Books([stale, current], map[]), today, w).books;
    TwoOpen(stale, current);
    CycleIsPolled(Books([stale, current], map[]), [], today, w);
    FirstPoll(stale, current, today, w);
    CycleIsPolled(once, [], today, w);
    SecondPoll(stale.(status := Expired), current, today, w);
  }

  lemma TwoOpen(a: Order, b: Order)
    requires Tracked([a, b]) && a.status == b.status == Open
    ensures a.recorded == 0.0 && b.recorded == 0.0 && b.ordered > 0.0 && Tracked([a.(status := Expired), b])
  {
    var t := [a, b];
    assert t[0] == a && t[1] == b;
  }

  lemma FirstPoll(stale: Order, current: Order, today: nat, w: Outside)
    requires Tracked([stale, current]) && w.positions.Some? && Stale(stale, today) && !Stale(current, today)
    requires IsLiveBuy(stale, current.symbol) && IsLiveBuy(current, current.symbol)
    ensures Polled([stale, current], [], today, w) == [stale.(status := Expired), current]
  {
    TwoBuysWait(stale, current, w);
    assert ApplyReports([stale, current], []) == [stale, current];
  }

  lemma SecondPoll(dead: Order, current: Order, today: nat, w: Outside)
    requires Tracked([dead, current]) && w.positions == Some([Holding(current.symbol, current.ordered)])
    requires w.books == ExactBooks && current.symbol != "" && dead.recorded == 0.0
    requires !Live(dead) && Unrecovered(current)
    ensures Polled([dead, current], [], today, w) == [dead, Completed(current)]
  {
    OneBuyCompletes(dead, current, w);
    assert ApplyReports([dead, current], []) == [dead, current];
  }

  lemma TwoBuysWait(stale: Order, current: Order, w: Outside)
    requires Tracked([stale, current]) && w.positions.Some?
    requires IsLiveBuy(stale, current.symbol) && IsLiveBuy(current, current.symbol)
    ensures Completions([stale, current], w) == [stale, current]
  {
    var t := [stale, current];
    CountedAlone(t, current.symbol, 0, 1);
    FallbackCompletes(t, 2, map[], Broker(w), Book(w, t));
    forall i | 0 <= i < 2 ensures Completions(t, w)[i] == t[i] {
      assert Completions(t, w)[i] == After(t, i, 2, Broker(w), Book(w, t));
    }
  }

  lemma OneBuyCompletes(dead: Order, current: Order, w: Outside)
    requires Tracked([dead, current]) && w.positions == Some([Holding(current.symbol, current.ordered)])
    requires w.books == ExactBooks && current.symbol != "" && dead.recorded == 0.0
    requires !Live(dead) && Unrecovered(current)
    ensures Completions([dead, current], w) == [dead, Completed(current)]
  {
    var t := [dead, current];
    OneTotal(Holding(current.symbol, current.ordered));
    BooksAreExact(t, current.symbol);
    NothingRecorded(t, current.symbol);
    AloneCounted(t, current.symbol, 1);
    FallbackCompletes(t, 2, map[], Broker(w), Book(w, t));
    forall i | 0 <= i < 2 ensures Completions(t, w)[i] == [dead, Completed(current)][i] {
      assert Completions(t, w)[i] == After(t, i, 2, Broker(w), Book(w, t));
    }
  }

  lemma OneTotal(a: Holding)
    requires a.symbol != ""
    ensures At(Totals([a], false), a.symbol) == a.quantity
  {
    assert [a][..0] == [] && Totals([], false) == map[];
  }

  lemma SecondCycleCounterexample()
    ensures var stale, current := Order("1", "A", true, 5.0, 0.0, Open, 1), Order("2", "A", true, 4.0, 0.0, Open, 2);
            var w := Outside((from, to) => Some([]), Some([Holding("A", 4.0)]), ExactBooks);
            var once := Cycle(true, Books([stale, current], map[]), 2, w).books;
            && once.table == [stale.(status := Expired), current]
            && Cycle(true, once, 2, w).books.table == [stale.(status := Expired), Completed(current)]
  {
    var w := Outside((from, to) => Some([]), Some([Holding("A", 4.0)]), ExactBooks);
    TwoCyclesOfTwoBuys(Order("1", "A", true, 5.0, 0.0, Open, 1), Order("2", "A", true, 4.0, 0.0, Open, 2), 2, w);
  }

  // ---------------------------------------------------------------- an expiry that hides a fill

  /** Yesterday's buy really was filled, today's of the same symbol and size was not. The first cycle of an honest
      broker expires the former, the second takes what the account holds for a fill of the latter. */
  lemma HiddenFill(hidden: Order, unfilled: Order, today: nat, w: Outside)
    requires Tracked([hidden, unfilled]) && hidden.buy && unfilled.buy && hidden.status == unfilled.status == Open
    requires hidden.symbol == unfilled.symbol != "" && hidden.ordered == unfilled.ordered
    requires hidden.day < today == unfilled.day && hidden.odno != unfilled.odno
    requires Answers(w, []) && w.positions == Some([Holding(hidden.symbol, hidden.ordered)]) && w.books == ExactBooks
    ensures var t, q := [hidden, unfilled], [hidden.ordered, 0.0];
            var once := Cycle(true, Books(t, map[]), today, w).books;
            && OnlyNewestLive(t) && Bounded(t, q) && TerminalRecorded(t, q) && Consistent(t, q, w, symbol => 0.0)
            && Cycle(true, once, today, w).books.table == [hidden.(status := Expired), Completed(unfilled)]
  {
    var t, q := [hidden, unfilled], [hidden.ordered, 0.0];
    TwoCyclesOfTwoBuys(hidden, unfilled, today, w);
    TwoOpen(hidden, unfilled);
    OneHolding(hidden.symbol, hidden.ordered);
    forall symbol
      ensures Snapshot(t, q, 0.0, 0.0, symbol, Totals(w.positions.value, false), Totals(w.books(t), true))
    {
      NetOfTwo(hidden, unfilled, q, symbol);
      NothingRecorded(t, symbol);
      BooksAreExact(t, symbol);
    }
  }

  /** So an expiry that hides a fill can lose the bound. */
  lemma HiddenFillIsMisattributed()
    ensures var hidden, unfilled := Order("1", "A", true, 5.0, 0.0, Open, 1), Order("2", "A", true, 5.0, 0.0, Open, 2);
            var w := Outside((from, to) => Some([]), Some([Holding("A", 5.0)]), ExactBooks);
            var t, q := [hidden, unfilled], [5.0, 0.0];
            var twice := Cycle(true, Cycle(true, Books(t, map[]), 2, w).books, 2, w).books.table;
            && Tracked(t) && OnlyNewestLive(t) && Bounded(t, q) && TerminalRecorded(t, q)
            && Consistent(t, q, w, symbol => 0.0) && |twice| == 2 && twice[1].recorded == 5.0 > q[1]
  {
    var w := Outside((from, to) => Some([]), Some([Holding("A", 5.0)]), ExactBooks);
    HiddenFill(Order("1", "A", true, 5.0, 0.0, Open, 1), Order("2", "A", true, 5.0, 0.0, Open, 2), 2, w);
  }

  lemma OneHolding(symbol: string, quantity: real)
    requires symbol != ""
    ensures Totals([Holding(symbol, quantity)], false) == map[symbol := quantity]
  {
    assert [Holding(symbol, quantity)][..0] == [] && Totals([], false) == map[];
  }

  lemma NetOfTwo(a: Order, b: Order, q: seq<real>, symbol: string)
    requires a.buy && b.buy && |q| == 2
    ensures Net([a, b], q, symbol)
         == (if a.symbol == symbol then q[0] else 0.0) + if b.symbol == symbol then q[1] else 0.0
  {
    assert [a, b][..1] == [a] && q[..1] == [q[0]] && [a][..0] == [] && [q[0]][..0] == [];
    assert Net([], [], symbol) == 0.0;
    assert Net([a], [q[0]], symbol) == if a.symbol == symbol then q[0] else 0.0;
  }
}
