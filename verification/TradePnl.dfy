/** Profit per sale recomputed from the trade log alone (metrics.py), and its agreement with the executor's cash. */
module TradePnl {
  import opened Collections
  import opened DataProviders
  import opened Backtest
  import opened BacktestProofs

  datatype Lot = Lot(quantity: real, cost: real)
  datatype Ledger = Ledger(lots: map<string, Lot>, pnl: seq<real>)

  function LotOf(lots: map<string, Lot>, s: string): Lot
  {
    if s in lots then lots[s] else Lot(0.0, 0.0)
  }

  function Bought(lot: Lot, t: Trade): Lot
  {
    Lot(lot.quantity + t.quantity, lot.cost + (Gross(t.price, t.quantity) + t.commission))
  }

  function SalePnl(lot: Lot, t: Trade): real
    requires lot.quantity > 0.0
  {
    (t.price - lot.cost / lot.quantity) * t.quantity - t.commission
  }

  function Reduced(lot: Lot, t: Trade): Lot
    requires lot.quantity > 0.0
  {
    var sold := if lot.quantity < t.quantity then lot.quantity else t.quantity;
    Lot(lot.quantity - sold, lot.cost - lot.cost / lot.quantity * sold)
  }

  function Enter(l: Ledger, t: Trade): Ledger
  {
    var lot := LotOf(l.lots, t.symbol);
    if t.side == Buy then l.(lots := l.lots[t.symbol := Bought(lot, t)])
    else if t.side == Sell && t.symbol in l.lots && lot.quantity > 0.0 then
      var left := Reduced(lot, t);
      Ledger(if left.quantity <= 0.0 then l.lots - {t.symbol} else l.lots[t.symbol := left],
             l.pnl + [SalePnl(lot, t)])
    else l
  }

  /** The ledger after entering the trades one by one. */
  function Entered(trades: seq<Trade>): Ledger
  {
    if trades == [] then Ledger(map[], [])
    else Enter(Entered(trades[..|trades| - 1]), trades[|trades| - 1])
  }

  method EstimateTradePnl(trades: seq<Trade>) returns (pnl: seq<real>)
    ensures pnl == Entered(trades).pnl
  {
    var positions: map<string, Lot> := map[];
    pnl := [];
    for i := 0 to |trades|
      invariant Entered(trades[..i]) == Ledger(positions, pnl)
    {
      var t := trades[i];
      assert trades[..i + 1][..i] == trades[..i];
      if t.side == Buy {
        if t.symbol !in positions {
          positions := positions[t.symbol := Lot(0.0, 0.0)];
        }
        var pos := positions[t.symbol];
        positions := positions[t.symbol := Lot(pos.quantity + t.quantity,
                                               pos.cost + (Gross(t.price, t.quantity) + t.commission))];
        assert Ledger(positions, pnl) == Enter(Entered(trades[..i]), t);
      } else if t.side == Sell && t.symbol in positions && positions[t.symbol].quantity > 0.0 {
        var pos := positions[t.symbol];
        pnl := pnl + [SalePnl(pos, t)];
        var left := Reduced(pos, t);
        if left.quantity <= 0.0 {
          positions := positions - {t.symbol};
        } else {
          positions := positions[t.symbol := left];
        }
      }
    }
    assert trades[..|trades|] == trades;
  }

  // ---------------------------------------------------------------- agreement with the executor

  function Total(s: seq<real>): real
  {
    if s == [] then 0.0 else Total(s[..|s| - 1]) + s[|s| - 1]
  }

  function Sales(trades: seq<Trade>): nat
  {
    if trades == [] then 0
    else Sales(trades[..|trades| - 1]) + (if trades[|trades| - 1].side == Sell then 1 else 0)
  }

  function CostBasis(lots: map<string, Lot>): map<string, real> { map s | s in lots :: lots[s].cost }

  /** Same holdings in both ledgers, one entry per sale, and cash plus open cost basis equal to the initial
      balance plus all realised profit. */
  ghost predicate Agree(initial: real, st: State, l: Ledger)
  {
    && l.lots.Keys == st.positions.Keys
    && (forall s :: s in l.lots ==> l.lots[s].quantity == st.positions[s].quantity > 0.0)
    && |l.pnl| == Sales(st.trades)
    && st.balance + Sum(CostBasis(l.lots)) == initial + Total(l.pnl)
  }

  lemma TotalAppend(s: seq<real>, x: real)
    ensures Total(s + [x]) == Total(s) + x
  {
    assert (s + [x])[..|s|] == s;
  }

  lemma EnteredAppend(trades: seq<Trade>, t: Trade)
    ensures Entered(trades + [t]) == Enter(Entered(trades), t)
    ensures Sales(trades + [t]) == Sales(trades) + (if t.side == Sell then 1 else 0)
  {
    assert (trades + [t])[..|trades|] == trades;
  }

  lemma CostBasisReplace(a: map<string, Lot>, b: map<string, Lot>, s: string)
    requires a - {s} == b - {s}
    ensures Sum(CostBasis(b)) - Sum(CostBasis(a)) == LotOf(b, s).cost - LotOf(a, s).cost
  {
    forall k | k != s
      ensures k in a <==> k in b
      ensures k in a ==> a[k] == b[k]
    {
      assert k in a <==> k in a - {s};
      assert k in b <==> k in b - {s};
      if k in a { assert a[k] == (a - {s})[k] == (b - {s})[k]; }
    }
    SumReplace(CostBasis(a), CostBasis(b), s);
  }

  /** Selling `q` of a lot takes out average cost, and its profit is what cash gained minus that. */
  lemma SaleIdentity(lot: Lot, t: Trade)
    requires 0.0 < t.quantity <= lot.quantity
    ensures lot.cost + SalePnl(lot, t) == Reduced(lot, t).cost + (Gross(t.price, t.quantity) - t.commission)
    ensures t.quantity == lot.quantity ==> Reduced(lot, t) == Lot(0.0, 0.0)
  {
    var average := lot.cost / lot.quantity;
    DifferenceTimes(t.price, average, t.quantity);
    assert SalePnl(lot, t) == (t.price - average) * t.quantity - t.commission;
    assert Reduced(lot, t).cost == lot.cost - average * t.quantity;
    if t.quantity == lot.quantity { DivideBack(lot.cost, lot.quantity); }
  }

  lemma DifferenceTimes(x: real, y: real, z: real)
    ensures (x - y) * z == x * z - y * z
  {
  }

  lemma DivideBack(x: real, y: real)
    requires y != 0.0
    ensures x / y * y == x
  {
  }

  /** What a fill does to the executor's own books. */
  ghost predicate Booked(a: State, b: State, t: Trade)
  {
    && t.quantity > 0.0 && b.trades == a.trades + [t]
    && (t.side == Buy || (t.side == Sell && t.quantity <= Held(a.positions, t.symbol)))
    && b.balance == (if t.side == Buy then a.balance - (Gross(t.price, t.quantity) + t.commission)
                     else a.balance + (Gross(t.price, t.quantity) - t.commission))
    && b.positions == UpdatePosition(a.positions, t.symbol, Delta(t.side, t.quantity), t.price)
  }

  lemma AttemptBooks(env: Env, st: State, ts: int, sig: Signal)
    ensures var a := Attempt(env, st, ts, sig);
            if a.filled then a.st.trades != [] && Booked(st, a.st, a.st.trades[|a.st.trades| - 1]) else a.st == st
  {
  }

  lemma BuyKeepsAgreement(initial: real, a: State, b: State, t: Trade, l: Ledger)
    requires Agree(initial, a, l) && Booked(a, b, t) && t.side == Buy
    ensures Agree(initial, b, Enter(l, t))
  {
    var next := Enter(l, t);
    EnteredAppend(a.trades, t);
    CostBasisReplace(l.lots, next.lots, t.symbol);
  }

  lemma SaleKeepsAgreement(initial: real, a: State, b: State, t: Trade, l: Ledger)
    requires Agree(initial, a, l) && Booked(a, b, t) && t.side == Sell
    ensures Agree(initial, b, Enter(l, t))
  {
    var next := Enter(l, t);
    var lot := l.lots[t.symbol];
    EnteredAppend(a.trades, t);
    SaleIdentity(lot, t);
    CostBasisReplace(l.lots, next.lots, t.symbol);
    TotalAppend(l.pnl, SalePnl(lot, t));
  }

  lemma AttemptAgrees(initial: real, env: Env, st: State, ts: int, sig: Signal)
    requires Agree(initial, st, Entered(st.trades))
    ensures var b := Attempt(env, st, ts, sig).st; Agree(initial, b, Entered(b.trades))
  {
    AttemptBooks(env, st, ts, sig);
    var a := Attempt(env, st, ts, sig);
    if a.filled {
      var t := a.st.trades[|a.st.trades| - 1];
      EnteredAppend(st.trades, t);
      if t.side == Buy {
        BuyKeepsAgreement(initial, st, a.st, t, Entered(st.trades));
      } else {
        SaleKeepsAgreement(initial, st, a.st, t, Entered(st.trades));
      }
    }
  }

  ghost predicate Balanced(initial: real, st: State) { Agree(initial, st, Entered(st.trades)) }

  lemma SameBooks(initial: real, a: State, b: State)
    requires Balanced(initial, a) && b.balance == a.balance && b.positions == a.positions && b.trades == a.trades
    ensures Balanced(initial, b)
  {
  }

  lemma TradingAgrees(initial: real, env: Env, st: State, ts: int)
    requires Balanced(initial, Observe(env, st, ts))
    ensures Balanced(initial, Trading(env, st, ts))
  {
    var rel := (a: State, b: State) => Balanced(initial, a) ==> Balanced(initial, b);
    forall a, sig ensures rel(a, Attempt(env, a, ts, sig).st) {
      if Balanced(initial, a) { AttemptAgrees(initial, env, a, ts, sig); }
    }
    TradingRespects(env, st, ts, rel);
    assert rel(Observe(env, st, ts), Trading(env, st, ts));
  }

  lemma StepAgrees(initial: real, env: Env, st: State, ts: int)
    requires Balanced(initial, st)
    ensures Balanced(initial, Step(env, st, ts))
  {
    SameBooks(initial, st, Observe(env, st, ts));
    TradingAgrees(initial, env, st, ts);
    SameBooks(initial, Trading(env, st, ts), Step(env, st, ts));
  }

  /** After every step of every run, whatever the data, the rates and the strategy, the two ledgers agree. */
  lemma {:induction false} LedgersAgree(env: Env, n: nat)
    requires n <= |Timeline(env.cache)|
    ensures Balanced(env.cfg.initialBalance, After(env, n))
  {
    if n == 0 {
      assert CostBasis(map[]) == map[];
    } else {
      LedgersAgree(env, n - 1);
      StepAgrees(env.cfg.initialBalance, env, After(env, n - 1), Timeline(env.cache)[n - 1]);
    }
  }

  /** With nothing held, the profits the metrics report add up to the change in cash. */
  lemma {:induction false} FlatProfitIsCashChange(env: Env, n: nat)
    requires n <= |Timeline(env.cache)| && After(env, n).positions == map[]
    ensures Total(Entered(After(env, n).trades).pnl) == After(env, n).balance - env.cfg.initialBalance
  {
    LedgersAgree(env, n);
    assert CostBasis(Entered(After(env, n).trades).lots) == map[];
  }

  // ---------------------------------------------------------------- average cost

  /** The metrics' open cost is the executor's quantity times average price, plus the buying fee on it. */
  ghost predicate Averaged(rate: real, st: State, l: Ledger)
  {
    forall s :: s in l.lots && s in st.positions ==>
      l.lots[s].cost == OpenCost(rate, st.positions[s])
  }

  function WithFee(rate: real, amount: real): real { amount + amount * rate }

  lemma BuyAverages(rate: real, q: real, average: real, price: real, delta: real, commission: real)
    requires q >= 0.0 && delta > 0.0 && commission == Fee(price, delta, rate)
    ensures var next := AveragePrice(Position(q, average), delta, price);
            WithFee(rate, Gross(next, q + delta))
            == WithFee(rate, Gross(average, q)) + (Gross(price, delta) + commission)
  {
    var cost := q * average + delta * price;
    DivideBack(cost, q + delta);
    assert Gross(AveragePrice(Position(q, average), delta, price), q + delta) == cost;
    WithFeeAdds(rate, q * average, delta * price);
  }

  lemma WithFeeAdds(rate: real, x: real, y: real)
    ensures WithFee(rate, x + y) == WithFee(rate, x) + WithFee(rate, y)
  {
  }

  lemma SaleAverages(rate: real, q: real, average: real, cost: real, sold: real)
    requires q > 0.0 && cost == WithFee(rate, Gross(average, q))
    ensures cost - cost / q * sold == WithFee(rate, Gross(average, q - sold))
  {
    var unit := WithFee(rate, average);
    UnitCost(rate, average, q);
    UnitCost(rate, average, q - sold);
    QuotientOfProduct(unit, q);
    DifferenceTimes(q, sold, unit);
  }

  lemma UnitCost(rate: real, average: real, q: real)
    ensures WithFee(rate, Gross(average, q)) == q * WithFee(rate, average)
  {
    assert average * q * rate == q * (average * rate);
  }

  lemma QuotientOfProduct(x: real, q: real)
    requires q != 0.0
    ensures q * x / q == x
  {
  }

  /** The open cost of one position at its average price, fee included. */
  function OpenCost(rate: real, p: Position): real { WithFee(rate, Gross(p.avgPrice, p.quantity)) }

  /** Only one symbol has to be looked at when only one changes. */
  lemma OthersAveraged(rate: real, a: State, b: State, l: Ledger, m: Ledger, s: string)
    requires Averaged(rate, a, l) && m.lots - {s} == l.lots - {s} && b.positions - {s} == a.positions - {s}
    requires s in m.lots && s in b.positions ==> m.lots[s].cost == OpenCost(rate, b.positions[s])
    ensures Averaged(rate, b, m)
  {
    forall k | k in m.lots && k in b.positions ensures m.lots[k].cost == OpenCost(rate, b.positions[k]) {
      if k != s {
        assert k in m.lots - {s} && k in l.lots - {s} && k in b.positions - {s} && k in a.positions - {s};
        assert m.lots[k] == (m.lots - {s})[k] == (l.lots - {s})[k];
        assert b.positions[k] == (b.positions - {s})[k] == (a.positions - {s})[k];
      }
    }
  }

  lemma BuyKeepsAverages(initial: real, rate: real, a: State, b: State, t: Trade, l: Ledger)
    requires Agree(initial, a, l) && Averaged(rate, a, l) && Booked(a, b, t)
    requires t.side == Buy && t.commission == Fee(t.price, t.quantity, rate)
    ensures Averaged(rate, b, Enter(l, t))
  {
    var s := t.symbol;
    var pos := if s in a.positions then a.positions[s] else Position(0.0, 0.0);
    var lot := LotOf(l.lots, s);
    assert lot.cost == OpenCost(rate, pos);
    BuyAverages(rate, pos.quantity, pos.avgPrice, t.price, t.quantity, t.commission);
    BoughtAverages(rate, pos, lot, t);
    OthersAveraged(rate, a, b, l, Enter(l, t), s);
  }

  lemma BoughtAverages(rate: real, pos: Position, lot: Lot, t: Trade)
    requires lot.cost == OpenCost(rate, pos) && pos.quantity >= 0.0 && t.quantity > 0.0
    requires t.commission == Fee(t.price, t.quantity, rate)
    ensures Bought(lot, t).cost
            == OpenCost(rate, Position(pos.quantity + t.quantity, AveragePrice(pos, t.quantity, t.price)))
  {
    BuyAverages(rate, pos.quantity, pos.avgPrice, t.price, t.quantity, t.commission);
  }

  lemma SoldAverages(rate: real, pos: Position, lot: Lot, t: Trade)
    requires lot.cost == OpenCost(rate, pos) && lot.quantity == pos.quantity > 0.0 && 0.0 < t.quantity <= pos.quantity
    ensures Reduced(lot, t).cost == OpenCost(rate, Position(pos.quantity - t.quantity, pos.avgPrice))
  {
    SaleAverages(rate, pos.quantity, pos.avgPrice, lot.cost, t.quantity);
  }

  lemma SaleKeepsAverages(initial: real, rate: real, a: State, b: State, t: Trade, l: Ledger)
    requires Agree(initial, a, l) && Averaged(rate, a, l) && Booked(a, b, t) && t.side == Sell
    ensures Averaged(rate, b, Enter(l, t))
  {
    var s := t.symbol;
    SoldAverages(rate, a.positions[s], l.lots[s], t);
    OthersAveraged(rate, a, b, l, Enter(l, t), s);
  }

  /** Both ledgers in agreement, down to the average price. */
  ghost predicate Reconciled(env: Env, st: State)
  {
    Balanced(env.cfg.initialBalance, st) && Averaged(env.cfg.buyRate, st, Entered(st.trades))
  }

  lemma AttemptReconciles(env: Env, st: State, ts: int, sig: Signal)
    requires Reconciled(env, st)
    ensures Reconciled(env, Attempt(env, st, ts, sig).st)
  {
    var a := Attempt(env, st, ts, sig);
    AttemptBooks(env, st, ts, sig);
    AttemptAgrees(env.cfg.initialBalance, env, st, ts, sig);
    if a.filled {
      var t := a.st.trades[|a.st.trades| - 1];
      EnteredAppend(st.trades, t);
      if t.side == Buy {
        BuyFee(env, st, ts, sig);
        BuyKeepsAverages(env.cfg.initialBalance, env.cfg.buyRate, st, a.st, t, Entered(st.trades));
      } else {
        SaleKeepsAverages(env.cfg.initialBalance, env.cfg.buyRate, st, a.st, t, Entered(st.trades));
      }
    }
  }

  lemma BuyFee(env: Env, st: State, ts: int, sig: Signal)
    ensures var a := Attempt(env, st, ts, sig);
            a.filled && a.st.trades[|a.st.trades| - 1].side == Buy ==>
              var t := a.st.trades[|a.st.trades| - 1]; t.commission == Fee(t.price, t.quantity, env.cfg.buyRate)
  {
  }

  lemma SameReconciled(env: Env, a: State, b: State)
    requires Reconciled(env, a) && b.balance == a.balance && b.positions == a.positions && b.trades == a.trades
    ensures Reconciled(env, b)
  {
    SameBooks(env.cfg.initialBalance, a, b);
  }

  lemma TradingReconciles(env: Env, st: State, ts: int)
    requires Reconciled(env, Observe(env, st, ts))
    ensures Reconciled(env, Trading(env, st, ts))
  {
    var rel := (a: State, b: State) => Reconciled(env, a) ==> Reconciled(env, b);
    forall a, sig ensures rel(a, Attempt(env, a, ts, sig).st) {
      if Reconciled(env, a) { AttemptReconciles(env, a, ts, sig); }
    }
    TradingRespects(env, st, ts, rel);
    assert rel(Observe(env, st, ts), Trading(env, st, ts));
  }

  /** After every step of every run, the open cost in the trade-log ledger is each position's quantity times its
      average price, plus the buying fee on that. */
  lemma {:induction false} AveragesAgree(env: Env, n: nat)
    requires n <= |Timeline(env.cache)|
    ensures Reconciled(env, After(env, n))
  {
    if n == 0 {
      assert CostBasis(map[]) == map[];
    } else {
      AveragesAgree(env, n - 1);
      var ts, before := Timeline(env.cache)[n - 1], After(env, n - 1);
      SameReconciled(env, before, Observe(env, before, ts));
      TradingReconciles(env, before, ts);
      SameReconciled(env, Trading(env, before, ts), After(env, n));
    }
  }

  // ---------------------------------------------------------------- the counting metrics

  function Winning(pnl: seq<real>): seq<real>
  {
    if pnl == [] then []
    else Winning(pnl[..|pnl| - 1]) + (if pnl[|pnl| - 1] > 0.0 then [pnl[|pnl| - 1]] else [])
  }

  function Losing(pnl: seq<real>): seq<real>
  {
    if pnl == [] then []
    else Losing(pnl[..|pnl| - 1]) + (if pnl[|pnl| - 1] < 0.0 then [pnl[|pnl| - 1]] else [])
  }

  datatype Counts = Counts(totalTrades: nat, winningTrades: nat, losingTrades: nat,
                           totalProfit: real, totalLoss: real, winRate: real)

  function CountingMetrics(trades: seq<Trade>): Counts
  {
    var pnl := Entered(trades).pnl;
    var wins, losses := Winning(pnl), Losing(pnl);
    var total := Sales(trades);
    Counts(total, |wins|, |losses|, Total(wins), Abs(Total(losses)), WinRate(|wins|, total))
  }

  function WinRate(wins: nat, total: nat): real
  {
    if total > 0 then wins as real / total as real * 100.0 else 0.0
  }

  lemma {:induction false} WinsAndLosses(pnl: seq<real>)
    ensures |Winning(pnl)| + |Losing(pnl)| <= |pnl|
    ensures Total(Winning(pnl)) + Total(Losing(pnl)) == Total(pnl)
    ensures Total(Winning(pnl)) >= 0.0 && Total(Losing(pnl)) <= 0.0
  {
    if pnl != [] {
      var init, last := pnl[..|pnl| - 1], pnl[|pnl| - 1];
      WinsAndLosses(init);
      TotalAppend(Winning(init), last);
      TotalAppend(Losing(init), last);
      assert Winning(init) + [] == Winning(init) && Losing(init) + [] == Losing(init);
    }
  }

  function CountOf(pnl: seq<real>, x: real): nat
  {
    if pnl == [] then 0 else CountOf(pnl[..|pnl| - 1], x) + (if pnl[|pnl| - 1] == x then 1 else 0)
  }

  lemma CountAppend(pnl: seq<real>, y: real, x: real)
    ensures CountOf(pnl + [y], x) == CountOf(pnl, x) + (if y == x then 1 else 0)
  {
    assert (pnl + [y])[..|pnl|] == pnl;
  }

  /** Sales at a profit are counted as won, as often as they occur, and no others are. */
  lemma {:induction false} WonAreProfits(pnl: seq<real>, x: real)
    ensures CountOf(Winning(pnl), x) == if x > 0.0 then CountOf(pnl, x) else 0
  {
    if pnl != [] {
      WonAreProfits(pnl[..|pnl| - 1], x);
      var won := Winning(pnl[..|pnl| - 1]);
      assert won + [] == won;
      CountAppend(won, pnl[|pnl| - 1], x);
    }
  }

  /** Sales at a loss are counted as lost, as often as they occur, and no others are. */
  lemma {:induction false} LostAreLosses(pnl: seq<real>, x: real)
    ensures CountOf(Losing(pnl), x) == if x < 0.0 then CountOf(pnl, x) else 0
  {
    if pnl != [] {
      LostAreLosses(pnl[..|pnl| - 1], x);
      var lost := Losing(pnl[..|pnl| - 1]);
      assert lost + [] == lost;
      CountAppend(lost, pnl[|pnl| - 1], x);
    }
  }

  /** The win rate is the share of sales that were won, in percent. */
  lemma WinRateIs(trades: seq<Trade>)
    ensures var c := CountingMetrics(trades);
            && c.totalTrades == Sales(trades) && c.winningTrades == |Winning(Entered(trades).pnl)|
            && c.losingTrades == |Losing(Entered(trades).pnl)|
            && IsShare(c.winRate, c.winningTrades, c.totalTrades)
  {
    WinRateShare(|Winning(Entered(trades).pnl)|, Sales(trades));
  }

  /** `rate` percent of the whole is the part. */
  ghost predicate IsShare(rate: real, part: nat, whole: nat)
  {
    if whole > 0 then rate * whole as real == 100.0 * part as real else rate == 0.0
  }

  lemma WinRateShare(wins: nat, total: nat)
    ensures IsShare(WinRate(wins, total), wins, total)
  {
    if total > 0 { Percentage(wins as real, total as real); }
  }

  lemma Percentage(part: real, whole: real)
    requires whole != 0.0
    ensures part / whole * 100.0 * whole == 100.0 * part
  {
    assert part / whole * whole == part;
  }

  /** On the trades of any run the win rate is a percentage, and profit minus loss is the realised total. */
  lemma {:induction false} CountsAreConsistent(env: Env, n: nat)
    requires n <= |Timeline(env.cache)|
    ensures var c := CountingMetrics(After(env, n).trades);
            && c.winningTrades + c.losingTrades <= c.totalTrades
            && 0.0 <= c.winRate <= 100.0
            && c.totalProfit - c.totalLoss == Total(Entered(After(env, n).trades).pnl)
  {
    var trades := After(env, n).trades;
    LedgersAgree(env, n);
    WinsAndLosses(Entered(trades).pnl);
    Ratio(|Winning(Entered(trades).pnl)|, Sales(trades));
  }

  lemma Ratio(part: nat, whole: nat)
    requires part <= whole
    ensures 0.0 <= WinRate(part, whole) <= 100.0
  {
    if whole > 0 { assert 0.0 <= part as real / whole as real <= 1.0; }
  }
}
