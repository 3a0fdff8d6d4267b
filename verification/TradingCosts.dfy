/** Which rates keep trading costly and cash non-negative, over every run of every strategy on every data. */
module TradingCosts {
  import opened Collections
  import opened DataProviders
  import opened Backtest
  import opened BacktestProofs

  /** What the service checks of a configuration before a run. */
  predicate Accepted(cfg: Config)
  {
    cfg.initialBalance > 0.0 && cfg.buyRate >= 0.0 && cfg.sellRate >= 0.0 && cfg.slippage >= 0.0
  }

  /** `n` steps of a run the service can start on this configuration. */
  ghost predicate RunOf(cfg: Config, env: Env, n: nat)
  {
    env.cfg == cfg && Sound(env) && Loaded(cfg, env.cache) && n <= |Timeline(env.cache)|
  }

  /** Without a universe nothing is loaded, and no step is taken. */
  lemma NoUniverseNoRun(cfg: Config, env: Env, n: nat)
    requires RunOf(cfg, env, n) && cfg.universe == {}
    ensures n == 0 && After(env, n) == InitialState(cfg)
  {
    NoData();
  }

  // ---------------------------------------------------------------- trading is never rewarded

  predicate Frictional(cfg: Config) { (1.0 - cfg.slippage) * (1.0 - cfg.sellRate) <= 1.0 }

  ghost predicate AllCostly(trades: seq<Trade>) { forall k :: 0 <= k < |trades| ==> Cost(trades[k]) >= 0.0 }

  /** In no run does any trade raise equity at the marks it is made at. */
  ghost predicate NeverRewarded(cfg: Config)
  {
    forall env, n: nat :: RunOf(cfg, env, n) ==> AllCostly(After(env, n).trades)
  }

  /** (p - x) + x r is linear in x, so its sign on [p (1 - s), p] is decided at the two ends. */
  lemma SellCostSign(bar: real, x: real, s: real, r: real)
    requires bar > 0.0 && s >= 0.0 && r >= 0.0 && (1.0 - s) * (1.0 - r) <= 1.0
    requires bar * (1.0 - s) <= x <= bar
    ensures bar - x + x * r >= 0.0
  {
    if r <= 1.0 {
      ProductNotNegative(bar - x, 1.0 - r);
      ProductNotNegative(bar, r);
      Blend(bar, x, r);
    } else {
      ProductNotNegative(x - bar * (1.0 - s), r - 1.0);
      ProductNotNegative(bar, 1.0 - (1.0 - s) * (1.0 - r));
      HighFee(bar, x, s, r);
    }
  }

  lemma Blend(bar: real, x: real, r: real)
    ensures (bar - x) * (1.0 - r) + bar * r == bar - x + x * r
  {
  }

  lemma HighFee(bar: real, x: real, s: real, r: real)
    ensures (x - bar * (1.0 - s)) * (r - 1.0) + bar * (1.0 - (1.0 - s) * (1.0 - r)) == bar - x + x * r
  {
  }

  lemma SellDealCost(bar: real, x: real, q: real, r: real)
    requires q > 0.0 && x <= bar && bar - x + x * r >= 0.0
    ensures Abs(x - bar) * q + x * q * r >= 0.0
  {
    ProductNotNegative(bar - x + x * r, q);
    SpreadOut(bar - x, x, q, r);
  }

  lemma SpreadOut(d: real, x: real, q: real, r: real)
    ensures (d + x * r) * q == d * q + x * q * r
  {
  }

  lemma BuyDealCost(bar: real, x: real, q: real, r: real)
    requires q > 0.0 && 0.0 < bar <= x && r >= 0.0
    ensures Abs(x - bar) * q + x * q * r >= 0.0
  {
    ProductNotNegative(x - bar, q);
    ProductNotNegative(x, q);
    ProductNotNegative(x * q, r);
  }

  lemma AuditedCosts(env: Env, t: Trade)
    requires Accepted(env.cfg) && Frictional(env.cfg) && Sound(env) && Audited(env, t)
    ensures Cost(t) >= 0.0
  {
    BarIsPositive(env, t.symbol, t.ts);
    var bar := BarPrice(env, t.symbol, t.ts).value;
    if t.side == Buy {
      BuyDealCost(bar, t.price, t.quantity, env.cfg.buyRate);
    } else {
      SellCostSign(bar, t.price, env.cfg.slippage, env.cfg.sellRate);
      SellDealCost(bar, t.price, t.quantity, env.cfg.sellRate);
    }
  }

  lemma RunIsCostly(env: Env, n: nat)
    requires Accepted(env.cfg) && Frictional(env.cfg) && RunOf(env.cfg, env, n)
    ensures AllCostly(After(env, n).trades)
  {
    RunAudited(env, n);
    var trades := After(env, n).trades;
    forall k | 0 <= k < |trades| ensures Cost(trades[k]) >= 0.0 {
      AuditedCosts(env, trades[k]);
    }
  }

  /** Over all runs the service can start, no trade is ever rewarded exactly when (1 - slippage)(1 - sell rate) does
      not exceed 1, or there is nothing to trade. */
  lemma TradingNeverRaisesEquityIff(cfg: Config)
    requires Accepted(cfg)
    ensures NeverRewarded(cfg) <==> cfg.universe == {} || Frictional(cfg)
  {
    if cfg.universe == {} {
      forall env, n: nat | RunOf(cfg, env, n) ensures AllCostly(After(env, n).trades) {
        NoUniverseNoRun(cfg, env, n);
      }
    } else if Frictional(cfg) {
      forall env, n: nat | RunOf(cfg, env, n) ensures AllCostly(After(env, n).trades) {
        RunIsCostly(env, n);
      }
    } else {
      RewardedSale(cfg);
      var env := ThereAndBack(cfg, Sale(cfg, Market));
      assert RunOf(cfg, env, 1) && !AllCostly(After(env, 1).trades);
    }
  }

  // ---------------------------------------------------------------- cash is never overdrawn

  /** Selling always brings in cash: no fee above the price, and no slippage that turns the price negative. */
  predicate Solvent(cfg: Config)
  {
    cfg.sellRate == 1.0 || (cfg.sellRate < 1.0 && cfg.slippage <= 1.0)
  }

  /** In no run is the balance ever below zero. */
  ghost predicate NeverOverdrawn(cfg: Config)
  {
    forall env, n: nat :: RunOf(cfg, env, n) ==> After(env, n).balance >= 0.0
  }

  lemma SellProceeds(x: real, q: real, r: real)
    requires q > 0.0 && (r == 1.0 || (r < 1.0 && x >= 0.0))
    ensures Gross(x, q) - Fee(x, q, r) >= 0.0
  {
    if r < 1.0 {
      ProductNotNegative(x, q);
      ProductNotNegative(x * q, 1.0 - r);
      Kept(x * q, r);
    }
  }

  lemma Kept(x: real, r: real)
    ensures x * (1.0 - r) == x - x * r
  {
  }

  lemma SellPriceNotNegative(cfg: Config, sig: Signal, bar: real)
    requires 0.0 <= cfg.slippage <= 1.0 && bar > 0.0 && sig.side == Sell && OrderTriggered(sig, bar)
    ensures ApplySlippageCap(cfg, sig, bar, Sell) >= 0.0
  {
    FillNeverBeatsBar(cfg, sig, bar);
    ProductNotNegative(bar, 1.0 - cfg.slippage);
  }

  /** A sale of a solvent configuration brings in no less than nothing. */
  lemma SaleNeverOverdraws(balance: real, wanted: real, held: real, price: real, rate: real)
    requires balance >= 0.0 && wanted > 0.0 && SellDeal(balance, wanted, held, price, rate).Some?
    requires rate == 1.0 || (rate < 1.0 && price >= 0.0)
    ensures SellDeal(balance, wanted, held, price, rate).value.balance >= 0.0
  {
    var q := SellDeal(balance, wanted, held, price, rate).value.quantity;
    SellProceeds(price, q, rate);
    assert SellDeal(balance, wanted, held, price, rate).value.balance
        == balance + (Gross(price, q) - Fee(price, q, rate));
  }

  lemma DealNeverOverdraws(cfg: Config, st: State, sig: Signal, bar: real)
    requires cfg.buyRate >= 0.0 && cfg.sellRate >= 0.0 && cfg.slippage >= 0.0 && Solvent(cfg)
    requires bar > 0.0 && Admissible(cfg, sig) && OrderTriggered(sig, bar) && DealAt(cfg, st, sig, bar).Some?
    requires st.balance >= 0.0
    ensures DealAt(cfg, st, sig, bar).value.balance >= 0.0
  {
    if sig.side == Sell {
      if cfg.sellRate < 1.0 { SellPriceNotNegative(cfg, sig, bar); }
      var price := ApplySlippageCap(cfg, sig, bar, Sell);
      SaleNeverOverdraws(st.balance, sig.quantity.q, Held(st.positions, sig.symbol), price, cfg.sellRate);
    }
  }

  lemma AttemptSolvent(env: Env, a: State, ts: int, sig: Signal)
    requires Sound(env) && Solvent(env.cfg) && a.balance >= 0.0
    ensures Attempt(env, a, ts, sig).st.balance >= 0.0
  {
    var done := ExecuteSignal(env, a, ts, sig);
    if done.fill.Some? {
      BarIsPositive(env, sig.symbol, ts);
      DealNeverOverdraws(env.cfg, a, sig, BarPrice(env, sig.symbol, ts).value);
    }
  }

  /** Throughout a run of a solvent configuration, cash stays non-negative and every holding positive. */
  lemma {:induction false} RunSolvent(env: Env, n: nat)
    requires Sound(env) && Solvent(env.cfg) && env.cfg.initialBalance >= 0.0 && n <= |Timeline(env.cache)|
    ensures After(env, n).balance >= 0.0 && AllHeld(After(env, n).positions)
  {
    if n > 0 {
      RunSolvent(env, n - 1);
      var ts := Timeline(env.cache)[n - 1];
      var before := After(env, n - 1);
      var rel := (a: State, b: State) => a.balance >= 0.0 ==> b.balance >= 0.0;
      forall a, sig ensures rel(a, Attempt(env, a, ts, sig).st) {
        if a.balance >= 0.0 { AttemptSolvent(env, a, ts, sig); }
      }
      TradingRespects(env, before, ts, rel);
      assert rel(Observe(env, before, ts), Trading(env, before, ts));
      StepAttribution(env, before, ts);
      assert After(env, n) == Step(env, before, ts);
    }
  }

  /** Over all runs the service can start, cash is never driven below zero exactly when the configuration is solvent,
      or there is nothing to trade. */
  lemma CashNeverNegativeIff(cfg: Config)
    requires Accepted(cfg)
    ensures NeverOverdrawn(cfg) <==> cfg.universe == {} || Solvent(cfg)
  {
    if cfg.universe == {} {
      forall env, n: nat | RunOf(cfg, env, n) ensures After(env, n).balance >= 0.0 {
        NoUniverseNoRun(cfg, env, n);
      }
    } else if Solvent(cfg) {
      forall env, n: nat | RunOf(cfg, env, n) ensures After(env, n).balance >= 0.0 {
        RunSolvent(env, n);
      }
    } else {
      InsolventSale(cfg);
      var env := ThereAndBack(cfg, RuinousSale(cfg));
      assert RunOf(cfg, env, 1) && After(env, 1).balance < 0.0;
    }
  }

  // ---------------------------------------------------------------- the run that shows it: all in, and out again

  /** A symbol of the universe. */
  ghost function Listed(cfg: Config): (s: string)
    requires cfg.universe != {}
    ensures s in cfg.universe
  {
    Pick(cfg.universe)
  }

  /** What the whole initial balance buys at a close of 1. */
  function AllIn(cfg: Config): real
    requires Accepted(cfg)
  {
    cfg.initialBalance / ((1.0 + cfg.slippage) * (1.0 + cfg.buyRate))
  }

  ghost function Purchase(cfg: Config): Signal
    requires Accepted(cfg) && cfg.universe != {}
  {
    Signal(Listed(cfg), Buy, Finite(AllIn(cfg)), Market, None, None, "")
  }

  /** Everything sold again, at the market or for no less than the close. */
  ghost function Sale(cfg: Config, kind: OrderType): Signal
    requires Accepted(cfg) && cfg.universe != {}
  {
    Signal(Listed(cfg), Sell, Finite(AllIn(cfg)), kind, Some(1.0), None, "")
  }

  ghost function SalePrice(cfg: Config, kind: OrderType): real
    requires Accepted(cfg) && cfg.universe != {}
  {
    ApplySlippageCap(cfg, Sale(cfg, kind), 1.0, Sell)
  }

  /** What the trade log books of that sale, and what it brings in. */
  ghost function SaleCost(cfg: Config, kind: OrderType): real
    requires Accepted(cfg) && cfg.universe != {}
  {
    Slipped(SalePrice(cfg, kind), 1.0, AllIn(cfg)) + Fee(SalePrice(cfg, kind), AllIn(cfg), cfg.sellRate)
  }

  ghost function SaleProceeds(cfg: Config, kind: OrderType): real
    requires Accepted(cfg) && cfg.universe != {}
  {
    Gross(SalePrice(cfg, kind), AllIn(cfg)) - Fee(SalePrice(cfg, kind), AllIn(cfg), cfg.sellRate)
  }

  ghost function RuinousSale(cfg: Config): Signal
    requires Accepted(cfg) && cfg.universe != {}
  {
    Sale(cfg, if cfg.sellRate > 1.0 then Limit else Market)
  }

  /** One bar closing at 1 of one symbol and no data of the others. */
  ghost function OneClose(cfg: Config, symbol: string): Cache
  {
    map k | k in Keys(cfg) :: if k.symbol == symbol then [Row(0, 1.0, 1.0, 1.0, 1.0, 0.0)] else []
  }

  function Keys(cfg: Config): set<Key> { set s | s in cfg.universe :: Key(s, cfg.timeframe) }

  /** On these data the strategy buys and sells at the first instant and never answers a fill. */
  ghost function ThereAndBack(cfg: Config, sale: Signal): Env
    requires Accepted(cfg) && cfg.universe != {}
  {
    var orders := [Purchase(cfg), sale];
    Env(cfg, OneClose(cfg, Listed(cfg)), (log: seq<Observed>) => if |log| == 1 then orders else [])
  }

  lemma OneBar(cfg: Config, sale: Signal)
    requires Accepted(cfg) && cfg.universe != {}
    ensures var env := ThereAndBack(cfg, sale);
            && Sound(env) && Loaded(cfg, env.cache) && Timeline(env.cache) == [0]
            && BarPrice(env, Listed(cfg), 0) == Some(1.0)
  {
    var env := ThereAndBack(cfg, sale);
    var key := Key(Listed(cfg), cfg.timeframe);
    var rows := env.cache[key];
    assert Stamps(rows) == {0} by { assert rows[0].ts in Stamps(rows); }
    assert AllStamps(env.cache) == {0} by {
      assert key in env.cache && 0 in Stamps(env.cache[key]);
      forall k | k in env.cache ensures Stamps(env.cache[k]) <= {0} { }
    }
    SortedSpec({0});
    assert Sorted({0}) == [0] by { AscendingUnique(Sorted({0}), [0]); }
    MatchingIsRow(rows, 0, 0);
  }

  lemma AllInPays(cfg: Config)
    requires Accepted(cfg)
    ensures AllIn(cfg) > 0.0
    ensures var price := 1.0 * (1.0 + cfg.slippage);
            Gross(price, AllIn(cfg)) + Fee(price, AllIn(cfg), cfg.buyRate) == cfg.initialBalance
  {
    var unit := (1.0 + cfg.slippage) * (1.0 + cfg.buyRate);
    assert unit > 0.0;
    assert AllIn(cfg) * unit == cfg.initialBalance;
    assert AllIn(cfg) * unit == (1.0 + cfg.slippage) * AllIn(cfg) * (1.0 + cfg.buyRate);
  }

  /** The purchase spends the balance to the last unit and the sale disposes of the whole holding. */
  lemma ThereAndBackTrades(cfg: Config, kind: OrderType)
    requires Accepted(cfg) && cfg.universe != {} && kind in {Market, Limit}
    ensures var sale := Sale(cfg, kind);
            var env := ThereAndBack(cfg, sale);
            && RunOf(cfg, env, 1) && |After(env, 1).trades| == 2
            && Cost(After(env, 1).trades[1]) == SaleCost(cfg, kind)
            && After(env, 1).balance == SaleProceeds(cfg, kind)
  {
    var sale := Sale(cfg, kind);
    var env := ThereAndBack(cfg, sale);
    OneBar(cfg, sale);
    AllInPays(cfg);
    var seen := Observe(env, InitialState(cfg), 0);
    var orders := [Purchase(cfg), sale];
    assert env.decide(seen.log) == orders;
    var bought := Attempt(env, seen, 0, Purchase(cfg));
    PurchaseFills(env, cfg, seen, kind);
    SaleFills(env, cfg, bought.st, kind);
    TwoOrders(env, seen, orders);
    assert After(env, 0) == InitialState(cfg);
    assert After(env, 1) == Step(env, InitialState(cfg), 0);
  }

  lemma PurchaseFills(env: Env, cfg: Config, st: State, kind: OrderType)
    requires Accepted(cfg) && cfg.universe != {} && env == ThereAndBack(cfg, Sale(cfg, kind))
    requires st.balance == cfg.initialBalance && st.positions == map[] && st.trades == [] && |st.log| == 1
    ensures var bought := Attempt(env, st, 0, Purchase(cfg));
            && bought.replies == [] && bought.st.balance == 0.0 && |bought.st.trades| == 1 && |bought.st.log| == 2
            && Held(bought.st.positions, Listed(cfg)) == AllIn(cfg)
  {
    OneBar(cfg, Sale(cfg, kind));
    AllInPays(cfg);
  }

  lemma SaleFills(env: Env, cfg: Config, st: State, kind: OrderType)
    requires Accepted(cfg) && cfg.universe != {} && kind in {Market, Limit} && env == ThereAndBack(cfg, Sale(cfg, kind))
    requires st.balance == 0.0 && |st.trades| == 1 && |st.log| == 2
    requires Held(st.positions, Listed(cfg)) == AllIn(cfg)
    ensures var sold := Attempt(env, st, 0, Sale(cfg, kind));
            && sold.replies == [] && |sold.st.trades| == 2
            && Cost(sold.st.trades[1]) == SaleCost(cfg, kind) && sold.st.balance == SaleProceeds(cfg, kind)
  {
    OneBar(cfg, Sale(cfg, kind));
    AllInPays(cfg);
  }

  lemma TwoOrders(env: Env, seen: State, orders: seq<Signal>)
    requires |orders| == 2 && env.decide(seen.log) == orders
    requires var first := Attempt(env, seen, 0, orders[0]);
             first.replies == [] && Attempt(env, first.st, 0, orders[1]).replies == []
    requires seen == Observe(env, InitialState(env.cfg), 0)
    ensures Trading(env, InitialState(env.cfg), 0)
         == Attempt(env, Attempt(env, seen, 0, orders[0]).st, 0, orders[1]).st
  {
    assert orders[..1] == [orders[0]] && orders[..1][..0] == [];
    assert StepSignals(env, seen, 0, []) == Phase(seen, []);
    assert StepSignals(env, seen, 0, orders[..1]) == Phase(Attempt(env, seen, 0, orders[0]).st, []);
  }

  lemma RewardedSale(cfg: Config)
    requires Accepted(cfg) && cfg.universe != {} && !Frictional(cfg)
    ensures var env := ThereAndBack(cfg, Sale(cfg, Market));
            RunOf(cfg, env, 1) && |After(env, 1).trades| == 2 && Cost(After(env, 1).trades[1]) < 0.0
  {
    ThereAndBackTrades(cfg, Market);
    MarketSaleRewards(cfg);
  }

  lemma MarketSaleRewards(cfg: Config)
    requires Accepted(cfg) && cfg.universe != {} && !Frictional(cfg)
    ensures SaleCost(cfg, Market) < 0.0
  {
    AllInPays(cfg);
    assert SalePrice(cfg, Market) == 1.0 - cfg.slippage;
    NegativeCost(AllIn(cfg), cfg.slippage, cfg.sellRate);
  }

  lemma NegativeCost(q: real, s: real, r: real)
    requires q > 0.0 && s >= 0.0 && (1.0 - s) * (1.0 - r) > 1.0
    ensures Slipped(1.0 - s, 1.0, q) + Fee(1.0 - s, q, r) < 0.0
  {
    Kept(1.0 - s, r);
    ProductNegative(s + (1.0 - s) * r, q);
    SpreadOut(s, 1.0 - s, q, r);
  }

  lemma InsolventSale(cfg: Config)
    requires Accepted(cfg) && cfg.universe != {} && !Solvent(cfg)
    ensures var env := ThereAndBack(cfg, RuinousSale(cfg));
            RunOf(cfg, env, 1) && After(env, 1).balance < 0.0
  {
    var kind := if cfg.sellRate > 1.0 then Limit else Market;
    ThereAndBackTrades(cfg, kind);
    RuinousProceeds(cfg, kind);
  }

  lemma RuinousProceeds(cfg: Config, kind: OrderType)
    requires Accepted(cfg) && cfg.universe != {} && !Solvent(cfg)
    requires kind == if cfg.sellRate > 1.0 then Limit else Market
    ensures SaleProceeds(cfg, kind) < 0.0
  {
    AllInPays(cfg);
    assert SalePrice(cfg, kind) == if cfg.sellRate > 1.0 then 1.0 else 1.0 - cfg.slippage;
    NegativeProceeds(SalePrice(cfg, kind), AllIn(cfg), cfg.sellRate);
  }

  lemma NegativeProceeds(x: real, q: real, r: real)
    requires q > 0.0 && ((x < 0.0 && r < 1.0) || (x == 1.0 && r > 1.0))
    ensures Gross(x, q) - Fee(x, q, r) < 0.0
  {
    if r < 1.0 { ProductNegative(x, q); ProductNegative(x * q, 1.0 - r); } else { ProductNegative(1.0 - r, q); }
    Kept(x * q, r);
  }

  // ---------------------------------------------------------------- signs of products

  lemma ProductNotNegative(x: real, y: real)
    requires x >= 0.0 && y >= 0.0
    ensures x * y >= 0.0
  {
  }

  lemma ProductNegative(x: real, y: real)
    requires x < 0.0 && y > 0.0
    ensures x * y < 0.0
  {
  }
}
