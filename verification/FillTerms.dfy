/** When exactly a signal fills, at which price and with what effect, written in prices and quantities; and what a
    step records and shows (executor.py). */
module FillTerms {
  import opened Collections
  import opened DataProviders
  import opened Backtest

  // ---------------------------------------------------------------- the bar

  /** A signal can fill at an instant only if its symbol has a row of that very instant, and then at its close. */
  lemma BarIsRow(env: Env, symbol: string, ts: int)
    requires ValidCache(env.cache)
    ensures var key := Key(symbol, env.cfg.timeframe);
            match BarPrice(env, symbol, ts)
            case None => key !in env.cache || forall r :: r in env.cache[key] ==> r.ts != ts
            case Some(close) => key in env.cache && exists r :: r in env.cache[key] && r.ts == ts && r.close == close
  {
    var key := Key(symbol, env.cfg.timeframe);
    if key in env.cache {
      var m := Matching(env.cache[key], ts);
      FilterMembers(env.cache[key], ts);
      if m == [] {
        forall r | r in env.cache[key] ensures r.ts != ts {
          assert r !in m;
        }
      } else {
        assert m[|m| - 1] in m;
      }
    }
  }

  /** A holding is marked at the close of the latest row not after the instant. */
  lemma MarkIsLatestRow(env: Env, symbol: string, ts: int)
    requires ValidCache(env.cache)
    ensures var key := Key(symbol, env.cfg.timeframe);
            match CurrentPrice(env, symbol, ts)
            case None => key !in env.cache || forall r :: r in env.cache[key] ==> ts < r.ts
            case Some(close) =>
              key in env.cache && exists i :: LatestUpTo(env.cache[key], ts, i) && env.cache[key][i].close == close
  {
    var key := Key(symbol, env.cfg.timeframe);
    if key in env.cache {
      var f := env.cache[key];
      VisibleIsPrefix(f, ts);
      var n := |Visible(f, ts)|;
      if n == 0 {
        forall r | r in f ensures ts < r.ts {
          var i :| 0 <= i < |f| && f[i] == r;
        }
      } else {
        assert LatestUpTo(f, ts, n - 1);
      }
    }
  }

  ghost predicate LatestUpTo(f: Frame, ts: int, i: int)
  {
    0 <= i < |f| && f[i].ts <= ts && forall j :: i < j < |f| ==> ts < f[j].ts
  }

  // ---------------------------------------------------------------- when a signal fills

  /** Where the bar must stand: a limit order wants a price no worse than its limit, a stop order one that has reached
      its stop, a stop-limit order both; a missing price never fills. */
  ghost predicate StandsRight(sig: Signal, bar: real)
  {
    && (sig.orderType in {Limit, StopLimit} ==>
          sig.price.Some?
          && (sig.side == Buy ==> bar <= sig.price.value) && (sig.side == Sell ==> sig.price.value <= bar))
    && (sig.orderType in {Stop, StopLimit} ==>
          sig.stopPrice.Some? && (sig.side == Buy ==> sig.stopPrice.value <= bar)
          && (sig.side == Sell ==> bar <= sig.stopPrice.value))
    && sig.orderType in {Market, Limit, Stop, StopLimit}
  }

  function Smaller(x: real, y: real): real { if x < y then x else y }

  function Larger(x: real, y: real): real { if x > y then x else y }

  /** The bar moved against the order by the slippage, but never beyond its limit. */
  function PriceOf(cfg: Config, sig: Signal, bar: real): real
  {
    var slipped := if sig.side == Buy then bar * (1.0 + cfg.slippage) else bar * (1.0 - cfg.slippage);
    if sig.orderType in {Market, Stop} || sig.price.None? then slipped
    else if sig.side == Buy then Smaller(slipped, sig.price.value)
    else Larger(slipped, sig.price.value)
  }

  /** What is exchanged: as much as wanted when buying, at most what is held when selling. */
  function QuantityOf(st: State, sig: Signal): real
    requires sig.quantity.Finite?
  {
    if sig.side == Buy then sig.quantity.q else Smaller(Held(st.positions, sig.symbol), sig.quantity.q)
  }

  /** A buy must be paid for with its fee; a sale needs something to sell. */
  ghost predicate Affordable(cfg: Config, st: State, sig: Signal, bar: real)
    requires sig.quantity.Finite?
  {
    var price := PriceOf(cfg, sig, bar);
    if sig.side == Buy
    then price * sig.quantity.q + price * sig.quantity.q * cfg.buyRate <= st.balance
    else Held(st.positions, sig.symbol) > 0.0
  }

  ghost predicate WellFormed(cfg: Config, sig: Signal)
  {
    && (sig.side == Buy || sig.side == Sell) && sig.quantity.Finite? && sig.quantity.q > 0.0
    && (cfg.universe != {} ==> sig.symbol in cfg.universe)
  }

  /** A signal fills if and only if it is well formed, its symbol has a bar now, the bar stands right to its limit and
      its stop, and cash or holding suffices. */
  lemma FillsIff(env: Env, st: State, ts: int, sig: Signal)
    ensures ExecuteSignal(env, st, ts, sig).fill.Some?
            <==> WellFormed(env.cfg, sig) && BarPrice(env, sig.symbol, ts).Some?
                 && StandsRight(sig, BarPrice(env, sig.symbol, ts).value)
                 && Affordable(env.cfg, st, sig, BarPrice(env, sig.symbol, ts).value)
  {
    if WellFormed(env.cfg, sig) && BarPrice(env, sig.symbol, ts).Some? {
      var bar := BarPrice(env, sig.symbol, ts).value;
      TriggerIsStanding(sig, bar);
      if StandsRight(sig, bar) { DealIff(env.cfg, st, sig, bar); }
    }
  }

  /** A deal is made exactly if it is affordable, and these are its terms. */
  lemma DealIff(cfg: Config, st: State, sig: Signal, bar: real)
    requires WellFormed(cfg, sig) && StandsRight(sig, bar)
    ensures DealAt(cfg, st, sig, bar).Some? <==> Affordable(cfg, st, sig, bar)
    ensures DealAt(cfg, st, sig, bar).Some? ==>
              var price, q := PriceOf(cfg, sig, bar), QuantityOf(st, sig);
              var fee := FeeOf(cfg, sig, price, q);
              DealAt(cfg, st, sig, bar).value
              == Deal(q, price, fee, if sig.side == Buy then st.balance - price * q - fee
                                     else st.balance + price * q - fee)
  {
    CapIsPrice(cfg, sig, bar);
    var price := ApplySlippageCap(cfg, sig, bar, sig.side);
    if sig.side == Buy {
      BuyTerms(st.balance, sig.quantity.q, price, cfg.buyRate);
    } else {
      SellTerms(st.balance, sig.quantity.q, Held(st.positions, sig.symbol), price, cfg.sellRate);
    }
  }

  lemma BuyTerms(balance: real, q: real, price: real, rate: real)
    ensures BuyDeal(balance, q, price, rate).Some? <==> price * q + price * q * rate <= balance
    ensures BuyDeal(balance, q, price, rate).Some? ==>
              BuyDeal(balance, q, price, rate).value
              == Deal(q, price, price * q * rate, balance - price * q - price * q * rate)
  {
  }

  lemma SellTerms(balance: real, wanted: real, held: real, price: real, rate: real)
    requires wanted > 0.0
    ensures SellDeal(balance, wanted, held, price, rate).Some? <==> held > 0.0
    ensures SellDeal(balance, wanted, held, price, rate).Some? ==>
              var q := Smaller(held, wanted);
              SellDeal(balance, wanted, held, price, rate).value
              == Deal(q, price, price * q * rate, balance + price * q - price * q * rate)
  {
  }

  lemma TriggerIsStanding(sig: Signal, bar: real)
    requires sig.side in {Buy, Sell}
    ensures OrderTriggered(sig, bar) <==> StandsRight(sig, bar)
  {
  }

  lemma CapIsPrice(cfg: Config, sig: Signal, bar: real)
    requires sig.side in {Buy, Sell}
    ensures StandsRight(sig, bar) ==> ApplySlippageCap(cfg, sig, bar, sig.side) == PriceOf(cfg, sig, bar)
  {
  }

  // ---------------------------------------------------------------- what a fill does

  /** The fee of a fill and what slippage cost on it. */
  function FeeOf(cfg: Config, sig: Signal, price: real, q: real): real
  {
    price * q * if sig.side == Buy then cfg.buyRate else cfg.sellRate
  }

  function SlipOf(price: real, bar: real, q: real): real
  {
    if price < bar then (bar - price) * q else (price - bar) * q
  }

  /** The whole effect of a fill: cash, holding, the trade on the record and the fill the strategy is told of. */
  lemma FillDoes(env: Env, st: State, ts: int, sig: Signal)
    requires ExecuteSignal(env, st, ts, sig).fill.Some?
    ensures sig.quantity.Finite? && BarPrice(env, sig.symbol, ts).Some?
    ensures var bar := BarPrice(env, sig.symbol, ts).value;
            var done := ExecuteSignal(env, st, ts, sig);
            var price, q := PriceOf(env.cfg, sig, bar), QuantityOf(st, sig);
            var fee := FeeOf(env.cfg, sig, price, q);
            && done.st.balance
               == (if sig.side == Buy then st.balance - price * q - fee else st.balance + price * q - fee)
            && done.st.trades
               == st.trades + [Trade(ts, sig.symbol, sig.side, q, price, fee, SlipOf(price, bar, q), sig.reason)]
            && done.fill == Some(Fill(st.orderSeq + 1, sig.symbol, sig.side, q, price, ts))
            && done.st.orderSeq == st.orderSeq + 1
            && done.st.positions - {sig.symbol} == st.positions - {sig.symbol}
            && (done.st.currentPrices, done.st.curve, done.st.log) == (st.currentPrices, st.curve, st.log)
  {
    FillsIff(env, st, ts, sig);
    var bar := BarPrice(env, sig.symbol, ts).value;
    DealIff(env.cfg, st, sig, bar);
    var d := DealAt(env.cfg, st, sig, bar).value;
    assert ExecuteSignal(env, st, ts, sig) == Record(st, sig, ts, bar, d);
    SlipIs(d.price, bar, d.quantity);
    OneEntryMoves(st.positions, sig.symbol, Delta(sig.side, d.quantity), d.price);
  }

  lemma SlipIs(price: real, bar: real, q: real)
    ensures Slipped(price, bar, q) == SlipOf(price, bar, q)
  {
  }

  lemma OneEntryMoves(positions: map<string, Position>, symbol: string, delta: real, price: real)
    ensures UpdatePosition(positions, symbol, delta, price) - {symbol} == positions - {symbol}
  {
  }

  /** What it does to the holding: a buy averages the cost in, a sale leaves it, and nothing held is no entry. */
  lemma FillMovesHolding(env: Env, st: State, ts: int, sig: Signal)
    requires ExecuteSignal(env, st, ts, sig).fill.Some? && Held(st.positions, sig.symbol) >= 0.0
    ensures sig.quantity.Finite? && BarPrice(env, sig.symbol, ts).Some?
    ensures var price, q := PriceOf(env.cfg, sig, BarPrice(env, sig.symbol, ts).value), QuantityOf(st, sig);
            var before, after := st.positions, ExecuteSignal(env, st, ts, sig).st.positions;
            var s := sig.symbol;
            if sig.side == Buy then
              var cost := if s in before then before[s].quantity * before[s].avgPrice else 0.0;
              && s in after && after[s].quantity == Held(before, s) + q
              && after[s].avgPrice * after[s].quantity == cost + q * price
            else
              && (s in after <==> Held(before, s) > q)
              && (s in after ==> s in before && after[s] == Position(before[s].quantity - q, before[s].avgPrice))
  {
    FillsIff(env, st, ts, sig);
    DealIff(env.cfg, st, sig, BarPrice(env, sig.symbol, ts).value);
    if sig.side == Buy {
      var pos := if sig.symbol in st.positions then st.positions[sig.symbol] else Position(0.0, 0.0);
      Averages(pos, sig.quantity.q, PriceOf(env.cfg, sig, BarPrice(env, sig.symbol, ts).value));
    }
  }

  lemma Averages(pos: Position, q: real, price: real)
    requires pos.quantity >= 0.0 && q > 0.0
    ensures AveragePrice(pos, q, price) * (pos.quantity + q) == pos.quantity * pos.avgPrice + q * price
  {
    Divided(pos.quantity * pos.avgPrice + q * price, pos.quantity + q);
  }

  lemma Divided(x: real, y: real)
    requires y > 0.0
    ensures x / y * y == x
  {
  }

  // ---------------------------------------------------------------- what a step records and shows

  /** A step ends with one more point: its instant, the equity at its marks, and the cash. */
  lemma StepRecords(env: Env, st: State, ts: int)
    ensures var after := Step(env, st, ts);
            && |after.curve| == |Trading(env, st, ts).curve| + 1
            && after.curve[|after.curve| - 1].ts == ts
            && after.curve[|after.curve| - 1].balance == after.balance
            && after.curve[|after.curve| - 1].equity == after.balance + Sum(Priced(env, after.positions, ts))
            && after.curve[..|after.curve| - 1] == Trading(env, st, ts).curve
  {
    var traded := Trading(env, st, ts);
    WorthIsPriced(env, traded.positions, ts);
    assert Step(env, st, ts) == traded.(curve := traded.curve + [Point(ts, Equity(env, traded, ts), traded.balance)]);
  }

  /** Each holding times its price. */
  function Priced(env: Env, positions: map<string, Position>, ts: int): map<string, real>
  {
    map s | s in positions :: positions[s].quantity * PriceOrCost(env, positions[s], s, ts)
  }

  lemma WorthIsPriced(env: Env, positions: map<string, Position>, ts: int)
    ensures WorthAt(positions, s => CurrentPrice(env, s, ts)) == Priced(env, positions, ts)
  {
    var worth := WorthAt(positions, s => CurrentPrice(env, s, ts));
    forall s | s in positions ensures worth[s] == Priced(env, positions, ts)[s] {
      OneIsPriced(env, positions[s], s, ts);
    }
  }

  lemma OneIsPriced(env: Env, pos: Position, symbol: string, ts: int)
    ensures Worth(pos, CurrentPrice(env, symbol, ts)) == pos.quantity * PriceOrCost(env, pos, symbol, ts)
  {
    assert Mark(pos, CurrentPrice(env, symbol, ts)) == PriceOrCost(env, pos, symbol, ts);
  }

  /** The as-of price if there is a positive one, else what the holding cost. */
  function PriceOrCost(env: Env, pos: Position, symbol: string, ts: int): real
  {
    var price := CurrentPrice(env, symbol, ts);
    if price.None? || price.value <= 0.0 then pos.avgPrice else price.value
  }

  /** At the start of a step the strategy is shown the instant, its cash and trades, and of every loaded frame exactly
      the rows up to that instant. */
  lemma StepShows(env: Env, st: State, ts: int)
    requires ValidCache(env.cache)
    ensures var seen := Observe(env, st, ts);
            && |seen.log| == |st.log| + 1 && seen.log[..|st.log|] == st.log && seen.log[|st.log|].StepSeen?
            && var view := seen.log[|st.log|].view;
               && view.ts == ts && view.balance == st.balance && view.trades == st.trades
               && view.rows.Keys == env.cache.Keys
               && forall k :: k in env.cache ==> RowsUpTo(env.cache[k], ts, view.rows[k])
  {
    forall k | k in env.cache ensures RowsUpTo(env.cache[k], ts, Visible(env.cache[k], ts)) {
      VisibleIsPrefix(env.cache[k], ts);
    }
  }

  ghost predicate RowsUpTo(f: Frame, ts: int, rows: Frame)
  {
    && |rows| <= |f| && rows == f[..|rows|]
    && (forall i :: 0 <= i < |rows| ==> f[i].ts <= ts) && (forall i :: |rows| <= i < |f| ==> ts < f[i].ts)
  }

  /** Every fill is shown to the strategy at once, with the account as the fill has left it, and asked for replies; what
      does not fill is not. */
  lemma FillShows(env: Env, st: State, ts: int, sig: Signal)
    ensures var done, tried := ExecuteSignal(env, st, ts, sig), Attempt(env, st, ts, sig);
            && tried.filled == done.fill.Some?
            && (!tried.filled ==> tried.st == st && tried.replies == [])
            && (tried.filled ==>
                  && tried.st.log == st.log + [FillSeen(done.fill.value, tried.st.log[|st.log|].view)]
                  && tried.replies == env.decide(tried.st.log) && tried.st == done.st.(log := tried.st.log)
                  && tried.st.log[|st.log|].view.balance == done.st.balance
                  && tried.st.log[|st.log|].view.trades == done.st.trades
                  && tried.st.log[|st.log|].view.ts == ts
                  && tried.st.log[|st.log|].view.portfolio.Keys == done.st.positions.Keys)
  {
  }
}
