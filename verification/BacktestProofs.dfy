/** What a backtest run guarantees: exact attribution of equity to price moves and costs, and an audited trade log. */
module BacktestProofs {
  import opened Collections
  import opened DataProviders
  import opened Backtest

  // ---------------------------------------------------------------- assumptions on the inputs

  ghost predicate PositiveCloses(c: Cache)
  {
    forall k, r :: k in c && r in c[k] ==> r.close > 0.0
  }

  /** Sorted frames with positive closes, and the rates the service accepts. */
  ghost predicate Sound(env: Env)
  {
    && ValidCache(env.cache) && PositiveCloses(env.cache)
    && env.cfg.buyRate >= 0.0 && env.cfg.sellRate >= 0.0 && env.cfg.slippage >= 0.0
  }

  ghost predicate AllHeld(positions: map<string, Position>)
  {
    forall s :: s in positions ==> positions[s].quantity > 0.0
  }

  lemma BarIsPositive(env: Env, symbol: string, ts: int)
    requires Sound(env) && BarPrice(env, symbol, ts).Some?
    ensures BarPrice(env, symbol, ts).value > 0.0
    ensures CurrentPrice(env, symbol, ts) == BarPrice(env, symbol, ts)
  {
    var f := env.cache[Key(symbol, env.cfg.timeframe)];
    BarIsAsOf(f, ts);
    FilterMembers(f, ts);
    var m := Matching(f, ts);
    assert m[|m| - 1] in m;
  }

  // ---------------------------------------------------------------- profit attribution

  function Cost(t: Trade): real { t.slippage + t.commission }

  function Costs(trades: seq<Trade>): real
  {
    if trades == [] then 0.0 else Costs(trades[..|trades| - 1]) + Cost(trades[|trades| - 1])
  }

  lemma {:induction false} CostsAppend(a: seq<Trade>, b: seq<Trade>)
    ensures Costs(a + b) == Costs(a) + Costs(b)
  {
    if b == [] {
      assert a + b == a;
    } else {
      CostsAppend(a, b[..|b| - 1]);
      assert (a + b)[..|a + b| - 1] == a + b[..|b| - 1];
    }
  }

  /** A triggered order never fills better than its bar: buys at or above it, sells at or below it. */
  lemma FillNeverBeatsBar(cfg: Config, sig: Signal, bar: real)
    requires cfg.slippage >= 0.0 && bar > 0.0
    requires sig.side in {Buy, Sell} && OrderTriggered(sig, bar)
    ensures sig.side == Buy ==> bar <= ApplySlippageCap(cfg, sig, bar, Buy) <= bar * (1.0 + cfg.slippage)
    ensures sig.side == Sell ==> bar * (1.0 - cfg.slippage) <= ApplySlippageCap(cfg, sig, bar, Sell) <= bar
    ensures sig.orderType in {Limit, StopLimit} ==>
              if sig.side == Buy then ApplySlippageCap(cfg, sig, bar, Buy) <= sig.price.value
              else ApplySlippageCap(cfg, sig, bar, Sell) >= sig.price.value
  {
    assert bar * cfg.slippage >= 0.0;
    assert bar * (1.0 + cfg.slippage) == bar + bar * cfg.slippage;
    assert bar * (1.0 - cfg.slippage) == bar - bar * cfg.slippage;
  }

  lemma MarkedAtBar(positions: map<string, Position>, s: string, price: string -> Option<real>, p: real)
    requires price(s) == Some(p) && p > 0.0
    ensures At(WorthAt(positions, price), s) == Held(positions, s) * p
  {
  }

  /** Replacing one holding changes the total worth by that holding's change alone. */
  lemma WorthOfUpdate(before: map<string, Position>, after: map<string, Position>, s: string,
                      price: string -> Option<real>, p: real, gain: real)
    requires before - {s} == after - {s}
    requires price(s) == Some(p) && p > 0.0
    requires Held(after, s) * p == Held(before, s) * p + gain
    ensures Sum(WorthAt(after, price)) - Sum(WorthAt(before, price)) == gain
  {
    var wb, wa := WorthAt(before, price), WorthAt(after, price);
    forall k | k != s ensures k in wb <==> k in wa
                      ensures k in wb ==> wb[k] == wa[k]
    {
      assert k in before <==> k in before - {s};
      assert k in after <==> k in after - {s};
      if k in before { assert before[k] == (before - {s})[k] == (after - {s})[k] == after[k]; }
    }
    SumReplace(wb, wa, s);
    MarkedAtBar(before, s, price, p);
    MarkedAtBar(after, s, price, p);
  }

  lemma Distribute(x: real, y: real, z: real)
    ensures (x + y) * z == x * z + y * z
  {
  }

  lemma UpdatePositionEffect(positions: map<string, Position>, s: string, delta: real, price: real)
    requires delta <= 0.0 ==> Held(positions, s) + delta >= 0.0
    ensures var after := UpdatePosition(positions, s, delta, price);
            after - {s} == positions - {s} && Held(after, s) == Held(positions, s) + delta
            && (AllHeld(positions) ==> AllHeld(after))
  {
  }

  /** A deal at no better than the bar, paid for out of (or into) cash, within what is held. */
  ghost predicate Fair(st: State, sig: Signal, bar: real, d: Deal)
  {
    && d.quantity > 0.0
    && (if sig.side == Buy then bar <= d.price else d.price <= bar)
    && d.balance == (if sig.side == Buy then st.balance - (d.price * d.quantity + d.commission)
                     else st.balance + (d.price * d.quantity - d.commission))
    && (sig.side != Buy ==> d.quantity <= Held(st.positions, sig.symbol))
  }

  lemma DealIsFair(cfg: Config, st: State, sig: Signal, bar: real)
    requires cfg.slippage >= 0.0 && bar > 0.0
    requires Admissible(cfg, sig) && OrderTriggered(sig, bar) && DealAt(cfg, st, sig, bar).Some?
    ensures Fair(st, sig, bar, DealAt(cfg, st, sig, bar).value)
  {
    FillNeverBeatsBar(cfg, sig, bar);
  }

  /** What a fair deal does to cash, plus the worth at the bar of what it exchanges, is minus its cost. */
  lemma FairDealCosts(st: State, sig: Signal, bar: real, d: Deal)
    requires Fair(st, sig, bar, d)
    ensures d.balance - st.balance + Delta(sig.side, d.quantity) * bar
         == -(Slipped(d.price, bar, d.quantity) + d.commission)
  {
    assert (d.price - bar) * d.quantity == d.price * d.quantity - bar * d.quantity;
    assert (bar - d.price) * d.quantity == bar * d.quantity - d.price * d.quantity;
  }

  lemma CostsOfOne(t: Trade)
    ensures Costs([t]) == Cost(t)
  {
    assert [t][..0] == [];
    assert Costs([]) == 0.0;
  }

  /** One signal, filled or not, lowers equity by exactly the slippage and commission it records. */
  lemma SignalAttribution(env: Env, st: State, ts: int, sig: Signal)
    requires Sound(env)
    ensures var after := ExecuteSignal(env, st, ts, sig).st;
            && |st.trades| <= |after.trades| && after.trades[..|st.trades|] == st.trades
            && Equity(env, after, ts) == Equity(env, st, ts) - Costs(after.trades[|st.trades|..])
            && (AllHeld(st.positions) ==> AllHeld(after.positions))
  {
    var done := ExecuteSignal(env, st, ts, sig);
    if done.fill.None? {
      assert st.trades[|st.trades|..] == [];
    } else {
      var bar := BarPrice(env, sig.symbol, ts).value;
      var d := DealAt(env.cfg, st, sig, bar).value;
      BarIsPositive(env, sig.symbol, ts);
      DealIsFair(env.cfg, st, sig, bar);
      FairDealCosts(st, sig, bar, d);
      RecordAttribution(env, st, ts, sig, bar, d, Delta(sig.side, d.quantity) * bar);
    }
  }

  lemma RecordAttribution(env: Env, st: State, ts: int, sig: Signal, bar: real, d: Deal, gain: real)
    requires CurrentPrice(env, sig.symbol, ts) == Some(bar) && bar > 0.0 && d.quantity > 0.0
    requires sig.side != Buy ==> d.quantity <= Held(st.positions, sig.symbol)
    requires gain == Delta(sig.side, d.quantity) * bar
    requires d.balance - st.balance + gain == -(Slipped(d.price, bar, d.quantity) + d.commission)
    ensures var after := Record(st, sig, ts, bar, d).st;
            && Equity(env, after, ts) == Equity(env, st, ts) - Costs(after.trades[|st.trades|..])
            && (AllHeld(st.positions) ==> AllHeld(after.positions))
  {
    var after := Record(st, sig, ts, bar, d).st;
    var trade := after.trades[|st.trades|];
    var delta := Delta(sig.side, d.quantity);
    CostsOfOne(trade);
    assert after.trades[|st.trades|..] == [trade];
    UpdatePositionEffect(st.positions, sig.symbol, delta, d.price);
    Distribute(Held(st.positions, sig.symbol), delta, bar);
    EquityMoves(env, st, after, ts, sig.symbol, bar, gain);
  }

  /** Equity moves with cash and with the one position that changes. */
  lemma EquityMoves(env: Env, a: State, b: State, ts: int, s: string, bar: real, gain: real)
    requires CurrentPrice(env, s, ts) == Some(bar) && bar > 0.0
    requires b.positions - {s} == a.positions - {s}
    requires Held(b.positions, s) * bar == Held(a.positions, s) * bar + gain
    ensures Equity(env, b, ts) == Equity(env, a, ts) + (b.balance - a.balance) + gain
  {
    WorthOfUpdate(a.positions, b.positions, s, x => CurrentPrice(env, x, ts), bar, gain);
  }

  /** What the strategy is shown at the start of a step adds up: cash and holdings are its equity at that
      instant, which the bookkeeping of the step starts from, and profit is worth less cost. */
  lemma ShownEquity(env: Env, st: State, ts: int)
    ensures var seen := Observe(env, st, ts);
            var view := seen.log[|seen.log| - 1].view;
            && view.balance + ValueOf(view.portfolio) == Equity(env, st, ts)
            && ProfitOf(view.portfolio) == ValueOf(view.portfolio) - CostOf(view.portfolio)
            && view.portfolio.Keys == st.positions.Keys
  {
    var priced := st.(currentPrices := Marks(env, st.positions, ts));
    PortfolioAddsUp(env, priced, ts);
    ProfitIsValueLessCost(priced);
    assert Equity(env, priced, ts) == Equity(env, st, ts);
  }

  // ---------------------------------------------------------------- from one signal to a step

  /** A relation that every attempt respects holds across both phases of a step. */
  ghost predicate Respected(env: Env, ts: int, rel: (State, State) -> bool)
  {
    && (forall a :: rel(a, a))
    && (forall a, b, c :: rel(a, b) && rel(b, c) ==> rel(a, c))
    && (forall a, sig :: rel(a, Attempt(env, a, ts, sig).st))
  }

  lemma {:induction false} StepSignalsRespect(env: Env, st: State, ts: int, signals: seq<Signal>,
                                           rel: (State, State) -> bool)
    requires Respected(env, ts, rel)
    ensures rel(st, StepSignals(env, st, ts, signals).st)
  {
    if signals != [] {
      StepSignalsRespect(env, st, ts, signals[..|signals| - 1], rel);
    }
  }

  lemma {:induction false} FollowUpsRespect(env: Env, st: State, ts: int, queue: seq<Signal>, fills: nat,
                                          rel: (State, State) -> bool)
    requires fills <= MAX_FOLLOW_UP_FILLS && Respected(env, ts, rel)
    ensures rel(st, FollowUps(env, st, ts, queue, fills).st)
    decreases MAX_FOLLOW_UP_FILLS - fills, |queue|
  {
    if queue != [] && fills < MAX_FOLLOW_UP_FILLS {
      var head := Attempt(env, st, ts, queue[0]);
      FollowUpsRespect(env, head.st, ts, queue[1..] + head.replies, if head.filled then fills + 1 else fills, rel);
    }
  }

  lemma {:induction false} TradingRespects(env: Env, st: State, ts: int, rel: (State, State) -> bool)
    requires Respected(env, ts, rel)
    ensures rel(Observe(env, st, ts), Trading(env, st, ts))
  {
    var seen := Observe(env, st, ts);
    var first := StepSignals(env, seen, ts, env.decide(seen.log));
    StepSignalsRespect(env, seen, ts, env.decide(seen.log), rel);
    FollowUpsRespect(env, first.st, ts, first.queue, 0, rel);
  }

  /** `b` is reached from `a` by trading at `ts`, and equity fell by exactly the costs booked on the way. */
  ghost predicate Attributed(env: Env, ts: int, a: State, b: State)
  {
    && |a.trades| <= |b.trades| && b.trades[..|a.trades|] == a.trades
    && Equity(env, b, ts) == Equity(env, a, ts) - Costs(b.trades[|a.trades|..])
    && (AllHeld(a.positions) ==> AllHeld(b.positions))
    && b.curve == a.curve
  }

  lemma AttributedTransitive(env: Env, ts: int, a: State, b: State, c: State)
    requires Attributed(env, ts, a, b) && Attributed(env, ts, b, c)
    ensures Attributed(env, ts, a, c)
  {
    CostsAppend(b.trades[|a.trades|..], c.trades[|b.trades|..]);
    assert c.trades[|a.trades|..] == b.trades[|a.trades|..] + c.trades[|b.trades|..];
    assert c.trades[..|a.trades|] == c.trades[..|b.trades|][..|a.trades|];
  }

  lemma AttemptAttributed(env: Env, a: State, ts: int, sig: Signal)
    requires Sound(env)
    ensures Attributed(env, ts, a, Attempt(env, a, ts, sig).st)
  {
    SignalAttribution(env, a, ts, sig);
    var done := ExecuteSignal(env, a, ts, sig).st;
    var after := Attempt(env, a, ts, sig).st;
    assert after == done.(log := after.log);
  }

  /** Over one step, equity after every fill is equity before them at the same marks, minus the costs of
      exactly the trades of that step. */
  lemma {:induction false} StepAttribution(env: Env, st: State, ts: int)
    requires Sound(env)
    ensures Attributed(env, ts, st, Trading(env, st, ts))
  {
    var rel := (a, b) => Attributed(env, ts, a, b);
    forall a ensures rel(a, a) {
      assert a.trades[|a.trades|..] == [];
    }
    forall a, b, c | rel(a, b) && rel(b, c) ensures rel(a, c) {
      AttributedTransitive(env, ts, a, b, c);
    }
    forall a, sig ensures rel(a, Attempt(env, a, ts, sig).st) {
      AttemptAttributed(env, a, ts, sig);
    }
    TradingRespects(env, st, ts, rel);
    var seen := Observe(env, st, ts);
    assert Attributed(env, ts, st, seen) by { assert seen.trades[|st.trades|..] == []; }
    AttributedTransitive(env, ts, st, seen, Trading(env, st, ts));
  }

  // ---------------------------------------------------------------- attribution over a whole run

  ghost predicate Priced(env: Env, positions: map<string, Position>, ts: int)
  {
    forall s :: s in positions ==> CurrentPrice(env, s, ts).Some?
  }

  lemma AsOfPersists(f: Frame, t: int, u: int)
    requires t <= u && AsOf(f, t).Some?
    ensures AsOf(f, u).Some?
  {
    FilterMembers(f, t);
    FilterMembers(f, u);
    var v := Visible(f, t);
    assert v[0] in v;
    assert v[0] in Visible(f, u);
  }

  lemma AsOfIsPositive(f: Frame, t: int)
    requires AsOf(f, t).Some? && forall r :: r in f ==> r.close > 0.0
    ensures AsOf(f, t).value > 0.0
  {
    FilterMembers(f, t);
    var v := Visible(f, t);
    assert v[|v| - 1] in v;
  }

  lemma AttemptPriced(env: Env, st: State, ts: int, sig: Signal)
    requires Sound(env) && Priced(env, st.positions, ts)
    ensures Priced(env, Attempt(env, st, ts, sig).st.positions, ts)
  {
    var done := ExecuteSignal(env, st, ts, sig);
    if done.fill.Some? {
      BarIsPositive(env, sig.symbol, ts);
    }
  }

  /** Every holding was bought at a bar, and so has an as-of price from then on. */
  lemma {:induction false} StepPriced(env: Env, st: State, ts: int)
    requires Sound(env) && Priced(env, st.positions, ts)
    ensures Priced(env, Trading(env, st, ts).positions, ts)
  {
    var rel := (a: State, b: State) => Priced(env, a.positions, ts) ==> Priced(env, b.positions, ts);
    forall a, sig ensures rel(a, Attempt(env, a, ts, sig).st) {
      if Priced(env, a.positions, ts) { AttemptPriced(env, a, ts, sig); }
    }
    TradingRespects(env, st, ts, rel);
    assert rel(Observe(env, st, ts), Trading(env, st, ts));
  }

  function Moved(env: Env, pos: Position, s: string, t: int, u: int): real
  {
    pos.quantity * (PriceAt(env, s, u) - PriceAt(env, s, t))
  }

  function PriceAt(env: Env, symbol: string, ts: int): real
  {
    var p := CurrentPrice(env, symbol, ts);
    if p.Some? then p.value else 0.0
  }

  /** What the market alone does to a portfolio between two instants. */
  ghost function Drift(env: Env, positions: map<string, Position>, t: int, u: int): real
  {
    Sum(map s | s in positions :: Moved(env, positions[s], s, t, u))
  }

  lemma {:induction false} DriftIsRevaluation(env: Env, st: State, t: int, u: int)
    requires Sound(env) && Priced(env, st.positions, t) && t <= u
    ensures Priced(env, st.positions, u)
    ensures Equity(env, st, u) == Equity(env, st, t) + Drift(env, st.positions, t, u)
  {
    var before := WorthAt(st.positions, s => CurrentPrice(env, s, t));
    var after := WorthAt(st.positions, s => CurrentPrice(env, s, u));
    var moved := map s | s in st.positions :: Moved(env, st.positions[s], s, t, u);
    forall s | s in st.positions
      ensures CurrentPrice(env, s, u).Some? && moved[s] == after[s] - before[s]
    {
      HoldingDrift(env, st.positions[s], s, t, u);
    }
    SumDifference(before, after, moved);
  }

  lemma HoldingDrift(env: Env, pos: Position, s: string, t: int, u: int)
    requires Sound(env) && CurrentPrice(env, s, t).Some? && t <= u
    ensures CurrentPrice(env, s, u).Some?
    ensures Moved(env, pos, s, t, u) == Worth(pos, CurrentPrice(env, s, u)) - Worth(pos, CurrentPrice(env, s, t))
  {
    var f := env.cache[Key(s, env.cfg.timeframe)];
    AsOfPersists(f, t, u);
    AsOfIsPositive(f, t);
    AsOfIsPositive(f, u);
    Factor(pos.quantity, PriceAt(env, s, u), PriceAt(env, s, t));
  }

  lemma Factor(q: real, x: real, y: real)
    ensures q * (x - y) == q * x - q * y
  {
  }

  /** The market's contribution over the first `n` steps: holdings carried from one bar to the next. */
  ghost function Gains(env: Env, n: nat): real
    requires n <= |Timeline(env.cache)|
  {
    if n <= 1 then 0.0
    else Gains(env, n - 1)
         + Drift(env, After(env, n - 1).positions, Timeline(env.cache)[n - 2], Timeline(env.cache)[n - 1])
  }

  lemma StepBooks(env: Env, st: State, ts: int)
    requires Sound(env) && Priced(env, st.positions, ts)
    ensures var after := Step(env, st, ts);
            && |after.curve| == |st.curve| + 1 && FinalEquity(after) == Equity(env, after, ts)
            && FinalEquity(after) == Equity(env, st, ts) - (Costs(after.trades) - Costs(st.trades))
            && Priced(env, after.positions, ts)
            && (AllHeld(st.positions) ==> AllHeld(after.positions))
  {
    StepPriced(env, st, ts);
    StepAttribution(env, st, ts);
    var traded := Trading(env, st, ts);
    CostsAppend(st.trades, traded.trades[|st.trades|..]);
    assert traded.trades == st.trades + traded.trades[|st.trades|..];
  }

  lemma NothingHeld(env: Env, ts: int)
    ensures var st := InitialState(env.cfg);
            Equity(env, st, ts) == env.cfg.initialBalance && Priced(env, st.positions, ts) && AllHeld(st.positions)
  {
    assert WorthAt(map[], s => CurrentPrice(env, s, ts)) == map[];
  }

  /** Reported equity is the initial balance, plus holdings times price moves, minus every cost booked. */
  lemma {:induction false} RunAttribution(env: Env, n: nat)
    requires Sound(env) && 0 < n <= |Timeline(env.cache)|
    ensures |After(env, n).curve| == n
    ensures FinalEquity(After(env, n)) == env.cfg.initialBalance + Gains(env, n) - Costs(After(env, n).trades)
    ensures FinalEquity(After(env, n)) == Equity(env, After(env, n), Timeline(env.cache)[n - 1])
    ensures AllHeld(After(env, n).positions) && Priced(env, After(env, n).positions, Timeline(env.cache)[n - 1])
  {
    var ts := Timeline(env.cache)[n - 1];
    var before := After(env, n - 1);
    assert After(env, n) == Step(env, before, ts);
    if n > 1 {
      RunAttribution(env, n - 1);
      TimelineAscends(env.cache, n - 2, n - 1);
      DriftIsRevaluation(env, before, Timeline(env.cache)[n - 2], ts);
    } else {
      NothingHeld(env, ts);
    }
    StepBooks(env, before, ts);
  }

  // ---------------------------------------------------------------- every trade on the record

  /** A trade within the universe, on a bar of its own instant, at a price between bar and slippage, with the
      fee and the slippage that follow from price and quantity. */
  ghost predicate Audited(env: Env, t: Trade)
  {
    && t.side in {Buy, Sell} && t.quantity > 0.0 && (env.cfg.universe == {} || t.symbol in env.cfg.universe)
    && BarPrice(env, t.symbol, t.ts).Some?
    && var bar := BarPrice(env, t.symbol, t.ts).value;
       && (if t.side == Buy then bar <= t.price <= bar * (1.0 + env.cfg.slippage)
           else bar * (1.0 - env.cfg.slippage) <= t.price <= bar)
       && t.commission == Fee(t.price, t.quantity, if t.side == Buy then env.cfg.buyRate else env.cfg.sellRate)
       && t.slippage == Slipped(t.price, bar, t.quantity)
  }

  ghost predicate AllAudited(env: Env, trades: seq<Trade>) { forall k :: 0 <= k < |trades| ==> Audited(env, trades[k]) }

  lemma AttemptAudited(env: Env, a: State, ts: int, sig: Signal)
    requires Sound(env) && AllAudited(env, a.trades)
    ensures AllAudited(env, Attempt(env, a, ts, sig).st.trades)
  {
    var done := ExecuteSignal(env, a, ts, sig);
    if done.fill.Some? {
      var bar := BarPrice(env, sig.symbol, ts).value;
      BarIsPositive(env, sig.symbol, ts);
      FillNeverBeatsBar(env.cfg, sig, bar);
      assert Audited(env, done.st.trades[|a.trades|]);
    }
  }

  /** After every step of every run, the whole trade log stands an audit against the data. */
  lemma {:induction false} RunAudited(env: Env, n: nat)
    requires Sound(env) && n <= |Timeline(env.cache)|
    ensures AllAudited(env, After(env, n).trades)
  {
    if n > 0 {
      RunAudited(env, n - 1);
      TradingAudited(env, After(env, n - 1), Timeline(env.cache)[n - 1]);
    }
  }

  lemma TradingAudited(env: Env, st: State, ts: int)
    requires Sound(env) && AllAudited(env, st.trades)
    ensures AllAudited(env, Trading(env, st, ts).trades)
  {
    var rel := (a: State, b: State) => AllAudited(env, a.trades) ==> AllAudited(env, b.trades);
    forall a, sig ensures rel(a, Attempt(env, a, ts, sig).st) {
      if AllAudited(env, a.trades) { AttemptAudited(env, a, ts, sig); }
    }
    TradingRespects(env, st, ts, rel);
    assert rel(Observe(env, st, ts), Trading(env, st, ts));
  }
}
