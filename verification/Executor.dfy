/** The backtest executor as the object the source has: fields updated in place, each method tied to a function
    of `Backtest` (executor.py). */
module Executor {
  import opened Collections
  import opened DataProviders
  import B = Backtest

  /** The marks of some of the holdings. */
  ghost function MarksOf(env: B.Env, held: map<string, B.Position>, ids: set<string>, ts: int): map<string, real>
  {
    map s | s in ids && s in held :: B.Mark(held[s], B.CurrentPrice(env, s, ts))
  }

  lemma OneMoreMark(env: B.Env, held: map<string, B.Position>, ids: set<string>, s: string, ts: int)
    requires s in held
    ensures MarksOf(env, held, ids + {s}, ts)
            == MarksOf(env, held, ids, ts)[s := B.Mark(held[s], B.CurrentPrice(env, s, ts))]
  {
  }

  lemma AllMarks(env: B.Env, held: map<string, B.Position>, ts: int)
    ensures MarksOf(env, held, held.Keys, ts) == B.Marks(env, held, ts)
  {
  }

  /** The worth of some of the holdings. */
  ghost function WorthOf(env: B.Env, held: map<string, B.Position>, ids: set<string>, ts: int): map<string, real>
  {
    map s | s in ids && s in held :: B.Worth(held[s], B.CurrentPrice(env, s, ts))
  }

  /** Their total. */
  ghost function Tally(env: B.Env, held: map<string, B.Position>, ids: set<string>, ts: int): real
  {
    Sum(WorthOf(env, held, ids, ts))
  }

  lemma NothingWorth(env: B.Env, held: map<string, B.Position>, ts: int)
    ensures Tally(env, held, {}, ts) == 0.0
  {
    assert WorthOf(env, held, {}, ts) == map[];
  }

  /** One more holding leaves those still to be counted. */
  lemma OneMoreWorth(env: B.Env, held: map<string, B.Position>, left: set<string>, s: string, ts: int)
    requires left <= held.Keys && s in left
    ensures Tally(env, held, held.Keys - (left - {s}), ts)
         == Tally(env, held, held.Keys - left, ts) + B.Worth(held[s], B.CurrentPrice(env, s, ts))
  {
    var before, after := WorthOf(env, held, held.Keys - left, ts), WorthOf(env, held, held.Keys - (left - {s}), ts);
    var value := B.Worth(held[s], B.CurrentPrice(env, s, ts));
    SumInsert(before, s, value);
    assert after == before[s := value];
  }

  lemma AllWorth(env: B.Env, st: B.State, ts: int)
    ensures st.balance + Tally(env, st.positions, st.positions.Keys, ts) == B.Equity(env, st, ts)
  {
    assert WorthOf(env, st.positions, st.positions.Keys, ts)
        == B.WorthAt(st.positions, s => B.CurrentPrice(env, s, ts));
  }

  class BacktestExecutor {
    const cfg: B.Config
    const data: BacktestDataProvider
    const decide: seq<B.Observed> -> seq<B.Signal>
    var balance: real
    var positions: map<string, B.Position>
    var trades: seq<B.Trade>
    var orderSeq: nat
    var currentPrices: map<string, real>
    var equityCurve: seq<B.Point>
    /** What the strategy object has been shown so far. */
    var observed: seq<B.Observed>

    ghost function Snapshot(): B.State
      reads this
    {
      B.State(balance, positions, trades, orderSeq, currentPrices, equityCurve, observed)
    }

    ghost function Env(): B.Env
      reads this, data
    {
      B.Env(cfg, data.cache, decide)
    }

    /** Everything that may be traded or is held has been loaded. */
    ghost predicate Valid()
      reads this, data
    {
      && data.Valid() && data.timeframe == cfg.timeframe
      && B.Loaded(cfg, data.cache)
      && (forall s :: s in positions ==> Key(s, cfg.timeframe) in data.cache)
    }

    ghost predicate At(ts: int)
      reads this, data
    {
      Valid() && CurrentTs(data.cache, data.currentIdx) == Some(ts)
    }

    constructor (cfg: B.Config, data: BacktestDataProvider, decide: seq<B.Observed> -> seq<B.Signal>)
      requires data.Valid() && data.timeframe == cfg.timeframe
      requires B.Loaded(cfg, data.cache)
      ensures Valid() && this.cfg == cfg && this.data == data && this.decide == decide
      ensures Snapshot() == B.InitialState(cfg)
    {
      this.cfg, this.data, this.decide := cfg, data, decide;
      balance, positions, trades, orderSeq := cfg.initialBalance, map[], [], 0;
      currentPrices, equityCurve, observed := map[], [], [];
    }

    method UpdatePosition(symbol: string, delta: real, price: real)
      modifies this`positions
      ensures positions == B.UpdatePosition(old(positions), symbol, delta, price)
    {
      ghost var start := positions;
      if symbol !in positions {
        positions := positions[symbol := B.Position(0.0, 0.0)];
      }
      var pos := positions[symbol];
      var quantity := pos.quantity + delta;
      if delta > 0.0 {
        var totalCost := pos.quantity * pos.avgPrice + delta * price;
        var average := pos.avgPrice;
        if quantity > 0.0 {
          average := totalCost / quantity;
        }
        assert average == B.AveragePrice(pos, delta, price);
        positions := positions[symbol := B.Position(quantity, average)];
      } else if quantity <= 0.0 {
        positions := positions - {symbol};
        assert positions == start - {symbol};
      } else {
        positions := positions[symbol := B.Position(quantity, pos.avgPrice)];
      }
    }

    /** The bar a signal may fill at now. */
    method BarNow(symbol: string, ts: int) returns (bar: Option<real>)
      requires At(ts) && Key(symbol, cfg.timeframe) in data.cache
      modifies data
      ensures At(ts) && data.cache == old(data.cache) && data.currentIdx == old(data.currentIdx)
      ensures bar == B.BarPrice(old(Env()), symbol, ts)
    {
      bar := data.GetCurrentBarPrice(symbol, None);
    }

    /** The price a holding is marked at now; a failed lookup falls back to its cost. */
    method MarkNow(symbol: string, pos: B.Position, ts: int) returns (mark: real)
      requires At(ts) && Key(symbol, cfg.timeframe) in data.cache
      modifies data
      ensures At(ts) && data.cache == old(data.cache) && data.currentIdx == old(data.currentIdx)
      ensures mark == B.Mark(pos, B.CurrentPrice(old(Env()), symbol, ts))
    {
      mark := pos.avgPrice;
      var current := data.GetCurrentPrice(symbol);
      if current.Some? && current.value > 0.0 {
        mark := current.value;
      }
    }

    /** What a holding is worth now. */
    method WorthNow(symbol: string, pos: B.Position, ts: int) returns (value: real)
      requires At(ts) && Key(symbol, cfg.timeframe) in data.cache
      modifies data
      ensures At(ts) && data.cache == old(data.cache) && data.currentIdx == old(data.currentIdx)
      ensures value == B.Worth(pos, B.CurrentPrice(old(Env()), symbol, ts))
    {
      var mark := MarkNow(symbol, pos, ts);
      value := pos.quantity * mark;
    }

    method Book(sig: B.Signal, ts: int, bar: real, quantity: real, price: real, commission: real, cash: real)
      returns (fill: B.Fill)
      requires At(ts) && Key(sig.symbol, cfg.timeframe) in data.cache
      modifies this`balance, this`positions, this`trades, this`orderSeq
      ensures At(ts)
      ensures B.Record(old(Snapshot()), sig, ts, bar, B.Deal(quantity, price, commission, cash))
           == B.Execution(Snapshot(), Some(fill))
    {
      balance := cash;
      UpdatePosition(sig.symbol, B.Delta(sig.side, quantity), price);
      var slipped := B.Slipped(price, bar, quantity);
      trades := trades + [B.Trade(ts, sig.symbol, sig.side, quantity, price, commission, slipped, sig.reason)];
      orderSeq := orderSeq + 1;
      fill := B.Fill(orderSeq, sig.symbol, sig.side, quantity, price, ts);
    }

    method ExecuteSignal(sig: B.Signal, ts: int) returns (fill: Option<B.Fill>)
      requires At(ts)
      modifies this, data
      ensures At(ts) && data.cache == old(data.cache) && data.currentIdx == old(data.currentIdx)
      ensures B.ExecuteSignal(old(Env()), old(Snapshot()), ts, sig) == B.Execution(Snapshot(), fill)
    {
      if sig.side !in {B.Buy, B.Sell} { return None; }
      if sig.quantity.NotANumber? || sig.quantity.q <= 0.0 { return None; }
      if cfg.universe != {} && sig.symbol !in cfg.universe { return None; }
      var bar := BarNow(sig.symbol, ts);
      if bar.None? || !B.OrderTriggered(sig, bar.value) { return None; }
      var price := B.ApplySlippageCap(cfg, sig, bar.value, sig.side);
      var done;
      if sig.side == B.Buy {
        var quantity := sig.quantity.q;
        var commission := B.Fee(price, quantity, cfg.buyRate);
        var cost := B.Gross(price, quantity) + commission;
        if balance < cost { return None; }
        assert B.BuyDeal(balance, quantity, price, cfg.buyRate)
            == Some(B.Deal(quantity, price, commission, balance - cost));
        done := Book(sig, ts, bar.value, quantity, price, commission, balance - cost);
      } else {
        var held := B.Held(positions, sig.symbol);
        var quantity := if held < sig.quantity.q then held else sig.quantity.q;
        if quantity <= 0.0 { return None; }
        var commission := B.Fee(price, quantity, cfg.sellRate);
        var proceeds := B.Gross(price, quantity) - commission;
        assert B.SellDeal(balance, sig.quantity.q, held, price, cfg.sellRate)
            == Some(B.Deal(quantity, price, commission, balance + proceeds));
        done := Book(sig, ts, bar.value, quantity, price, commission, balance + proceeds);
      }
      fill := Some(done);
    }

    method RefreshCurrentPrices(ts: int)
      requires At(ts)
      modifies this`currentPrices, data
      ensures At(ts) && data.cache == old(data.cache) && data.currentIdx == old(data.currentIdx)
      ensures currentPrices == B.Marks(old(Env()), positions, ts)
    {
      ghost var env := Env();
      var held := positions;
      var prices: map<string, real> := map[];
      var pending := held.Keys;
      ghost var done: set<string> := {};
      while pending != {}
        invariant At(ts) && data.cache == env.cache && data.currentIdx == old(data.currentIdx)
        invariant done + pending == held.Keys && prices == MarksOf(env, held, done, ts)
        decreases |pending|
      {
        var s :| s in pending;
        var mark := MarkNow(s, held[s], ts);
        OneMoreMark(env, held, done, s, ts);
        prices := prices[s := mark];
        pending, done := pending - {s}, done + {s};
      }
      currentPrices := prices;
      AllMarks(env, held, ts);
    }

    /** The loop over the holdings, adding their worth to `cash`. */
    method AddHoldings(cash: real, ts: int) returns (equity: real)
      requires At(ts)
      modifies data
      ensures At(ts) && data.cache == old(data.cache) && data.currentIdx == old(data.currentIdx)
      ensures equity == cash + Tally(old(Env()), positions, positions.Keys, ts)
    {
      ghost var env := Env();
      var held := positions;
      var pending := held.Keys;
      equity := cash;
      NothingWorth(env, held, ts);
      assert held.Keys - pending == {};
      while pending != {}
        invariant At(ts) && data.cache == env.cache && data.currentIdx == old(data.currentIdx)
        invariant pending <= held.Keys && equity == cash + Tally(env, held, held.Keys - pending, ts)
        decreases |pending|
      {
        var s :| s in pending;
        var value := WorthNow(s, held[s], ts);
        OneMoreWorth(env, held, pending, s, ts);
        equity := equity + value;
        pending := pending - {s};
      }
      assert held.Keys - pending == held.Keys;
    }

    method CalculateEquity(ts: int) returns (equity: real)
      requires At(ts)
      modifies data
      ensures At(ts) && data.cache == old(data.cache) && data.currentIdx == old(data.currentIdx)
      ensures equity == B.Equity(old(Env()), Snapshot(), ts)
    {
      AllWorth(Env(), Snapshot(), ts);
      equity := AddHoldings(balance, ts);
    }

    method GetPositions() returns (view: map<string, B.Holding>)
      ensures view == B.Portfolio(Snapshot())
      ensures B.ProfitOf(view) == B.ValueOf(view) - B.CostOf(view)
      ensures forall ts :: currentPrices == B.Marks(Env(), positions, ts) ==>
                balance + B.ValueOf(view) == B.Equity(Env(), Snapshot(), ts)
    {
      B.ProfitIsValueLessCost(Snapshot());
      forall ts | currentPrices == B.Marks(Env(), positions, ts)
        ensures balance + B.ValueOf(B.Portfolio(Snapshot())) == B.Equity(Env(), Snapshot(), ts)
      {
        B.PortfolioAddsUp(Env(), Snapshot(), ts);
      }
      view := map s | s in positions ::
        var p := positions[s];
        var current := if s in currentPrices then currentPrices[s] else p.avgPrice;
        B.Holding(p.quantity, p.avgPrice, current, (current - p.avgPrice) * p.quantity);
    }

    /** Everything the strategy may read through its context now. */
    method CurrentView(ts: int) returns (view: B.View)
      requires At(ts)
      ensures view == B.ViewAt(Env(), Snapshot(), ts)
    {
      var portfolio := GetPositions();
      var rows := map k | k in data.cache :: Visible(data.cache[k], ts);
      view := B.View(ts, rows, portfolio, balance, trades);
    }

    /** Execute one signal and, if it filled, let the strategy answer. */
    method Attempt(sig: B.Signal, ts: int) returns (filled: bool, replies: seq<B.Signal>)
      requires At(ts)
      modifies this, data
      ensures At(ts) && data.cache == old(data.cache) && data.currentIdx == old(data.currentIdx)
      ensures B.Attempt(old(Env()), old(Snapshot()), ts, sig) == B.Attempted(Snapshot(), filled, replies)
    {
      var fill := ExecuteSignal(sig, ts);
      if fill.None? { return false, []; }
      var view := CurrentView(ts);
      observed := observed + [B.FillSeen(fill.value, view)];
      return true, decide(observed);
    }

    /** Phase 1 of a step: every signal, in order; returns the queued replies. */
    method RunSignals(signals: seq<B.Signal>, ts: int) returns (queue: seq<B.Signal>)
      requires At(ts)
      modifies this, data
      ensures At(ts) && data.cache == old(data.cache) && data.currentIdx == old(data.currentIdx)
      ensures B.StepSignals(old(Env()), old(Snapshot()), ts, signals) == B.Phase(Snapshot(), queue)
    {
      ghost var env, start := Env(), Snapshot();
      queue := [];
      for i := 0 to |signals|
        invariant At(ts) && data.cache == env.cache && data.currentIdx == old(data.currentIdx)
        invariant B.StepSignals(env, start, ts, signals[..i]) == B.Phase(Snapshot(), queue)
      {
        var _, replies := Attempt(signals[i], ts);
        assert signals[..i + 1][..i] == signals[..i];
        queue := queue + replies;
      }
      assert signals[..|signals|] == signals;
    }

    /** Phase 2 of a step: the replies, first in first out, at most 1000 of them filled. */
    method RunFollowUps(replies: seq<B.Signal>, ts: int)
      requires At(ts)
      modifies this, data
      ensures At(ts) && data.cache == old(data.cache) && data.currentIdx == old(data.currentIdx)
      ensures B.FollowUps(old(Env()), old(Snapshot()), ts, replies, 0).st == Snapshot()
    {
      ghost var env, start := Env(), Snapshot();
      var queue, fills := replies, 0;
      while queue != []
        invariant At(ts) && data.cache == env.cache && data.currentIdx == old(data.currentIdx)
        invariant 0 <= fills <= B.MAX_FOLLOW_UP_FILLS
        invariant B.FollowUps(env, Snapshot(), ts, queue, fills) == B.FollowUps(env, start, ts, replies, 0)
        decreases B.MAX_FOLLOW_UP_FILLS - fills, |queue|
      {
        if fills >= B.MAX_FOLLOW_UP_FILLS { break; }
        queue, fills := FollowUp(queue, fills, ts);
      }
    }

    /** The first reply in the queue; its own replies go to the end. */
    method FollowUp(queue: seq<B.Signal>, fills: nat, ts: int) returns (rest: seq<B.Signal>, count: nat)
      requires At(ts) && queue != [] && fills < B.MAX_FOLLOW_UP_FILLS
      modifies this, data
      ensures At(ts) && data.cache == old(data.cache) && data.currentIdx == old(data.currentIdx)
      ensures count == fills + 1 || (count == fills && |rest| < |queue|)
      ensures B.FollowUps(old(Env()), old(Snapshot()), ts, queue, fills)
           == B.FollowUps(old(Env()), Snapshot(), ts, rest, count)
    {
      var sig := queue[0];
      var filled, more := Attempt(sig, ts);
      rest, count := queue[1..] + more, fills;
      if filled {
        count := count + 1;
      } else {
        assert rest == queue[1..];
      }
    }

    method RunStep(ts: int)
      requires At(ts)
      modifies this, data
      ensures At(ts) && data.cache == old(data.cache) && data.currentIdx == old(data.currentIdx)
      ensures Snapshot() == B.Step(old(Env()), old(Snapshot()), ts)
    {
      RefreshCurrentPrices(ts);
      var view := CurrentView(ts);
      observed := observed + [B.StepSeen(view)];
      var signals := decide(observed);
      var replies := RunSignals(signals, ts);
      RunFollowUps(replies, ts);
      assert Snapshot() == B.Trading(old(Env()), old(Snapshot()), ts);
      var equity := CalculateEquity(ts);
      equityCurve := equityCurve + [B.Point(ts, equity, balance)];
    }

    /** What the run loop keeps: the steps before the cursor have been taken. */
    ghost predicate Running(env: B.Env, start: B.State, from: nat)
      reads this, data
    {
      && Valid() && Env() == env
      && from <= data.currentIdx <= |Timeline(env.cache)|
      && Snapshot() == B.Steps(env, start, from, data.currentIdx)
    }

    /** Read the clock and take the step of that instant. */
    method StepNow(ghost env: B.Env)
      requires Valid() && Env() == env && 0 <= data.currentIdx < |Timeline(env.cache)|
      modifies this, data
      ensures Valid() && Env() == env && data.currentIdx == old(data.currentIdx)
      ensures Snapshot() == B.Step(env, old(Snapshot()), Timeline(env.cache)[data.currentIdx])
    {
      InstantExists(data.cache, data.currentIdx);
      var ts := data.GetCurrentTimestamp();
      RunStep(ts.value);
    }

    /** One turn of the run loop: read the clock, take the step, advance. */
    method Turn(ghost env: B.Env, ghost start: B.State, ghost from: nat) returns (more: bool)
      requires Running(env, start, from) && data.currentIdx < |Timeline(env.cache)|
      modifies this, data
      ensures Running(env, start, from) && data.currentIdx == old(data.currentIdx) + 1
      ensures more <==> data.currentIdx < |Timeline(env.cache)|
    {
      B.StepsNext(env, start, from, data.currentIdx);
      StepNow(env);
      more := data.Advance();
    }

    method Replay(ghost env: B.Env, ghost start: B.State, ghost from: nat)
      requires Running(env, start, from) && data.currentIdx < |Timeline(env.cache)|
      modifies this, data
      ensures Running(env, start, from) && data.currentIdx == |Timeline(env.cache)|
    {
      var more := true;
      while more
        invariant Running(env, start, from)
        invariant more <==> data.currentIdx < |Timeline(env.cache)|
        decreases |Timeline(env.cache)| - data.currentIdx
      {
        more := Turn(env, start, from);
      }
    }

    method Begin() returns (more: bool)
      requires Valid()
      modifies data
      ensures Valid() && Env() == old(Env())
      ensures data.currentIdx == old(data.currentIdx) + 1 && Snapshot() == old(Snapshot())
      ensures data.currentIdx <= |Timeline(data.cache)| ==> Running(old(Env()), Snapshot(), data.currentIdx)
      ensures more <==> data.currentIdx < |Timeline(data.cache)|
    {
      more := data.Advance();
    }

    /** Replays the data from the cursor to the end of the timeline; past the end there is nothing to replay. */
    method Run() returns (finalEquity: real)
      requires Valid()
      modifies this, data
      ensures Valid() && Env() == old(Env())
      ensures old(data.currentIdx) < |Timeline(data.cache)| ==>
                Running(old(Env()), old(Snapshot()), old(data.currentIdx) + 1)
                && data.currentIdx == |Timeline(data.cache)|
      ensures old(data.currentIdx) >= |Timeline(data.cache)| ==>
                Snapshot() == old(Snapshot()) && data.currentIdx == old(data.currentIdx) + 1
      ensures finalEquity == B.FinalEquity(Snapshot())
    {
      var more := Begin();
      if more { Replay(Env(), Snapshot(), data.currentIdx); }
      finalEquity := if equityCurve != [] then equityCurve[|equityCurve| - 1].equity else balance;
    }
  }
}
