/** Two runs over data that agree up to an instant cannot be told apart up to that instant. */
module NoLookahead {
  import opened Collections
  import opened DataProviders
  import opened Backtest
  import BacktestProofs

  /** Same configuration, same strategy, and price frames that agree on every row not after `t`. */
  ghost predicate AgreeUpTo(a: Env, b: Env, t: int)
  {
    a.cfg == b.cfg && a.decide == b.decide && SameUpTo(a.cache, b.cache, t)
  }

  lemma SameFrames(a: Env, b: Env, t: int, ts: int, k: Key)
    requires AgreeUpTo(a, b, t) && ts <= t && k in a.cache
    ensures Visible(a.cache[k], ts) == Visible(b.cache[k], ts)
    ensures Matching(a.cache[k], ts) == Matching(b.cache[k], ts)
  {
    VisibleTwice(a.cache[k], ts, t);
    VisibleTwice(b.cache[k], ts, t);
  }

  lemma SamePrices(a: Env, b: Env, t: int, ts: int, symbol: string)
    requires AgreeUpTo(a, b, t) && ts <= t
    ensures BarPrice(a, symbol, ts) == BarPrice(b, symbol, ts)
    ensures CurrentPrice(a, symbol, ts) == CurrentPrice(b, symbol, ts)
  {
    if Key(symbol, a.cfg.timeframe) in a.cache {
      SameFrames(a, b, t, ts, Key(symbol, a.cfg.timeframe));
    }
  }

  lemma SameView(a: Env, b: Env, t: int, ts: int, st: State)
    requires AgreeUpTo(a, b, t) && ts <= t
    ensures ViewAt(a, st, ts) == ViewAt(b, st, ts)
  {
    forall k | k in a.cache ensures Visible(a.cache[k], ts) == Visible(b.cache[k], ts) {
      SameFrames(a, b, t, ts, k);
    }
    assert ViewAt(a, st, ts).rows == ViewAt(b, st, ts).rows;
  }

  lemma SameAttempt(a: Env, b: Env, t: int, ts: int, st: State, sig: Signal)
    requires AgreeUpTo(a, b, t) && ts <= t
    ensures Attempt(a, st, ts, sig) == Attempt(b, st, ts, sig)
  {
    SamePrices(a, b, t, ts, sig.symbol);
    assert ExecuteSignal(a, st, ts, sig) == ExecuteSignal(b, st, ts, sig);
    SameView(a, b, t, ts, ExecuteSignal(a, st, ts, sig).st);
  }

  lemma {:induction false} SameSignals(a: Env, b: Env, t: int, ts: int, st: State, signals: seq<Signal>)
    requires AgreeUpTo(a, b, t) && ts <= t
    ensures StepSignals(a, st, ts, signals) == StepSignals(b, st, ts, signals)
  {
    if signals != [] {
      SameSignals(a, b, t, ts, st, signals[..|signals| - 1]);
      SameAttempt(a, b, t, ts, StepSignals(a, st, ts, signals[..|signals| - 1]).st, signals[|signals| - 1]);
    }
  }

  lemma {:induction false} SameFollowUps(a: Env, b: Env, t: int, ts: int, st: State, queue: seq<Signal>, fills: nat)
    requires AgreeUpTo(a, b, t) && ts <= t && fills <= MAX_FOLLOW_UP_FILLS
    ensures FollowUps(a, st, ts, queue, fills) == FollowUps(b, st, ts, queue, fills)
    decreases MAX_FOLLOW_UP_FILLS - fills, |queue|
  {
    if queue != [] && fills < MAX_FOLLOW_UP_FILLS {
      SameAttempt(a, b, t, ts, st, queue[0]);
      var head := Attempt(a, st, ts, queue[0]);
      SameFollowUps(a, b, t, ts, head.st, queue[1..] + head.replies, if head.filled then fills + 1 else fills);
    }
  }

  lemma SameMarks(a: Env, b: Env, t: int, ts: int, positions: map<string, Position>)
    requires AgreeUpTo(a, b, t) && ts <= t
    ensures Marks(a, positions, ts) == Marks(b, positions, ts)
    ensures WorthAt(positions, s => CurrentPrice(a, s, ts)) == WorthAt(positions, s => CurrentPrice(b, s, ts))
  {
    forall s | s in positions ensures CurrentPrice(a, s, ts) == CurrentPrice(b, s, ts) {
      SamePrices(a, b, t, ts, s);
    }
  }

  lemma SameObservation(a: Env, b: Env, t: int, ts: int, st: State)
    requires AgreeUpTo(a, b, t) && ts <= t
    ensures Observe(a, st, ts) == Observe(b, st, ts)
  {
    SameMarks(a, b, t, ts, st.positions);
    SameView(a, b, t, ts, st.(currentPrices := Marks(a, st.positions, ts)));
  }

  lemma {:induction false} SameTrading(a: Env, b: Env, t: int, ts: int, st: State)
    requires AgreeUpTo(a, b, t) && ts <= t
    ensures Trading(a, st, ts) == Trading(b, st, ts)
  {
    SameObservation(a, b, t, ts, st);
    var seen := Observe(a, st, ts);
    var signals := a.decide(seen.log);
    SameSignals(a, b, t, ts, seen, signals);
    var first := StepSignals(a, seen, ts, signals);
    SameFollowUps(a, b, t, ts, first.st, first.queue, 0);
  }

  lemma SameEquity(a: Env, b: Env, t: int, ts: int, st: State)
    requires AgreeUpTo(a, b, t) && ts <= t
    ensures Equity(a, st, ts) == Equity(b, st, ts)
  {
    SameMarks(a, b, t, ts, st.positions);
  }

  lemma {:induction false} SameStep(a: Env, b: Env, t: int, ts: int, st: State)
    requires AgreeUpTo(a, b, t) && ts <= t
    ensures Step(a, st, ts) == Step(b, st, ts)
  {
    SameTrading(a, b, t, ts, st);
    SameEquity(a, b, t, ts, Trading(a, st, ts));
  }

  /** Balance, positions, trades, equity curve, everything observed: equal after every step not after `t`. */
  lemma {:induction false} NoLookahead(a: Env, b: Env, t: int, n: nat)
    requires AgreeUpTo(a, b, t) && n <= StepsUpTo(a.cache, t)
    ensures n <= |Timeline(a.cache)| && n <= |Timeline(b.cache)|
    ensures After(a, n) == After(b, n)
    decreases n
  {
    TimelinePrefix(a.cache, b.cache, t);
    if n > 0 {
      NoLookahead(a, b, t, n - 1);
      SameInstant(a.cache, b.cache, t, n - 1);
      SameStep(a, b, t, Timeline(a.cache)[n - 1], After(a, n - 1));
    }
  }

  lemma StepExtends(env: Env, st: State, ts: int)
    ensures var after := Step(env, st, ts);
            && st.trades <= after.trades && st.curve <= after.curve && |after.curve| == |st.curve| + 1
  {
    var rel := (x: State, y: State) => x.trades <= y.trades && x.curve == y.curve;
    BacktestProofs.TradingRespects(env, st, ts, rel);
    assert rel(Observe(env, st, ts), Trading(env, st, ts));
  }

  /** A reflexive and transitive relation that every step respects holds across any number of steps. */
  lemma {:induction false} StepsRespect(env: Env, m: nat, n: nat, rel: (State, State) -> bool)
    requires m <= n <= |Timeline(env.cache)|
    requires forall a :: rel(a, a)
    requires forall a, b, c :: rel(a, b) && rel(b, c) ==> rel(a, c)
    requires forall a, ts :: rel(a, Step(env, a, ts))
    ensures rel(After(env, m), After(env, n))
    decreases n
  {
    if m < n {
      StepsRespect(env, m, n - 1, rel);
      assert rel(After(env, n - 1), Step(env, After(env, n - 1), Timeline(env.cache)[n - 1]));
    }
  }

  lemma {:induction false} CurveLength(env: Env, n: nat)
    requires n <= |Timeline(env.cache)|
    ensures |After(env, n).curve| == n
  {
    if n > 0 {
      CurveLength(env, n - 1);
      StepExtends(env, After(env, n - 1), Timeline(env.cache)[n - 1]);
    }
  }

  /** Steps only append to the curve and to the trades. */
  lemma {:induction false} RunExtends(env: Env, m: nat, n: nat)
    requires m <= n <= |Timeline(env.cache)|
    ensures After(env, m).curve <= After(env, n).curve
    ensures After(env, m).trades <= After(env, n).trades
  {
    var rel := (a: State, b: State) => a.curve <= b.curve && a.trades <= b.trades;
    forall a, ts ensures rel(a, Step(env, a, ts)) {
      StepExtends(env, a, ts);
    }
    StepsRespect(env, m, n, rel);
    assert rel(After(env, m), After(env, n));
  }

  lemma RecordedEquity(env: Env, n: nat, full: nat)
    requires 0 < n <= full == |Timeline(env.cache)|
    ensures |After(env, full).curve| == full
    ensures FinalEquity(After(env, n)) == After(env, full).curve[n - 1].equity
  {
    CurveLength(env, n);
    CurveLength(env, full);
    RunExtends(env, n, full);
  }

  function Truncated(c: Cache, t: int): Cache { map k | k in c :: Visible(c[k], t) }

  lemma TruncatedAgrees(c: Cache, t: int)
    ensures SameUpTo(c, Truncated(c, t), t)
    ensures StepsUpTo(Truncated(c, t), t) == |Timeline(Truncated(c, t))|
  {
    var cut := Truncated(c, t);
    forall k | k in c ensures Visible(c[k], t) == Visible(cut[k], t) {
      VisibleTwice(c[k], t, t);
    }
    forall x | x in AllStamps(cut) ensures x <= t {
      var k :| k in cut && x in Stamps(cut[k]);
      var i :| 0 <= i < |cut[k]| && cut[k][i].ts == x;
      FilterMembers(c[k], t);
      assert cut[k][i] in Visible(c[k], t);
    }
    assert UpTo(AllStamps(cut), t) == AllStamps(cut);
  }

  /** Cutting the data off at `t` leaves the run up to `t` as it was, and the final balance it then reports is
      the equity the full run had recorded at its last step not after `t`. */
  lemma {:induction false} TruncationReportsSameEquity(env: Env, t: int, n: nat, full: nat)
    requires 0 < n == StepsUpTo(env.cache, t) && full == |Timeline(env.cache)|
    ensures var cut := Env(env.cfg, Truncated(env.cache, t), env.decide);
            && |Timeline(cut.cache)| == n <= full
            && After(cut, n) == After(env, n)
            && |After(env, full).curve| == full
            && FinalEquity(After(cut, n)) == After(env, full).curve[n - 1].equity
  {
    var cut := Env(env.cfg, Truncated(env.cache, t), env.decide);
    TruncatedAgrees(env.cache, t);
    TimelinePrefix(env.cache, cut.cache, t);
    NoLookahead(env, cut, t, n);
    RecordedEquity(env, n, full);
  }
}
