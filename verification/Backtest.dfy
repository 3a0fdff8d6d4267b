/** The backtest kernel as functions on values (executor.py): what one signal, one step and a whole run compute. */
module Backtest {
  import opened Collections
  import opened DataProviders

  const MAX_FOLLOW_UP_FILLS := 1000

  datatype Side = Buy | Sell | OtherSide(name: string)
  datatype OrderType = Market | Limit | Stop | StopLimit | OtherType(name: string)
  /** `NotANumber` stands for NaN, infinities, booleans and everything else that is not a finite number. */
  datatype Quantity = Finite(q: real) | NotANumber

  datatype Signal = Signal(symbol: string, side: Side, quantity: Quantity, orderType: OrderType,
                           price: Option<real>, stopPrice: Option<real>, reason: string)
  datatype Position = Position(quantity: real, avgPrice: real)
  datatype Trade = Trade(ts: int, symbol: string, side: Side, quantity: real, price: real,
                         commission: real, slippage: real, reason: string)
  datatype Fill = Fill(orderId: nat, symbol: string, side: Side, quantity: real, price: real, ts: int)
  datatype Point = Point(ts: int, equity: real, balance: real)
  datatype Holding = Holding(quantity: real, avgPrice: real, currentPrice: real, unrealizedPnl: real)

  /** Everything the strategy can read through its context at one call. */
  datatype View = View(ts: int, rows: map<Key, Frame>, portfolio: map<string, Holding>,
                       balance: real, trades: seq<Trade>)
  datatype Observed = StepSeen(view: View) | FillSeen(fill: Fill, view: View)

  datatype Config = Config(initialBalance: real, buyRate: real, sellRate: real, slippage: real,
                           universe: set<string>, timeframe: string)

  /** A run is fixed by its configuration, its data and its strategy; the strategy is an arbitrary
      function of all it has observed so far, the last observation being the call it answers. */
  datatype Env = Env(cfg: Config, cache: Cache, decide: seq<Observed> -> seq<Signal>)

  /** The service loads every symbol of the universe before a run, and nothing without one. */
  ghost predicate Loaded(cfg: Config, cache: Cache)
  {
    && (forall s :: s in cfg.universe ==> Key(s, cfg.timeframe) in cache)
    && (cfg.universe == {} ==> cache == map[])
  }

  datatype State = State(balance: real, positions: map<string, Position>, trades: seq<Trade>, orderSeq: nat,
                         currentPrices: map<string, real>, curve: seq<Point>, log: seq<Observed>)

  function InitialState(cfg: Config): State
  {
    State(cfg.initialBalance, map[], [], 0, map[], [], [])
  }

  // ---------------------------------------------------------------- prices

  function BarPrice(env: Env, symbol: string, ts: int): Option<real>
  {
    var key := Key(symbol, env.cfg.timeframe);
    if key in env.cache then ExactBar(env.cache[key], ts) else None
  }

  function CurrentPrice(env: Env, symbol: string, ts: int): Option<real>
  {
    var key := Key(symbol, env.cfg.timeframe);
    if key in env.cache then AsOf(env.cache[key], ts) else None
  }

  /** Mark-to-market price of a holding: the as-of price, or its cost when there is no usable one. */
  function Mark(pos: Position, price: Option<real>): real
  {
    if price.Some? && price.value > 0.0 then price.value else pos.avgPrice
  }

  function Marks(env: Env, positions: map<string, Position>, ts: int): map<string, real>
  {
    map s | s in positions :: Mark(positions[s], CurrentPrice(env, s, ts))
  }

  function Worth(pos: Position, price: Option<real>): real { pos.quantity * Mark(pos, price) }

  function WorthAt(positions: map<string, Position>, price: string -> Option<real>): map<string, real>
  {
    map s | s in positions :: Worth(positions[s], price(s))
  }

  /** Cash plus every holding at its mark. */
  ghost function Equity(env: Env, st: State, ts: int): real
  {
    st.balance + Sum(WorthAt(st.positions, s => CurrentPrice(env, s, ts)))
  }

  // ---------------------------------------------------------------- one signal

  function OrderTriggered(sig: Signal, price: real): bool
  {
    match sig.orderType
    case Market => true
    case Limit =>
      sig.price.Some? && (if sig.side == Buy then price <= sig.price.value else price >= sig.price.value)
    case Stop =>
      sig.stopPrice.Some? && (if sig.side == Buy then price >= sig.stopPrice.value else price <= sig.stopPrice.value)
    case StopLimit =>
      sig.stopPrice.Some? && sig.price.Some?
      && (if sig.side == Buy then price >= sig.stopPrice.value && price <= sig.price.value
          else price <= sig.stopPrice.value && price >= sig.price.value)
    case OtherType(_) => false
  }

  function ApplySlippageCap(cfg: Config, sig: Signal, price: real, side: Side): real
  {
    var capped := sig.orderType in {Limit, StopLimit} && sig.price.Some?;
    if side == Buy then
      var slipped := price * (1.0 + cfg.slippage);
      if capped && sig.price.value < slipped then sig.price.value else slipped
    else
      var slipped := price * (1.0 - cfg.slippage);
      if capped && sig.price.value > slipped then sig.price.value else slipped
  }

  function AveragePrice(pos: Position, delta: real, price: real): real
  {
    var quantity := pos.quantity + delta;
    var cost := pos.quantity * pos.avgPrice + delta * price;
    if quantity > 0.0 then cost / quantity else pos.avgPrice
  }

  function UpdatePosition(positions: map<string, Position>, symbol: string, delta: real, price: real)
    : map<string, Position>
  {
    var pos := if symbol in positions then positions[symbol] else Position(0.0, 0.0);
    var quantity := pos.quantity + delta;
    if delta > 0.0 then positions[symbol := Position(quantity, AveragePrice(pos, delta, price))]
    else if quantity <= 0.0 then positions - {symbol}
    else positions[symbol := Position(quantity, pos.avgPrice)]
  }

  function Abs(x: real): real { if x < 0.0 then -x else x }

  function Slipped(price: real, bar: real, quantity: real): real { Abs(price - bar) * quantity }

  function Held(positions: map<string, Position>, symbol: string): real
  {
    if symbol in positions then positions[symbol].quantity else 0.0
  }

  /** The terms of a fill: what is exchanged, the fee, and the cash left afterwards. */
  datatype Deal = Deal(quantity: real, price: real, commission: real, balance: real)

  function Gross(price: real, quantity: real): real { price * quantity }

  function Fee(price: real, quantity: real, rate: real): real { price * quantity * rate }

  function BuyDeal(balance: real, quantity: real, price: real, rate: real): Option<Deal>
  {
    var commission := Fee(price, quantity, rate);
    var cost := Gross(price, quantity) + commission;
    if balance < cost then None else Some(Deal(quantity, price, commission, balance - cost))
  }

  function SellDeal(balance: real, wanted: real, held: real, price: real, rate: real): Option<Deal>
  {
    var quantity := if held < wanted then held else wanted;
    if quantity <= 0.0 then None
    else
      var commission := Fee(price, quantity, rate);
      Some(Deal(quantity, price, commission, balance + (Gross(price, quantity) - commission)))
  }

  function DealAt(cfg: Config, st: State, sig: Signal, bar: real): Option<Deal>
    requires sig.quantity.Finite?
  {
    var price := ApplySlippageCap(cfg, sig, bar, sig.side);
    if sig.side == Buy then BuyDeal(st.balance, sig.quantity.q, price, cfg.buyRate)
    else SellDeal(st.balance, sig.quantity.q, Held(st.positions, sig.symbol), price, cfg.sellRate)
  }

  function Delta(side: Side, quantity: real): real { if side == Buy then quantity else -quantity }

  datatype Execution = Execution(st: State, fill: Option<Fill>)

  function Record(st: State, sig: Signal, ts: int, bar: real, d: Deal): Execution
  {
    var trade := Trade(ts, sig.symbol, sig.side, d.quantity, d.price, d.commission,
                       Slipped(d.price, bar, d.quantity), sig.reason);
    Execution(st.(balance := d.balance,
                  positions := UpdatePosition(st.positions, sig.symbol, Delta(sig.side, d.quantity), d.price),
                  trades := st.trades + [trade],
                  orderSeq := st.orderSeq + 1),
              Some(Fill(st.orderSeq + 1, sig.symbol, sig.side, d.quantity, d.price, ts)))
  }

  predicate Admissible(cfg: Config, sig: Signal)
  {
    && sig.side in {Buy, Sell}
    && sig.quantity.Finite? && sig.quantity.q > 0.0
    && (cfg.universe == {} || sig.symbol in cfg.universe)
  }

  function ExecuteSignal(env: Env, st: State, ts: int, sig: Signal): Execution
  {
    if !Admissible(env.cfg, sig) then Execution(st, None)
    else
      var bar := BarPrice(env, sig.symbol, ts);
      if bar.None? || !OrderTriggered(sig, bar.value) then Execution(st, None)
      else
        var deal := DealAt(env.cfg, st, sig, bar.value);
        if deal.None? then Execution(st, None) else Record(st, sig, ts, bar.value, deal.value)
  }

  // ---------------------------------------------------------------- one step

  function Portfolio(st: State): map<string, Holding>
  {
    map s | s in st.positions ::
      var p := st.positions[s];
      var current := if s in st.currentPrices then st.currentPrices[s] else p.avgPrice;
      Holding(p.quantity, p.avgPrice, current, (current - p.avgPrice) * p.quantity)
  }

  /** What the reported holdings are worth at their current prices. */
  ghost function ValueOf(view: map<string, Holding>): real
  {
    Sum(map s | s in view :: view[s].quantity * view[s].currentPrice)
  }

  /** What the reported holdings cost. */
  ghost function CostOf(view: map<string, Holding>): real
  {
    Sum(map s | s in view :: view[s].quantity * view[s].avgPrice)
  }

  /** The unrealised profit reported over all holdings. */
  ghost function ProfitOf(view: map<string, Holding>): real
  {
    Sum(map s | s in view :: view[s].unrealizedPnl)
  }

  lemma ProfitIsValueLessCost(st: State)
    ensures ProfitOf(Portfolio(st)) == ValueOf(Portfolio(st)) - CostOf(Portfolio(st))
  {
    var view := Portfolio(st);
    var costs := map s | s in view :: view[s].quantity * view[s].avgPrice;
    var values := map s | s in view :: view[s].quantity * view[s].currentPrice;
    var profits := map s | s in view :: view[s].unrealizedPnl;
    forall s | s in view ensures profits[s] == values[s] - costs[s] {
      Times(view[s].currentPrice, view[s].avgPrice, view[s].quantity);
    }
    SumDifference(costs, values, profits);
  }

  lemma Times(x: real, y: real, q: real)
    ensures (x - y) * q == q * x - q * y
  {
  }

  /** With prices refreshed for `ts`, cash and the reported holdings make up equity at `ts`. */
  lemma PortfolioAddsUp(env: Env, st: State, ts: int)
    requires st.currentPrices == Marks(env, st.positions, ts)
    ensures st.balance + ValueOf(Portfolio(st)) == Equity(env, st, ts)
  {
    var view := Portfolio(st);
    var worths := WorthAt(st.positions, s => CurrentPrice(env, s, ts));
    var values := map s | s in view :: view[s].quantity * view[s].currentPrice;
    forall s | s in view ensures values[s] == worths[s] {
      assert view[s].currentPrice == Mark(st.positions[s], CurrentPrice(env, s, ts));
    }
    assert values == worths;
  }

  function ViewAt(env: Env, st: State, ts: int): View
  {
    View(ts, map k | k in env.cache :: Visible(env.cache[k], ts), Portfolio(st), st.balance, st.trades)
  }

  /** A signal together with the strategy's reply to its fill, if there is one. */
  datatype Attempted = Attempted(st: State, filled: bool, replies: seq<Signal>)

  function Attempt(env: Env, st: State, ts: int, sig: Signal): Attempted
  {
    var done := ExecuteSignal(env, st, ts, sig);
    if done.fill.None? then Attempted(done.st, false, [])
    else
      var log := done.st.log + [FillSeen(done.fill.value, ViewAt(env, done.st, ts))];
      Attempted(done.st.(log := log), true, env.decide(log))
  }

  datatype Phase = Phase(st: State, queue: seq<Signal>)

  /** Phase 1: every on_step signal, in order; the replies are queued. */
  function StepSignals(env: Env, st: State, ts: int, signals: seq<Signal>): Phase
  {
    if signals == [] then Phase(st, [])
    else
      var before := StepSignals(env, st, ts, signals[..|signals| - 1]);
      var last := Attempt(env, before.st, ts, signals[|signals| - 1]);
      Phase(last.st, before.queue + last.replies)
  }

  /** Phase 2: the queue of replies, first in first out, until it is empty or the cap is reached. */
  function FollowUps(env: Env, st: State, ts: int, queue: seq<Signal>, fills: nat): Phase
    requires fills <= MAX_FOLLOW_UP_FILLS
    decreases MAX_FOLLOW_UP_FILLS - fills, |queue|
  {
    if queue == [] || fills >= MAX_FOLLOW_UP_FILLS then Phase(st, queue)
    else
      var head := Attempt(env, st, ts, queue[0]);
      FollowUps(env, head.st, ts, queue[1..] + head.replies, if head.filled then fills + 1 else fills)
  }

  /** The state in which on_step has been called: prices refreshed, the view observed. */
  function Observe(env: Env, st: State, ts: int): State
  {
    var priced := st.(currentPrices := Marks(env, st.positions, ts));
    priced.(log := st.log + [StepSeen(ViewAt(env, priced, ts))])
  }

  function Trading(env: Env, st: State, ts: int): State
  {
    var seen := Observe(env, st, ts);
    var first := StepSignals(env, seen, ts, env.decide(seen.log));
    FollowUps(env, first.st, ts, first.queue, 0).st
  }

  ghost function Step(env: Env, st: State, ts: int): State
  {
    var traded := Trading(env, st, ts);
    traded.(curve := traded.curve + [Point(ts, Equity(env, traded, ts), traded.balance)])
  }

  // ---------------------------------------------------------------- a run

  /** The state after the steps `from .. upTo` of the timeline. */
  ghost function Steps(env: Env, st: State, from: nat, upTo: nat): State
    requires from <= upTo <= |Timeline(env.cache)|
    decreases upTo
  {
    if from == upTo then st
    else Step(env, Steps(env, st, from, upTo - 1), Timeline(env.cache)[upTo - 1])
  }

  lemma StepsNext(env: Env, st: State, from: nat, n: nat)
    requires from <= n < |Timeline(env.cache)|
    ensures Steps(env, st, from, n + 1) == Step(env, Steps(env, st, from, n), Timeline(env.cache)[n])
  {
  }

  ghost function After(env: Env, n: nat): State
    requires n <= |Timeline(env.cache)|
  {
    Steps(env, InitialState(env.cfg), 0, n)
  }

  /** The final balance of a finished run: the equity of the last simulated bar. */
  function FinalEquity(st: State): real
  {
    if st.curve == [] then st.balance else st.curve[|st.curve| - 1].equity
  }
}
