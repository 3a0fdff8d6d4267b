/** Runs in which the fallback records a fill that never was, with an honest broker and truthful reports: one for each
    way in which something can stray into its comparison (fill_scheduler.py). */
module RecoveryRaces {
  import opened Collections
  import opened FillRecovery
  import opened PollCycle
  import opened FallbackReads
  import opened RecoveryRuns

  // ---------------------------------------------------------------- following a run event by event

  ghost predicate Goes(x: World, e: Event, y: World, opening: string -> real)
  {
    Allowed(x, e, opening) && Happen(x, e) == y
  }

  ghost predicate Linked(worlds: seq<World>, events: seq<Event>, k: int, opening: string -> real)
    requires |worlds| == |events| + 1 && 0 <= k < |events|
  {
    Goes(worlds[k], events[k], worlds[k + 1], opening)
  }

  ghost predicate Chained(worlds: seq<World>, events: seq<Event>, opening: string -> real)
  {
    && |worlds| == |events| + 1
    && forall k {:trigger Linked(worlds, events, k, opening)} ::
         0 <= k < |events| ==> Linked(worlds, events, k, opening)
  }

  /** The events are allowed one after the other and lead from `x` to `y`. */
  ghost predicate LeadsTo(x: World, events: seq<Event>, y: World, opening: string -> real)
  {
    exists worlds :: Chained(worlds, events, opening) && worlds[0] == x && worlds[|events|] == y
  }

  lemma One(x: World, e: Event, y: World, opening: string -> real)
    requires Goes(x, e, y, opening)
    ensures LeadsTo(x, [e], y, opening)
  {
    assert Chained([x, y], [e], opening);
  }

  lemma Then(x: World, a: seq<Event>, y: World, b: seq<Event>, z: World, opening: string -> real)
    requires LeadsTo(x, a, y, opening) && LeadsTo(y, b, z, opening)
    ensures LeadsTo(x, a + b, z, opening)
  {
    var u :| Chained(u, a, opening) && u[0] == x && u[|a|] == y;
    var v :| Chained(v, b, opening) && v[0] == y && v[|b|] == z;
    ChainedMore(u, a, v, b, opening);
  }

  lemma ChainedMore(u: seq<World>, a: seq<Event>, v: seq<World>, b: seq<Event>, opening: string -> real)
    requires Chained(u, a, opening) && Chained(v, b, opening) && u[|a|] == v[0]
    ensures Chained(u + v[1..], a + b, opening)
    ensures (u + v[1..])[0] == u[0] && (u + v[1..])[|a + b|] == v[|b|]
  {
    var worlds, events := u + v[1..], a + b;
    assert forall k :: 0 <= k <= |a| ==> worlds[k] == u[k];
    assert forall k :: 0 <= k <= |b| ==> worlds[|a| + k] == v[k];
    forall k | 0 <= k < |events| ensures Linked(worlds, events, k, opening) {
      if k < |a| {
        assert Linked(u, a, k, opening) && events[k] == a[k];
      } else {
        assert Linked(v, b, k - |a|, opening) && events[k] == b[k - |a|];
        assert worlds[k] == v[k - |a|] && worlds[k + 1] == v[k - |a| + 1];
      }
    }
  }

  lemma {:induction false} ChainIsRun(worlds: seq<World>, events: seq<Event>, opening: string -> real, k: nat)
    requires Chained(worlds, events, opening) && worlds[0] == Start(0) && k <= |events|
    ensures Run(0, events[..k]) == worlds[k]
  {
    if k > 0 {
      ChainIsRun(worlds, events, opening, k - 1);
      RunNext(0, events, k - 1);
      assert Linked(worlds, events, k - 1, opening);
    }
  }

  lemma LeadsToIsRun(events: seq<Event>, y: World, opening: string -> real)
    requires LeadsTo(Start(0), events, y, opening)
    ensures Fair(0, events, opening) && Run(0, events) == y
  {
    var worlds :| Chained(worlds, events, opening) && worlds[0] == Start(0) && worlds[|events|] == y;
    forall k | 0 <= k < |events| ensures Allowed(Run(0, events[..k]), events[k], opening) {
      ChainIsRun(worlds, events, opening, k);
      assert Linked(worlds, events, k, opening);
    }
    ChainIsRun(worlds, events, opening, |events|);
    assert events[..|events|] == events;
  }

  /** A world on the first day in which no order has expired yet. */
  function FirstDay(t: Table, q: seq<real>, outside: map<string, real>, phase: P.Phase, stage: Stage): World
  {
    World(P.State(t, 0, phase, []), q, outside, stage)
  }

  /** A cycle up to its fallback: the ledger shows nothing. */
  function Poll(): seq<Event>
  {
    [Poller(P.Begin), Poller(P.Read(map[]))] + [Poller(P.Answer(Some([]))), Poller(P.ApplyNext)]
  }

  function InFallback(t: Table, q: seq<real>, outside: map<string, real>, stage: Stage): World
    requires !Idle(Books(t, map[]))
  {
    FirstDay(t, q, outside, P.Recovering(0, From(Books(t, map[])), []), stage)
  }

  lemma PollsUpToFallback(t: Table, q: seq<real>, outside: map<string, real>, opening: string -> real)
    requires |q| == |t| && !Idle(Books(t, map[]))
    ensures LeadsTo(FirstDay(t, q, outside, P.Resting, Asleep), Poll(), InFallback(t, q, outside, Asleep), opening)
  {
    var from := From(Books(t, map[]));
    var x0 := FirstDay(t, q, outside, P.Resting, Asleep);
    var x1 := FirstDay(t, q, outside, P.Reading(0), Asleep);
    var x2 := FirstDay(t, q, outside, P.Fetching(0, from), Asleep);
    var x3 := FirstDay(t, q, outside, P.Applying(0, from, [], 0), Asleep);
    var x4 := InFallback(t, q, outside, Asleep);
    One(x0, Poller(P.Begin), x1, opening);
    One(x1, Poller(P.Read(map[])), x2, opening);
    One(x2, Poller(P.Answer(Some([]))), x3, opening);
    One(x3, Poller(P.ApplyNext), x4, opening);
    Both(x0, Poller(P.Begin), x1, Poller(P.Read(map[])), x2, opening);
    Both(x2, Poller(P.Answer(Some([]))), x3, Poller(P.ApplyNext), x4, opening);
    Then(x0, [Poller(P.Begin), Poller(P.Read(map[]))], x2, [Poller(P.Answer(Some([]))), Poller(P.ApplyNext)], x4,
         opening);
  }

  /** An order just submitted. */
  predicate FreshOrder(o: Order, symbol: string, buy: bool, quantity: real)
  {
    && o.odno != "" && o.symbol == symbol && symbol != "" && o.buy == buy && o.ordered == quantity > 0.0
    && o.recorded == 0.0 && o.status == Open && o.day == 0
  }

  lemma NetOfOne(a: Order, x: real, symbol: string)
    ensures Net([a], [x], symbol) == if a.symbol != symbol then 0.0 else if a.buy then x else -x
  {
    assert [a][..0] == [] && [x][..0] == [];
    assert Net([], [], symbol) == 0.0;
  }

  lemma NetOfTwo(a: Order, b: Order, x: real, y: real, symbol: string)
    ensures Net([a, b], [x, y], symbol) == Net([a], [x], symbol) + Net([b], [y], symbol)
  {
    assert [a, b][..1] == [a] && [x, y][..1] == [x];
    NetOfOne(b, y, symbol);
  }

  lemma TotalOfOne(symbol: string, quantity: real)
    requires symbol != ""
    ensures Totals([Holding(symbol, quantity)], false) == map[symbol := quantity]
    ensures Totals([], true) == map[]
  {
    assert [Holding(symbol, quantity)][..0] == [] && Totals([], false) == map[];
  }

  // ---------------------------------------------------------------- single events

  lemma Submits(t: Table, q: seq<real>, outside: map<string, real>, phase: P.Phase, stage: Stage, o: Order,
                opening: string -> real)
    requires |q| == |t| && !phase.Applying? && P.New(t, o, 0) && forall i :: 0 <= i < |t| ==> t[i].odno != o.odno
    ensures LeadsTo(FirstDay(t, q, outside, phase, stage), [Poller(P.Submit(o))],
                    FirstDay(t + [o], q + [0.0], outside, phase, stage), opening)
  {
    assert Padded(q, |t| + 1) == q + [0.0];
    One(FirstDay(t, q, outside, phase, stage), Poller(P.Submit(o)),
        FirstDay(t + [o], q + [0.0], outside, phase, stage), opening);
  }

  lemma Trades(t: Table, q: seq<real>, outside: map<string, real>, phase: P.Phase, stage: Stage, i: nat, filled: real,
               opening: string -> real)
    requires |q| == |t| && i < |t| && q[i] <= filled <= t[i].ordered
    ensures LeadsTo(FirstDay(t, q, outside, phase, stage), [Trade(i, filled)],
                    FirstDay(t, q[i := filled], outside, phase, stage), opening)
  {
    One(FirstDay(t, q, outside, phase, stage), Trade(i, filled),
        FirstDay(t, q[i := filled], outside, phase, stage), opening);
  }

  lemma Cancels(t: Table, q: seq<real>, outside: map<string, real>, phase: P.Phase, stage: Stage, i: nat,
                opening: string -> real)
    requires |q| == |t| && i < |t| && t[i].status == Open
    ensures LeadsTo(FirstDay(t, q, outside, phase, stage), [Poller(P.Cancel(i))],
                    FirstDay(t[i := t[i].(status := Cancelled)], q, outside, phase, stage), opening)
  {
    One(FirstDay(t, q, outside, phase, stage), Poller(P.Cancel(i)),
        FirstDay(t[i := t[i].(status := Cancelled)], q, outside, phase, stage), opening);
  }

  /** The order's full fill is reported, and it is live. */
  lemma ReportsFill(t: Table, q: seq<real>, outside: map<string, real>, phase: P.Phase, stage: Stage, i: nat,
                    opening: string -> real)
    requires |q| == |t| && i < |t| && Tracked(t) && Live(t[i]) && q[i] == t[i].ordered && t[i].recorded < t[i].ordered
    ensures LeadsTo(FirstDay(t, q, outside, phase, stage), [Poller(P.Fill(FullFill(t[i])))],
                    FirstDay(t[i := Completed(t[i])], q, outside, phase, stage), opening)
  {
    LookupSelf(t, i);
    assert Matches(t[i], t[i].odno, t[i].day);
    assert Truthful(t, q, FullFill(t[i]));
    One(FirstDay(t, q, outside, phase, stage), Poller(P.Fill(FullFill(t[i]))),
        FirstDay(t[i := Completed(t[i])], q, outside, phase, stage), opening);
  }

  lemma Opens(t: Table, q: seq<real>, outside: map<string, real>, phase: P.Phase, opening: string -> real)
    requires |q| == |t| && phase.Recovering? && Wanted(t)
    ensures LeadsTo(FirstDay(t, q, outside, phase, Asleep), [ReadOpen(true)],
                    FirstDay(t, q, outside, phase, Looked(t)), opening)
  {
    One(FirstDay(t, q, outside, phase, Asleep), ReadOpen(true),
        FirstDay(t, q, outside, phase, Looked(t)), opening);
  }

  lemma Counts(t: Table, q: seq<real>, outside: map<string, real>, phase: P.Phase, open: Table, rows: seq<Holding>,
               opening: string -> real)
    requires |q| == |t| && ShowsAccount(Totals(rows, false), Account(t, q, outside), opening)
    ensures LeadsTo(FirstDay(t, q, outside, phase, Looked(open)), [ReadPositions(Some(rows))],
                    FirstDay(t, q, outside, phase, Counted(open, Account(t, q, outside), Totals(rows, false))), opening)
  {
    One(FirstDay(t, q, outside, phase, Looked(open)), ReadPositions(Some(rows)),
        FirstDay(t, q, outside, phase, Counted(open, Account(t, q, outside), Totals(rows, false))), opening);
  }

  lemma Looks(t: Table, q: seq<real>, outside: map<string, real>, phase: P.Phase, open: Table, held: Account,
              broker: map<string, real>, rows: seq<Holding>, opening: string -> real)
    requires |q| == |t| && ShowsRecords(Totals(rows, true), t, opening)
    ensures LeadsTo(FirstDay(t, q, outside, phase, Counted(open, held, broker)), [ReadBooks(Some(rows))],
                    FirstDay(t, q, outside, phase, Comparing(Reads(open, held, broker, t, Totals(rows, true)), 0)),
                    opening)
  {
    One(FirstDay(t, q, outside, phase, Counted(open, held, broker)), ReadBooks(Some(rows)),
        FirstDay(t, q, outside, phase, Comparing(Reads(open, held, broker, t, Totals(rows, true)), 0)), opening);
  }

  lemma SubmitsFirst(a: Order, opening: string -> real)
    requires FreshOrder(a, a.symbol, a.buy, a.ordered)
    ensures LeadsTo(Start(0), [Poller(P.Submit(a))], FirstDay([a], [0.0], map[], P.Resting, Asleep), opening)
  {
    assert Start(0) == FirstDay([], [], map[], P.Resting, Asleep);
    assert [] + [a] == [a] && [] + [0.0] == [0.0];
    Submits([], [], map[], P.Resting, Asleep, a, opening);
  }

  lemma Compares(t: Table, q: seq<real>, outside: map<string, real>, r: Reads, i: nat, phase: P.Phase,
                 opening: string -> real)
    requires |q| == |t| && Tracked(t) && i < |t| && i < |r.open| && r.open[i] == t[i]
    requires Fires(r.open, i, r.broker, r.book)
    ensures var x := FirstDay(t, q, outside, phase, Comparing(r, i));
            var y := FirstDay(t[i := Completed(t[i])], q, outside, phase, Comparing(r, i + 1));
            LeadsTo(x, [CompareNext], y, opening)
  {
    FullFillCompletes(t, i);
    var x := FirstDay(t, q, outside, phase, Comparing(r, i));
    One(x, CompareNext, Happen(x, CompareNext), opening);
  }

  /** A comparison that finds no match goes on to the next order. */
  lemma Passes(t: Table, q: seq<real>, outside: map<string, real>, r: Reads, i: nat, phase: P.Phase,
               opening: string -> real)
    requires |q| == |t| && i < |r.open| && !(r.open[i].buy && Live(r.open[i]))
    ensures LeadsTo(FirstDay(t, q, outside, phase, Comparing(r, i)), [CompareNext],
                    FirstDay(t, q, outside, phase, Comparing(r, i + 1)), opening)
  {
    One(FirstDay(t, q, outside, phase, Comparing(r, i)), CompareNext,
        FirstDay(t, q, outside, phase, Comparing(r, i + 1)), opening);
  }

  lemma TwoFresh(a: Order, b: Order)
    requires FreshOrder(a, a.symbol, a.buy, a.ordered) && FreshOrder(b, b.symbol, b.buy, b.ordered) && a.odno != b.odno
    ensures Tracked([a, b])
  {
  }

  lemma OnlyBuy(t: Table, i: nat)
    requires i < |t| <= 2 && t[i].buy && Live(t[i])
    requires forall j :: 0 <= j < |t| && j != i ==> !(t[j].buy && Live(t[j]))
    ensures LiveBuys(t, t[i].symbol) == 1
  {
    assert LiveBuys([], t[i].symbol) == 0;
    if |t| == 2 { assert t[..1][..0] == [] && t[..1][0] == t[0]; } else { assert t[..0] == []; }
  }

  lemma Both(x: World, d: Event, y: World, e: Event, z: World, opening: string -> real)
    requires LeadsTo(x, [d], y, opening) && LeadsTo(y, [e], z, opening)
    ensures LeadsTo(x, [d, e], z, opening)
  {
    Then(x, [d], y, [e], z, opening);
    assert [d] + [e] == [d, e];
  }

  /** The positions and then the books are read, nothing happening in between. */
  lemma CountsAndLooks(t: Table, q: seq<real>, outside: map<string, real>, phase: P.Phase, open: Table,
                       symbol: string, quantity: real, opening: string -> real)
    requires |q| == |t| && symbol != "" && ShowsRecords(map[], t, opening)
    requires ShowsAccount(map[symbol := quantity], Account(t, q, outside), opening)
    ensures var r := Reads(open, Account(t, q, outside), map[symbol := quantity], t, map[]);
            LeadsTo(FirstDay(t, q, outside, phase, Looked(open)),
                    [ReadPositions(Some([Holding(symbol, quantity)])), ReadBooks(Some([]))],
                    FirstDay(t, q, outside, phase, Comparing(r, 0)), opening)
  {
    var rows, held, broker := [Holding(symbol, quantity)], Account(t, q, outside), map[symbol := quantity];
    TotalOfOne(symbol, quantity);
    Counts(t, q, outside, phase, open, rows, opening);
    Looks(t, q, outside, phase, open, held, broker, [], opening);
    Both(FirstDay(t, q, outside, phase, Looked(open)), ReadPositions(Some(rows)),
         FirstDay(t, q, outside, phase, Counted(open, held, broker)), ReadBooks(Some([])),
         FirstDay(t, q, outside, phase, Comparing(Reads(open, held, broker, t, map[]), 0)), opening);
  }

  /** A run from the start: what comes before a poll, the poll, and its fallback. */
  lemma Whole(head: seq<Event>, t: Table, q: seq<real>, outside: map<string, real>, tail: seq<Event>, end: World,
              opening: string -> real)
    requires |q| == |t| && !Idle(Books(t, map[]))
    requires LeadsTo(Start(0), head, FirstDay(t, q, outside, P.Resting, Asleep), opening)
    requires LeadsTo(InFallback(t, q, outside, Asleep), tail, end, opening)
    ensures Fair(0, head + Poll() + tail, opening) && Run(0, head + Poll() + tail) == end
  {
    PollsUpToFallback(t, q, outside, opening);
    Then(Start(0), head, FirstDay(t, q, outside, P.Resting, Asleep), Poll(), InFallback(t, q, outside, Asleep),
         opening);
    Then(Start(0), head + Poll(), InFallback(t, q, outside, Asleep), tail, end, opening);
    LeadsToIsRun(head + Poll() + tail, end, opening);
  }

  // ---------------------------------------------------------------- a buy submitted between the reads

  /** Order `a` is open when the open orders are read; `b` is submitted and filled before the positions are. */
  function LaterBuyEvents(a: Order, b: Order): seq<Event>
  {
    [Poller(P.Submit(a))] + Poll() + (LaterBuyArrival(b) + LaterBuyReads(b) + [CompareNext])
  }

  function LaterBuyArrival(b: Order): seq<Event> { [ReadOpen(true)] + [Poller(P.Submit(b)), Trade(1, b.ordered)] }

  function LaterBuyReads(b: Order): seq<Event>
  {
    [ReadPositions(Some([Holding(b.symbol, b.ordered)])), ReadBooks(Some([]))]
  }

  lemma LaterBuyArrives(a: Order, b: Order, phase: P.Phase, opening: string -> real)
    requires FreshOrder(a, a.symbol, true, a.ordered) && FreshOrder(b, a.symbol, true, a.ordered) && a.odno != b.odno
    requires phase.Recovering?
    ensures LeadsTo(FirstDay([a], [0.0], map[], phase, Asleep), LaterBuyArrival(b),
                    FirstDay([a, b], [0.0, b.ordered], map[], phase, Looked([a])), opening)
  {
    var x0, x1 := FirstDay([a], [0.0], map[], phase, Asleep), FirstDay([a], [0.0], map[], phase, Looked([a]));
    var x2 := FirstDay([a, b], [0.0, 0.0], map[], phase, Looked([a]));
    var x3 := FirstDay([a, b], [0.0, b.ordered], map[], phase, Looked([a]));
    assert Unrecovered([a][0]);
    assert [a] + [b] == [a, b] && [0.0] + [0.0] == [0.0, 0.0] && [0.0, 0.0][1 := b.ordered] == [0.0, b.ordered];
    Opens([a], [0.0], map[], phase, opening);
    Submits([a], [0.0], map[], phase, Looked([a]), b, opening);
    Trades([a, b], [0.0, 0.0], map[], phase, Looked([a]), 1, b.ordered, opening);
    Both(x1, Poller(P.Submit(b)), x2, Trade(1, b.ordered), x3, opening);
    Then(x0, [ReadOpen(true)], x1, [Poller(P.Submit(b)), Trade(1, b.ordered)], x3, opening);
  }

  lemma LaterBuyShown(a: Order, b: Order, opening: string -> real)
    requires FreshOrder(a, a.symbol, true, a.ordered) && FreshOrder(b, a.symbol, true, a.ordered)
    requires forall s :: opening(s) == 0.0
    ensures ShowsAccount(map[b.symbol := b.ordered], Account([a, b], [0.0, b.ordered], map[]), opening)
    ensures ShowsRecords(map[], [a, b], opening)
  {
    assert Recorded([a, b]) == [0.0, 0.0];
    forall s
      ensures At(map[b.symbol := b.ordered], s) == opening(s) + Net([a, b], [0.0, b.ordered], s) + At(map[], s)
      ensures At(map[], s) == opening(s) + Net([a, b], [0.0, 0.0], s)
    {
      NetOfTwo(a, b, 0.0, b.ordered, s);
      NetOfTwo(a, b, 0.0, 0.0, s);
      NetOfOne(a, 0.0, s);
      NetOfOne(b, 0.0, s);
      NetOfOne(b, b.ordered, s);
    }
  }

  lemma LaterBuyFires(a: Order, b: Order, phase: P.Phase, opening: string -> real) returns (end: World)
    requires FreshOrder(a, a.symbol, true, a.ordered) && FreshOrder(b, a.symbol, true, a.ordered) && a.odno != b.odno
    requires forall s :: opening(s) == 0.0
    ensures LeadsTo(FirstDay([a, b], [0.0, b.ordered], map[], phase, Looked([a])), LaterBuyReads(b) + [CompareNext],
                    end, opening)
    ensures end.poll.table == [Completed(a), b] && end.q == [0.0, b.ordered]
  {
    var t, q := [a, b], [0.0, b.ordered];
    var r := Reads([a], Account(t, q, map[]), map[b.symbol := b.ordered], t, map[]);
    end := FirstDay(t[0 := Completed(a)], q, map[], phase, Comparing(r, 1));
    LaterBuyShown(a, b, opening);
    CountsAndLooks(t, q, map[], phase, [a], b.symbol, b.ordered, opening);
    OnlyBuy([a], 0);
    TwoFresh(a, b);
    Compares(t, q, map[], r, 0, phase, opening);
    Then(FirstDay(t, q, map[], phase, Looked([a])), LaterBuyReads(b), FirstDay(t, q, map[], phase, Comparing(r, 0)),
         [CompareNext], end, opening);
  }

  lemma LaterBuy(a: Order, b: Order)
    requires FreshOrder(a, a.symbol, true, a.ordered) && FreshOrder(b, a.symbol, true, a.ordered) && a.odno != b.odno
    ensures var y := Run(0, LaterBuyEvents(a, b));
            && Fair(0, LaterBuyEvents(a, b), s => 0.0)
            && y.poll.table == [Completed(a), b] && y.q == [0.0, b.ordered] && !Within(y)
  {
    var opening: string -> real := s => 0.0;
    assert Live([a][0]);
    var mid := InFallback([a], [0.0], map[], Asleep);
    var end := LaterBuyFires(a, b, mid.poll.phase, opening);
    LaterBuyArrives(a, b, mid.poll.phase, opening);
    Then(mid, LaterBuyArrival(b), FirstDay([a, b], [0.0, b.ordered], map[], mid.poll.phase, Looked([a])),
         LaterBuyReads(b) + [CompareNext], end, opening);
    var tail := LaterBuyArrival(b) + LaterBuyReads(b) + [CompareNext];
    assert tail == LaterBuyArrival(b) + (LaterBuyReads(b) + [CompareNext]);
    SubmitsFirst(a, opening);
    Whole([Poller(P.Submit(a))], [a], [0.0], map[], tail, end, opening);
    assert end.poll.table[0] == Completed(a) && end.q[0] == 0.0;
  }

  // ---------------------------------------------------------------- a sell recorded between the reads

  /** The account starts with what `sale` sells. It is still there when the positions are read; it is sold and recorded
      before the books are. */
  function RecordedSellEvents(sale: Order, a: Order): seq<Event>
  {
    [Poller(P.Submit(sale)), Poller(P.Submit(a))] + Poll()
    + ([ReadOpen(true), ReadPositions(Some([Holding(a.symbol, a.ordered)]))]
       + ([Trade(0, sale.ordered), Poller(P.Fill(FullFill(sale)))]
          + ([ReadBooks(Some([]))] + [CompareNext, CompareNext])))
  }

  lemma TwoSubmitted(a: Order, b: Order, opening: string -> real)
    requires FreshOrder(a, a.symbol, a.buy, a.ordered) && FreshOrder(b, b.symbol, b.buy, b.ordered) && a.odno != b.odno
    ensures LeadsTo(Start(0), [Poller(P.Submit(a)), Poller(P.Submit(b))],
                    FirstDay([a, b], [0.0, 0.0], map[], P.Resting, Asleep), opening)
  {
    SubmitsFirst(a, opening);
    Submits([a], [0.0], map[], P.Resting, Asleep, b, opening);
    assert [a] + [b] == [a, b] && [0.0] + [0.0] == [0.0, 0.0];
    Both(Start(0), Poller(P.Submit(a)), FirstDay([a], [0.0], map[], P.Resting, Asleep), Poller(P.Submit(b)),
         FirstDay([a, b], [0.0, 0.0], map[], P.Resting, Asleep), opening);
  }

  lemma RecordedSellShown(sale: Order, a: Order, opening: string -> real)
    requires FreshOrder(sale, a.symbol, false, a.ordered) && FreshOrder(a, a.symbol, true, a.ordered)
    requires forall s :: opening(s) == if s == a.symbol then a.ordered else 0.0
    ensures ShowsAccount(map[a.symbol := a.ordered], Account([sale, a], [0.0, 0.0], map[]), opening)
    ensures ShowsRecords(map[], [Completed(sale), a], opening)
  {
    assert Recorded([Completed(sale), a]) == [sale.ordered, 0.0];
    forall s
      ensures At(map[a.symbol := a.ordered], s) == opening(s) + Net([sale, a], [0.0, 0.0], s) + At(map[], s)
      ensures At(map[], s) == opening(s) + Net([Completed(sale), a], [sale.ordered, 0.0], s)
    {
      NetOfTwo(sale, a, 0.0, 0.0, s);
      NetOfTwo(Completed(sale), a, sale.ordered, 0.0, s);
      NetOfOne(sale, 0.0, s);
      NetOfOne(Completed(sale), sale.ordered, s);
      NetOfOne(a, 0.0, s);
    }
  }

  lemma CompletedTracked(sale: Order, a: Order)
    requires Tracked([sale, a])
    ensures Tracked([Completed(sale), a])
  {
    assert [sale, a][0] == sale && [sale, a][1] == a;
  }

  lemma SellIsCounted(sale: Order, a: Order, phase: P.Phase, opening: string -> real)
    requires FreshOrder(sale, a.symbol, false, a.ordered) && FreshOrder(a, a.symbol, true, a.ordered)
    requires phase.Recovering? && forall s :: opening(s) == if s == a.symbol then a.ordered else 0.0
    ensures var t := [sale, a];
            var stage := Counted(t, Account(t, [0.0, 0.0], map[]), map[a.symbol := a.ordered]);
            LeadsTo(FirstDay(t, [0.0, 0.0], map[], phase, Asleep),
                    [ReadOpen(true), ReadPositions(Some([Holding(a.symbol, a.ordered)]))],
                    FirstDay(t, [0.0, 0.0], map[], phase, stage), opening)
  {
    var t, q, rows := [sale, a], [0.0, 0.0], [Holding(a.symbol, a.ordered)];
    assert Unrecovered(t[1]);
    TotalOfOne(a.symbol, a.ordered);
    RecordedSellShown(sale, a, opening);
    Opens(t, q, map[], phase, opening);
    Counts(t, q, map[], phase, t, rows, opening);
    Both(FirstDay(t, q, map[], phase, Asleep), ReadOpen(true), FirstDay(t, q, map[], phase, Looked(t)),
         ReadPositions(Some(rows)),
         FirstDay(t, q, map[], phase, Counted(t, Account(t, q, map[]), map[a.symbol := a.ordered])), opening);
  }

  lemma SellIsRecorded(sale: Order, a: Order, phase: P.Phase, stage: Stage, opening: string -> real)
    requires FreshOrder(sale, a.symbol, false, a.ordered) && FreshOrder(a, a.symbol, true, a.ordered)
    requires sale.odno != a.odno
    ensures LeadsTo(FirstDay([sale, a], [0.0, 0.0], map[], phase, stage),
                    [Trade(0, sale.ordered), Poller(P.Fill(FullFill(sale)))],
                    FirstDay([Completed(sale), a], [sale.ordered, 0.0], map[], phase, stage), opening)
  {
    var t, q := [sale, a], [sale.ordered, 0.0];
    TwoFresh(sale, a);
    assert [0.0, 0.0][0 := sale.ordered] == q && t[0 := Completed(sale)] == [Completed(sale), a];
    Trades(t, [0.0, 0.0], map[], phase, stage, 0, sale.ordered, opening);
    ReportsFill(t, q, map[], phase, stage, 0, opening);
    Both(FirstDay(t, [0.0, 0.0], map[], phase, stage), Trade(0, sale.ordered), FirstDay(t, q, map[], phase, stage),
         Poller(P.Fill(FullFill(sale))), FirstDay([Completed(sale), a], q, map[], phase, stage), opening);
  }

  /** The first of two orders is no candidate, the second is completed. */
  lemma SecondFires(t: Table, q: seq<real>, r: Reads, phase: P.Phase, opening: string -> real)
    requires |q| == |t| == |r.open| == 2 && Tracked(t) && r.open[1] == t[1] && !(r.open[0].buy && Live(r.open[0]))
    requires Fires(r.open, 1, r.broker, r.book)
    ensures LeadsTo(FirstDay(t, q, map[], phase, Comparing(r, 0)), [CompareNext, CompareNext],
                    FirstDay(t[1 := Completed(t[1])], q, map[], phase, Comparing(r, 2)), opening)
  {
    Passes(t, q, map[], r, 0, phase, opening);
    Compares(t, q, map[], r, 1, phase, opening);
    Both(FirstDay(t, q, map[], phase, Comparing(r, 0)), CompareNext, FirstDay(t, q, map[], phase, Comparing(r, 1)),
         CompareNext, FirstDay(t[1 := Completed(t[1])], q, map[], phase, Comparing(r, 2)), opening);
  }

  lemma SellMisleads(sale: Order, a: Order, phase: P.Phase, opening: string -> real) returns (end: World)
    requires FreshOrder(sale, a.symbol, false, a.ordered) && FreshOrder(a, a.symbol, true, a.ordered)
    requires sale.odno != a.odno && forall s :: opening(s) == if s == a.symbol then a.ordered else 0.0
    ensures var t := [sale, a];
            var stage := Counted(t, Account(t, [0.0, 0.0], map[]), map[a.symbol := a.ordered]);
            LeadsTo(FirstDay([Completed(sale), a], [sale.ordered, 0.0], map[], phase, stage),
                    [ReadBooks(Some([]))] + [CompareNext, CompareNext], end, opening)
    ensures end.poll.table == [Completed(sale), Completed(a)] && end.q == [sale.ordered, 0.0]
  {
    var t, u, q := [sale, a], [Completed(sale), a], [sale.ordered, 0.0];
    var held, broker := Account(t, [0.0, 0.0], map[]), map[a.symbol := a.ordered];
    var r := Reads(t, held, broker, u, map[]);
    end := FirstDay(u[1 := Completed(a)], q, map[], phase, Comparing(r, 2));
    TwoFresh(sale, a);
    CompletedTracked(sale, a);
    TotalOfOne(a.symbol, a.ordered);
    RecordedSellShown(sale, a, opening);
    OnlyBuy(t, 1);
    Looks(u, q, map[], phase, t, held, broker, [], opening);
    SecondFires(u, q, r, phase, opening);
    Then(FirstDay(u, q, map[], phase, Counted(t, held, broker)), [ReadBooks(Some([]))],
         FirstDay(u, q, map[], phase, Comparing(r, 0)), [CompareNext, CompareNext], end, opening);
  }

  lemma RecordedSell(sale: Order, a: Order)
    requires FreshOrder(sale, a.symbol, false, a.ordered) && FreshOrder(a, a.symbol, true, a.ordered)
    requires sale.odno != a.odno
    ensures var y := Run(0, RecordedSellEvents(sale, a));
            && Fair(0, RecordedSellEvents(sale, a), s => if s == a.symbol then a.ordered else 0.0)
            && y.poll.table == [Completed(sale), Completed(a)] && y.q == [sale.ordered, 0.0] && !Within(y)
  {
    var opening: string -> real := s => if s == a.symbol then a.ordered else 0.0;
    var t, none := [sale, a], [0.0, 0.0];
    assert Live(t[1]);
    var mid := InFallback(t, none, map[], Asleep);
    var phase := mid.poll.phase;
    var stage := Counted(t, Account(t, none, map[]), map[a.symbol := a.ordered]);
    var reading := [ReadOpen(true), ReadPositions(Some([Holding(a.symbol, a.ordered)]))];
    var selling := [Trade(0, sale.ordered), Poller(P.Fill(FullFill(sale)))];
    var comparing := [ReadBooks(Some([]))] + [CompareNext, CompareNext];
    var end := SellMisleads(sale, a, phase, opening);
    SellIsCounted(sale, a, phase, opening);
    SellIsRecorded(sale, a, phase, stage, opening);
    Then(FirstDay(t, none, map[], phase, stage), selling,
         FirstDay([Completed(sale), a], [sale.ordered, 0.0], map[], phase, stage), comparing, end, opening);
    Then(mid, reading, FirstDay(t, none, map[], phase, stage), selling + comparing, end, opening);
    TwoSubmitted(sale, a, opening);
    Whole([Poller(P.Submit(sale)), Poller(P.Submit(a))], t, none, map[], reading + (selling + comparing), end, opening);
    assert end.poll.table[1] == Completed(a) && end.q[1] == 0.0;
  }

  // ---------------------------------------------------------------- a buy finished before its fill is recorded

  /** `hidden` is filled at the broker and cancelled here before the ledger shows it; `a` is not filled. */
  function HiddenBuyEvents(hidden: Order, a: Order): seq<Event>
  {
    [Poller(P.Submit(hidden)), Trade(0, hidden.ordered)] + [Poller(P.Cancel(0)), Poller(P.Submit(a))] + Poll()
    + ([ReadOpen(true)] + (LaterBuyReads(a) + [CompareNext, CompareNext]))
  }

  lemma HiddenBuyShown(gone: Order, a: Order, opening: string -> real)
    requires gone.buy && a.buy && gone.symbol == a.symbol && gone.recorded == a.recorded == 0.0
    requires forall s :: opening(s) == 0.0
    ensures ShowsAccount(map[a.symbol := a.ordered], Account([gone, a], [a.ordered, 0.0], map[]), opening)
    ensures ShowsRecords(map[], [gone, a], opening)
  {
    assert Recorded([gone, a]) == [0.0, 0.0];
    forall s
      ensures At(map[a.symbol := a.ordered], s) == opening(s) + Net([gone, a], [a.ordered, 0.0], s) + At(map[], s)
      ensures At(map[], s) == opening(s) + Net([gone, a], [0.0, 0.0], s)
    {
      NetOfTwo(gone, a, a.ordered, 0.0, s);
      NetOfTwo(gone, a, 0.0, 0.0, s);
      NetOfOne(gone, a.ordered, s);
      NetOfOne(gone, 0.0, s);
      NetOfOne(a, 0.0, s);
    }
  }

  lemma CancelledTracked(hidden: Order, a: Order)
    requires Tracked([hidden, a])
    ensures Tracked([hidden.(status := Cancelled), a])
  {
    assert [hidden, a][0] == hidden && [hidden, a][1] == a;
  }

  lemma HiddenBuyFilled(hidden: Order, opening: string -> real)
    requires FreshOrder(hidden, hidden.symbol, true, hidden.ordered)
    ensures LeadsTo(Start(0), [Poller(P.Submit(hidden)), Trade(0, hidden.ordered)],
                    FirstDay([hidden], [hidden.ordered], map[], P.Resting, Asleep), opening)
  {
    assert [0.0][0 := hidden.ordered] == [hidden.ordered];
    SubmitsFirst(hidden, opening);
    Trades([hidden], [0.0], map[], P.Resting, Asleep, 0, hidden.ordered, opening);
    Both(Start(0), Poller(P.Submit(hidden)), FirstDay([hidden], [0.0], map[], P.Resting, Asleep),
         Trade(0, hidden.ordered), FirstDay([hidden], [hidden.ordered], map[], P.Resting, Asleep), opening);
  }

  lemma HiddenBuyCancelled(hidden: Order, a: Order, opening: string -> real)
    requires FreshOrder(hidden, a.symbol, true, a.ordered) && FreshOrder(a, a.symbol, true, a.ordered)
    requires hidden.odno != a.odno
    ensures var gone := hidden.(status := Cancelled);
            LeadsTo(FirstDay([hidden], [hidden.ordered], map[], P.Resting, Asleep),
                    [Poller(P.Cancel(0)), Poller(P.Submit(a))],
                    FirstDay([gone, a], [hidden.ordered, 0.0], map[], P.Resting, Asleep), opening)
  {
    var gone, q := hidden.(status := Cancelled), [hidden.ordered];
    assert [hidden][0 := gone] == [gone] && [gone] + [a] == [gone, a] && q + [0.0] == [hidden.ordered, 0.0];
    Cancels([hidden], q, map[], P.Resting, Asleep, 0, opening);
    Submits([gone], q, map[], P.Resting, Asleep, a, opening);
    Both(FirstDay([hidden], q, map[], P.Resting, Asleep), Poller(P.Cancel(0)),
         FirstDay([gone], q, map[], P.Resting, Asleep), Poller(P.Submit(a)),
         FirstDay([gone, a], [hidden.ordered, 0.0], map[], P.Resting, Asleep), opening);
  }

  lemma HiddenBuyMisleads(gone: Order, a: Order, phase: P.Phase, opening: string -> real) returns (end: World)
    requires Tracked([gone, a]) && gone.buy && gone.symbol == a.symbol && !Live(gone) && gone.recorded == 0.0
    requires FreshOrder(a, a.symbol, true, a.ordered) && forall s :: opening(s) == 0.0
    ensures LeadsTo(FirstDay([gone, a], [a.ordered, 0.0], map[], phase, Looked([gone, a])),
                    LaterBuyReads(a) + [CompareNext, CompareNext], end, opening)
    ensures end.poll.table == [gone, Completed(a)] && end.q == [a.ordered, 0.0]
  {
    var t, q := [gone, a], [a.ordered, 0.0];
    var r := Reads(t, Account(t, q, map[]), map[a.symbol := a.ordered], t, map[]);
    end := FirstDay(t[1 := Completed(a)], q, map[], phase, Comparing(r, 2));
    HiddenBuyShown(gone, a, opening);
    CountsAndLooks(t, q, map[], phase, t, a.symbol, a.ordered, opening);
    OnlyBuy(t, 1);
    SecondFires(t, q, r, phase, opening);
    Then(FirstDay(t, q, map[], phase, Looked(t)), LaterBuyReads(a), FirstDay(t, q, map[], phase, Comparing(r, 0)),
         [CompareNext, CompareNext], end, opening);
  }

  lemma HiddenBuy(hidden: Order, a: Order)
    requires FreshOrder(hidden, a.symbol, true, a.ordered) && FreshOrder(a, a.symbol, true, a.ordered)
    requires hidden.odno != a.odno
    ensures var y := Run(0, HiddenBuyEvents(hidden, a));
            && Fair(0, HiddenBuyEvents(hidden, a), s => 0.0)
            && y.poll.table == [hidden.(status := Cancelled), Completed(a)] && y.q == [a.ordered, 0.0] && !Within(y)
  {
    var opening: string -> real := s => 0.0;
    var gone, filling := hidden.(status := Cancelled), [Poller(P.Submit(hidden)), Trade(0, hidden.ordered)];
    var cancelling := [Poller(P.Cancel(0)), Poller(P.Submit(a))];
    var comparing := LaterBuyReads(a) + [CompareNext, CompareNext];
    var t, q := [gone, a], [a.ordered, 0.0];
    assert Live(t[1]) && Unrecovered(t[1]);
    var mid := InFallback(t, q, map[], Asleep);
    TwoFresh(hidden, a);
    CancelledTracked(hidden, a);
    var end := HiddenBuyMisleads(gone, a, mid.poll.phase, opening);
    HiddenBuyFilled(hidden, opening);
    HiddenBuyCancelled(hidden, a, opening);
    Then(Start(0), filling, FirstDay([hidden], [hidden.ordered], map[], P.Resting, Asleep), cancelling,
         FirstDay(t, q, map[], P.Resting, Asleep), opening);
    Opens(t, q, map[], mid.poll.phase, opening);
    Then(mid, [ReadOpen(true)], FirstDay(t, q, map[], mid.poll.phase, Looked(t)), comparing, end, opening);
    Whole(filling + cancelling, t, q, map[], [ReadOpen(true)] + comparing, end, opening);
    assert end.poll.table[1] == Completed(a) && end.q[1] == 0.0;
  }

  // ---------------------------------------------------------------- a purchase outside

  /** Someone else buys what `a` ordered. */
  function OutsideBuyEvents(a: Order): seq<Event>
  {
    [Poller(P.Submit(a)), Elsewhere(a.symbol, a.ordered)] + Poll()
    + ([ReadOpen(true)] + (LaterBuyReads(a) + [CompareNext]))
  }

  lemma OutsideBuyShown(a: Order, opening: string -> real)
    requires forall s :: opening(s) == 0.0
    requires a.recorded == 0.0
    ensures ShowsAccount(map[a.symbol := a.ordered], Account([a], [0.0], map[a.symbol := a.ordered]), opening)
    ensures ShowsRecords(map[], [a], opening)
  {
    assert Recorded([a]) == [0.0];
    forall s ensures Net([a], [0.0], s) == 0.0 {
      NetOfOne(a, 0.0, s);
    }
  }

  lemma OutsideBuyMisleads(a: Order, phase: P.Phase, opening: string -> real) returns (end: World)
    requires FreshOrder(a, a.symbol, true, a.ordered) && forall s :: opening(s) == 0.0
    ensures LeadsTo(FirstDay([a], [0.0], map[a.symbol := a.ordered], phase, Looked([a])),
                    LaterBuyReads(a) + [CompareNext], end, opening)
    ensures end.poll.table == [Completed(a)] && end.q == [0.0]
  {
    var t, q, outside := [a], [0.0], map[a.symbol := a.ordered];
    var r := Reads(t, Account(t, q, outside), outside, t, map[]);
    end := FirstDay(t[0 := Completed(a)], q, outside, phase, Comparing(r, 1));
    OutsideBuyShown(a, opening);
    CountsAndLooks(t, q, outside, phase, t, a.symbol, a.ordered, opening);
    OnlyBuy(t, 0);
    Compares(t, q, outside, r, 0, phase, opening);
    Then(FirstDay(t, q, outside, phase, Looked(t)), LaterBuyReads(a), FirstDay(t, q, outside, phase, Comparing(r, 0)),
         [CompareNext], end, opening);
  }

  lemma OutsideBuy(a: Order)
    requires FreshOrder(a, a.symbol, true, a.ordered)
    ensures var y := Run(0, OutsideBuyEvents(a));
            && Fair(0, OutsideBuyEvents(a), s => 0.0)
            && y.poll.table == [Completed(a)] && y.q == [0.0] && !Within(y)
  {
    var opening: string -> real := s => 0.0;
    var outside, comparing := map[a.symbol := a.ordered], LaterBuyReads(a) + [CompareNext];
    var x := FirstDay([a], [0.0], map[], P.Resting, Asleep);
    assert Live([a][0]) && Unrecovered([a][0]);
    var mid := InFallback([a], [0.0], outside, Asleep);
    var end := OutsideBuyMisleads(a, mid.poll.phase, opening);
    SubmitsFirst(a, opening);
    One(x, Elsewhere(a.symbol, a.ordered), FirstDay([a], [0.0], outside, P.Resting, Asleep), opening);
    Both(Start(0), Poller(P.Submit(a)), x, Elsewhere(a.symbol, a.ordered),
         FirstDay([a], [0.0], outside, P.Resting, Asleep), opening);
    Opens([a], [0.0], outside, mid.poll.phase, opening);
    Then(mid, [ReadOpen(true)], FirstDay([a], [0.0], outside, mid.poll.phase, Looked([a])), comparing, end, opening);
    Whole([Poller(P.Submit(a)), Elsewhere(a.symbol, a.ordered)], [a], [0.0], outside, [ReadOpen(true)] + comparing, end,
          opening);
    assert end.poll.table[0] == Completed(a) && end.q[0] == 0.0;
  }
}
