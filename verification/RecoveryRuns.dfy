/** Recorded against true fills over every run: each await of a poll cycle and of its position fallback is a move of
    its own, and orders, fills, cancellations and outside trades may fall between any two (fill_scheduler.py). */
module RecoveryRuns {
  import opened Collections
  import opened FillRecovery
  import opened PollCycle
  import opened FallbackReads
  import P = PollRuns

  /** Where the fallback stands: not running, or what it has read so far. */
  datatype Stage =
    | Asleep
    | Looked(open: Table)
    | Counted(open: Table, held: Account, broker: map<string, real>)
    | Comparing(seen: Reads, next: nat)

  /** A poller with its table, what is truly filled of each order, and what was traded outside. */
  datatype World = World(poll: P.State, q: seq<real>, outside: map<string, real>, stage: Stage)

  datatype Event =
    // whatever the poller and its surroundings do, except the fallback
    | Poller(m: P.Move)
    // at the broker: order `i` is now filled up to `filled`; someone else trades
    | Trade(i: nat, filled: real) | Elsewhere(symbol: string, quantity: real)
    // the fallback, call by call; None and GiveUp stand for a call that raises
    | ReadOpen(enabled: bool) | ReadPositions(rows: Option<seq<Holding>>) | ReadBooks(rows: Option<seq<Holding>>)
    | CompareNext | GiveUp

  function Start(day: nat): World { World(P.Run(day, []), [], map[], Asleep) }

  function Leave(x: World, ok: bool): World
  {
    x.(poll := P.Step(x.poll, P.Recover(ok)), stage := Asleep)
  }

  /** The next of the open orders is completed if the totals match; after the last, expiry is due. */
  function Compare(x: World): World
    requires x.stage.Comparing?
  {
    var r, i := x.stage.seen, x.stage.next;
    if i >= |r.open| then Leave(x, true)
    else Onwards(if Fires(r.open, i, r.broker, r.book) then Completes(x, r.open[i]) else x)
  }

  function Completes(x: World, o: Order): World { x.(poll := P.Step(x.poll, P.Fill(FullFill(o)))) }

  function Onwards(x: World): World
    requires x.stage.Comparing?
  {
    x.(stage := Comparing(x.stage.seen, x.stage.next + 1))
  }

  function Grown(q: seq<real>, n: nat): seq<real> { if |q| < n then Padded(q, n) else q }

  /** An event that does not apply changes nothing. */
  function Happen(x: World, e: Event): World
  {
    match e
    case Poller(m) =>
      if m.Recover? then x
      else
        var poll := P.Step(x.poll, m);
        x.(poll := poll, q := Grown(x.q, |poll.table|))
    case Trade(i, filled) => if i < |x.q| then x.(q := x.q[i := filled]) else x
    case Elsewhere(symbol, quantity) => x.(outside := x.outside[symbol := At(x.outside, symbol) + quantity])
    case ReadOpen(enabled) =>
      if !x.poll.phase.Recovering? || !x.stage.Asleep? then x
      else if !enabled || !Wanted(x.poll.table) then Leave(x, true)
      else x.(stage := Looked(x.poll.table))
    case ReadPositions(rows) =>
      if !x.stage.Looked? then x
      else if rows.None? then Leave(x, false)
      else x.(stage := Counted(x.stage.open, Account(x.poll.table, x.q, x.outside), Totals(rows.value, false)))
    case ReadBooks(rows) =>
      if !x.stage.Counted? then x
      else if rows.None? then Leave(x, false)
      else x.(stage := Comparing(Reads(x.stage.open, x.stage.held, x.stage.broker, x.poll.table,
                                       Totals(rows.value, true)), 0))
    case CompareNext => if x.stage.Comparing? then Compare(x) else x
    case GiveUp => if x.stage.Asleep? then x else Leave(x, false)
  }

  function Run(day: nat, events: seq<Event>): World
  {
    if events == [] then Start(day) else Happen(Run(day, events[..|events| - 1]), events[|events| - 1])
  }

  /** The answer the poller is still applying. */
  function PendingReports(x: World): seq<Report> { if x.poll.phase.Applying? then x.poll.phase.reports else [] }

  /** What the broker and the books owe: reports that do not exceed the true fills, positions and books that show what
      there is when they are read. A reused number is given out only once its orders are over, and not on a day for
      which it was reported before. Cancelling, expiring and trading are free. */
  ghost predicate Allowed(x: World, e: Event, opening: string -> real)
  {
    var t := x.poll.table;
    |x.q| == |t| &&
    match e
    case Poller(Submit(o)) =>
      && (forall i :: 0 <= i < |t| && t[i].odno == o.odno ==> !Live(t[i]) && t[i].day < o.day)
      && (forall k :: 0 <= k < |PendingReports(x)| && PendingReports(x)[k].odno == o.odno ==>
            PendingReports(x)[k].day < o.day)
    case Poller(Fill(r)) => Truthful(t, x.q, r)
    case Poller(Answer(history)) => history.Some? ==> AllTruthful(t, x.q, history.value)
    case Trade(i, filled) => i < |t| ==> x.q[i] <= filled <= t[i].ordered
    case ReadPositions(rows) =>
      rows.Some? ==> ShowsAccount(Totals(rows.value, false), Account(t, x.q, x.outside), opening)
    case ReadBooks(rows) => rows.Some? ==> ShowsRecords(Totals(rows.value, true), t, opening)
    case _ => true
  }

  ghost predicate AllTruthful(t: Table, q: seq<real>, reports: seq<Report>)
    requires |q| == |t|
  {
    forall k :: 0 <= k < |reports| ==> Truthful(t, q, reports[k])
  }

  ghost predicate Fair(day: nat, events: seq<Event>, opening: string -> real)
  {
    forall k :: 0 <= k < |events| ==> Allowed(Run(day, events[..k]), events[k], opening)
  }

  // ---------------------------------------------------------------- the invariant

  ghost predicate FillsGrew(q: seq<real>, q': seq<real>)
  {
    |q| <= |q'| && forall j :: 0 <= j < |q| ==> 0.0 <= q[j] <= q'[j]
  }

  ghost predicate FillsFit(t: Table, q: seq<real>)
  {
    |q| == |t| && forall i :: 0 <= i < |t| ==> 0.0 <= q[i] <= t[i].ordered
  }

  ghost predicate Sane(x: World)
  {
    && P.Inv(x.poll) && OnlyNewestLive(x.poll.table) && FillsFit(x.poll.table, x.q)
    && AllTruthful(x.poll.table, x.q, PendingReports(x))
  }

  /** The reads are in order, and lie behind the present. */
  ghost predicate StageOk(stage: Stage, t: Table, q: seq<real>, opening: string -> real)
  {
    match stage
    case Asleep => true
    case Looked(open) => Later(open, t)
    case Counted(open, held, broker) =>
      && Later(open, held.table) && Later(held.table, t) && FillsGrew(held.q, q)
      && ShowsAccount(broker, held, opening)
    case Comparing(r, _) => InOrder(r, opening) && Later(r.shown, t) && FillsGrew(r.held.q, q)
  }

  ghost predicate Inv(x: World, opening: string -> real)
  {
    Sane(x) && StageOk(x.stage, x.poll.table, x.q, opening)
  }

  lemma FillsGrewTwice(a: seq<real>, b: seq<real>, c: seq<real>)
    requires FillsGrew(a, b) && FillsGrew(b, c)
    ensures FillsGrew(a, c)
  {
  }

  lemma StageStays(stage: Stage, t: Table, t': Table, q: seq<real>, q': seq<real>, opening: string -> real)
    requires StageOk(stage, t, q, opening) && Later(t, t') && FillsGrew(q, q')
    ensures StageOk(stage, t', q', opening)
  {
    match stage
    case Asleep =>
    case Looked(open) => LaterTwice(open, t, t');
    case Counted(_, held, _) =>
      LaterTwice(held.table, t, t');
      FillsGrewTwice(held.q, q, q');
    case Comparing(r, _) =>
      LaterTwice(r.shown, t, t');
      FillsGrewTwice(r.held.q, q, q');
  }

  lemma ReportLater(t: Table, r: Report)
    requires Tracked(t)
    ensures Later(t, ApplyCumulative(t, r)) && Advances(t, ApplyCumulative(t, r))
  {
    ApplyAdvances(t, r);
  }

  lemma NewestLater(t: Table, t': Table)
    requires OnlyNewestLive(t) && Later(t, t') && |t'| == |t|
    ensures OnlyNewestLive(t')
  {
    forall i | 0 <= i < |t| ensures Kept(t[i], t'[i]) { }
  }

  lemma TruthfulLater(t: Table, t': Table, q: seq<real>, q': seq<real>, r: Report)
    requires |q| == |t| && |q'| == |t'| == |t| && Later(t, t') && FillsGrew(q, q') && Truthful(t, q, r)
    ensures Truthful(t', q', r)
  {
    forall i | Latest(t', r.odno, r.day, i, false) ensures r.cumulative <= q'[i] {
      assert Kept(t[i], t'[i]);
      forall j | 0 <= j < |t| && Matches(t[j], r.odno, r.day) ensures t[j].day <= t[i].day {
        assert Kept(t[j], t'[j]) && Matches(t'[j], r.odno, r.day);
      }
      assert Latest(t, r.odno, r.day, i, false);
    }
  }

  lemma AllTruthfulLater(t: Table, t': Table, q: seq<real>, q': seq<real>, reports: seq<Report>)
    requires |q| == |t| && |q'| == |t'| == |t| && Later(t, t') && FillsGrew(q, q') && AllTruthful(t, q, reports)
    ensures AllTruthful(t', q', reports)
  {
    forall k | 0 <= k < |reports| ensures Truthful(t', q', reports[k]) {
      TruthfulLater(t, t', q, q', reports[k]);
    }
  }

  lemma FitGrew(t: Table, q: seq<real>)
    requires FillsFit(t, q)
    ensures FillsGrew(q, q)
  {
  }

  lemma FitLater(t: Table, t': Table, q: seq<real>)
    requires FillsFit(t, q) && Later(t, t') && |t'| == |t|
    ensures FillsFit(t', q)
  {
    forall i | 0 <= i < |t| ensures 0.0 <= q[i] <= t'[i].ordered {
      assert Kept(t[i], t'[i]);
    }
  }

  /** A move of the poller that adds no order. */
  lemma PollerMoves(x: World, x': World, opening: string -> real)
    requires Inv(x, opening) && P.Inv(x'.poll) && x'.q == x.q && x'.stage == x.stage
    requires Later(x.poll.table, x'.poll.table) && |x'.poll.table| == |x.poll.table|
    requires AllTruthful(x.poll.table, x.q, PendingReports(x'))
    ensures Inv(x', opening)
  {
    var t, t' := x.poll.table, x'.poll.table;
    FitGrew(t, x.q);
    FitLater(t, t', x.q);
    NewestLater(t, t');
    AllTruthfulLater(t, t', x.q, x.q, PendingReports(x'));
    StageStays(x.stage, t, t', x.q, x.q, opening);
  }

  lemma SameLater(t: Table)
    ensures Later(t, t)
  {
  }

  lemma StepLater(s: P.State, m: P.Move)
    requires P.Inv(s) && !m.Submit?
    ensures Later(s.table, P.Step(s, m).table) && |P.Step(s, m).table| == |s.table|
  {
    match m
    case Fill(r) => ReportLater(s.table, r);
    case ApplyNext =>
      if s.phase.Applying? && s.phase.next < |s.phase.reports| { ReportLater(s.table, s.phase.reports[s.phase.next]); }
    case _ =>
  }

  lemma PollerKeeps(x: World, m: P.Move, opening: string -> real)
    requires Inv(x, opening) && Allowed(x, Poller(m), opening) && !m.Submit? && !m.Recover?
    ensures Inv(Happen(x, Poller(m)), opening)
  {
    var x' := Happen(x, Poller(m));
    P.StepKeeps(x.poll, m);
    StepLater(x.poll, m);
    assert AllTruthful(x.poll.table, x.q, PendingReports(x'));
    PollerMoves(x, x', opening);
  }

  lemma SubmitKeeps(x: World, o: Order, opening: string -> real)
    requires Inv(x, opening) && Allowed(x, Poller(P.Submit(o)), opening)
    ensures Inv(Happen(x, Poller(P.Submit(o))), opening)
  {
    var x', t := Happen(x, Poller(P.Submit(o))), x.poll.table;
    P.StepKeeps(x.poll, P.Submit(o));
    FitGrew(t, x.q);
    if P.New(t, o, x.poll.day) {
      assert x'.poll.table == t + [o] && x'.q == Padded(x.q, |t| + 1);
      forall k | 0 <= k < |PendingReports(x)| ensures Truthful(t + [o], x'.q, PendingReports(x)[k]) {
        SubmittedTruthful(t, o, x.q, PendingReports(x)[k]);
      }
      SubmittedIsNewest(t, o);
      StageStays(x.stage, t, t + [o], x.q, x'.q, opening);
    } else {
      assert x' == x;
    }
  }

  lemma SubmittedTruthful(t: Table, o: Order, q: seq<real>, r: Report)
    requires |q| == |t| && Truthful(t, q, r) && (r.odno == o.odno ==> r.day < o.day)
    ensures Truthful(t + [o], Padded(q, |t| + 1), r)
  {
    var u := t + [o];
    forall i | Latest(u, r.odno, r.day, i, false) ensures r.cumulative <= Padded(q, |t| + 1)[i] {
      forall j | 0 <= j < |t| && Matches(t[j], r.odno, r.day) ensures t[j].day <= u[i].day {
        assert u[j] == t[j];
      }
      assert Latest(t, r.odno, r.day, i, false);
    }
  }

  lemma SubmittedIsNewest(t: Table, o: Order)
    requires OnlyNewestLive(t) && forall i :: 0 <= i < |t| && t[i].odno == o.odno ==> !Live(t[i]) && t[i].day < o.day
    ensures OnlyNewestLive(t + [o]) && Later(t, t + [o])
  {
  }

  lemma TradeKeeps(x: World, i: nat, filled: real, opening: string -> real)
    requires Inv(x, opening) && Allowed(x, Trade(i, filled), opening)
    ensures Inv(Happen(x, Trade(i, filled)), opening)
  {
    var x', t := Happen(x, Trade(i, filled)), x.poll.table;
    SameLater(t);
    assert FillsGrew(x.q, x'.q);
    AllTruthfulLater(t, t, x.q, x'.q, PendingReports(x));
    StageStays(x.stage, t, t, x.q, x'.q, opening);
  }

  lemma LeaveKeeps(x: World, ok: bool, opening: string -> real)
    requires Sane(x)
    ensures Inv(Leave(x, ok), opening)
  {
    P.StepKeeps(x.poll, P.Recover(ok));
  }

  lemma ReadKeeps(x: World, e: Event, opening: string -> real)
    requires Inv(x, opening) && Allowed(x, e, opening) && (e.ReadOpen? || e.ReadPositions? || e.ReadBooks?)
    ensures Inv(Happen(x, e), opening)
  {
    LeaveKeeps(x, true, opening);
    LeaveKeeps(x, false, opening);
    SameLater(x.poll.table);
    FitGrew(x.poll.table, x.q);
  }

  lemma CompareKeeps(x: World, opening: string -> real)
    requires Inv(x, opening) && x.stage.Comparing?
    ensures Inv(Compare(x), opening)
  {
    var r, i := x.stage.seen, x.stage.next;
    if i >= |r.open| {
      LeaveKeeps(x, true, opening);
    } else if Fires(r.open, i, r.broker, r.book) {
      CompletesKeeps(x, r.open[i], opening);
      OnwardsKeeps(Completes(x, r.open[i]), opening);
    } else {
      OnwardsKeeps(x, opening);
    }
  }

  lemma OnwardsKeeps(x: World, opening: string -> real)
    requires Inv(x, opening) && x.stage.Comparing?
    ensures Inv(Onwards(x), opening)
  {
  }

  lemma CompletesKeeps(x: World, o: Order, opening: string -> real)
    requires Inv(x, opening)
    ensures Inv(Completes(x, o), opening)
  {
    P.StepKeeps(x.poll, P.Fill(FullFill(o)));
    StepLater(x.poll, P.Fill(FullFill(o)));
    PollerMoves(x, Completes(x, o), opening);
  }

  lemma EventKeeps(x: World, e: Event, opening: string -> real)
    requires Inv(x, opening) && Allowed(x, e, opening)
    ensures Inv(Happen(x, e), opening)
  {
    match e
    case Poller(m) =>
      if m.Submit? { SubmitKeeps(x, m.o, opening); } else if !m.Recover? { PollerKeeps(x, m, opening); }
    case Trade(i, filled) => TradeKeeps(x, i, filled, opening);
    case Elsewhere(_, _) =>
    case CompareNext => if x.stage.Comparing? { CompareKeeps(x, opening); }
    case GiveUp => LeaveKeeps(x, false, opening);
    case _ => ReadKeeps(x, e, opening);
  }

  lemma FairPrefix(day: nat, events: seq<Event>, opening: string -> real)
    requires Fair(day, events, opening) && events != []
    ensures Fair(day, events[..|events| - 1], opening)
  {
    var init := events[..|events| - 1];
    forall k | 0 <= k < |init| ensures Allowed(Run(day, init[..k]), init[k], opening) {
      assert init[..k] == events[..k] && Allowed(Run(day, events[..k]), events[k], opening);
    }
  }

  lemma {:induction false} RunKeeps(day: nat, events: seq<Event>, opening: string -> real)
    requires Fair(day, events, opening)
    ensures Inv(Run(day, events), opening)
  {
    if events == [] {
      P.RunKeeps(day, []);
    } else {
      var n := |events| - 1;
      FairPrefix(day, events, opening);
      RunKeeps(day, events[..n], opening);
      assert Allowed(Run(day, events[..n]), events[n], opening);
      EventKeeps(Run(day, events[..n]), events[n], opening);
    }
  }

  /** The poller in such a run is a poller as `PollRuns` has it, its fallback's fills included: what holds of all runs
      there holds here. */
  lemma {:induction false} PollerRuns(day: nat, events: seq<Event>) returns (moves: seq<P.Move>)
    ensures Run(day, events).poll == P.Run(day, moves)
  {
    if events == [] {
      moves := [];
    } else {
      var n := |events| - 1;
      var before := PollerRuns(day, events[..n]);
      var step := PollerMove(Run(day, events[..n]), events[n]);
      moves := before + step;
      if step == [] { assert moves == before; } else { assert moves[..|before|] == before; }
    }
  }

  /** The poller's move in an event, if it makes one. */
  lemma PollerMove(x: World, e: Event) returns (step: seq<P.Move>)
    ensures |step| <= 1
    ensures Happen(x, e).poll == if step == [] then x.poll else P.Step(x.poll, step[0])
  {
    step := match e
      case Poller(m) => if m.Recover? then [] else [m]
      case ReadOpen(enabled) =>
        if x.poll.phase.Recovering? && x.stage.Asleep? && (!enabled || !Wanted(x.poll.table)) then [P.Recover(true)]
        else []
      case ReadPositions(rows) => if x.stage.Looked? && rows.None? then [P.Recover(false)] else []
      case ReadBooks(rows) => if x.stage.Counted? && rows.None? then [P.Recover(false)] else []
      case CompareNext =>
        if !x.stage.Comparing? then []
        else if x.stage.next >= |x.stage.seen.open| then [P.Recover(true)]
        else if Fires(x.stage.seen.open, x.stage.next, x.stage.seen.broker, x.stage.seen.book)
        then [P.Fill(FullFill(x.stage.seen.open[x.stage.next]))] else []
      case GiveUp => if x.stage.Asleep? then [] else [P.Recover(false)]
      case _ => [];
  }

  // ---------------------------------------------------------------- when records stay within the true fills

  ghost predicate Within(x: World) { Bounded(x.poll.table, x.q) }

  /** The fallback is about to complete an order that is still live. */
  ghost predicate Completing(x: World)
  {
    x.stage.Comparing? &&
    var r, i := x.stage.seen, x.stage.next;
    Fires(r.open, i, r.broker, r.book) && i < |x.poll.table| && Live(x.poll.table[i])
  }

  /** If it does, what strayed into its comparison is made up for by now. */
  ghost predicate Balanced(x: World, e: Event)
  {
    e.CompareNext? && Completing(x) ==>
      var r, i := x.stage.seen, x.stage.next;
      && i < |r.held.q| <= |r.shown| && |r.open| <= |r.shown| && i < |x.q|
      && MadeUp(r, i, x.q[i])
  }

  lemma ReportWithin(t: Table, q: seq<real>, r: Report)
    requires Tracked(t) && OnlyNewestLive(t) && Bounded(t, q) && Truthful(t, q, r)
    ensures Bounded(ApplyCumulative(t, r), q)
  {
    NewestIsCredited(t, r.odno, r.day);
  }

  lemma OtherEventsWithin(x: World, e: Event, opening: string -> real)
    requires Inv(x, opening) && Allowed(x, e, opening) && Within(x) && !(e.CompareNext? && x.stage.Comparing?)
    ensures Within(Happen(x, e))
  {
    var t := x.poll.table;
    match e
    case Poller(Fill(r)) => ReportWithin(t, x.q, r);
    case Poller(ApplyNext) =>
      var p := x.poll.phase;
      if p.Applying? && p.next < |p.reports| { ReportWithin(t, x.q, p.reports[p.next]); }
    case _ =>
  }

  /** A full fill reaches its own order while that is live, and nothing once it is not. */
  lemma FullFillReaches(t: Table, i: nat, o: Order)
    requires Tracked(t) && OnlyNewestLive(t) && i < |t| && Kept(o, t[i])
    ensures ApplyCumulative(t, FullFill(o)) == if Live(t[i]) then t[i := Completed(t[i])] else t
  {
    LookupSpec(t, o.odno, o.day);
    assert Matches(t[i], o.odno, o.day);
    if Live(t[i]) { LookupSelf(t, i); }
  }

  lemma FiringWithinIff(x: World, opening: string -> real)
    requires Inv(x, opening) && Within(x) && Completing(x)
    ensures Within(Happen(x, CompareNext)) <==> Balanced(x, CompareNext)
  {
    var r, i, t := x.stage.seen, x.stage.next, x.poll.table;
    LaterTwice(r.open, r.held.table, r.shown);
    LaterTwice(r.open, r.shown, t);
    assert Kept(r.open[i], t[i]);
    FullFillReaches(t, i, r.open[i]);
    FiringIff(r, i, opening, x.q[i]);
    CompletedWithinIff(t, x.q, i);
  }

  lemma CompletedWithinIff(t: Table, q: seq<real>, i: nat)
    requires Bounded(t, q) && i < |t|
    ensures Bounded(t[i := Completed(t[i])], q) <==> q[i] == t[i].ordered
  {
  }

  lemma SilentCompareWithin(x: World, opening: string -> real)
    requires Inv(x, opening) && Within(x) && x.stage.Comparing? && !Completing(x)
    ensures Within(Happen(x, CompareNext))
  {
    var r, i, t := x.stage.seen, x.stage.next, x.poll.table;
    if Fires(r.open, i, r.broker, r.book) {
      LaterTwice(r.open, r.held.table, r.shown);
      LaterTwice(r.open, r.shown, t);
      assert Kept(r.open[i], t[i]);
      FullFillReaches(t, i, r.open[i]);
    }
  }

  lemma EventWithinIff(x: World, e: Event, opening: string -> real)
    requires Inv(x, opening) && Allowed(x, e, opening) && Within(x)
    ensures Within(Happen(x, e)) <==> Balanced(x, e)
  {
    if e.CompareNext? && x.stage.Comparing? {
      if Completing(x) { FiringWithinIff(x, opening); } else { SilentCompareWithin(x, opening); }
    } else {
      OtherEventsWithin(x, e, opening);
    }
  }

  ghost predicate WithinThroughout(day: nat, events: seq<Event>)
  {
    forall k :: 0 <= k <= |events| ==> Within(Run(day, events[..k]))
  }

  ghost predicate BalancedThroughout(day: nat, events: seq<Event>)
  {
    forall k :: 0 <= k < |events| ==> Balanced(Run(day, events[..k]), events[k])
  }

  lemma RunNext(day: nat, events: seq<Event>, k: nat)
    requires k < |events|
    ensures Run(day, events[..k + 1]) == Happen(Run(day, events[..k]), events[k])
  {
    assert events[..k + 1][..k] == events[..k];
  }

  lemma FairUpTo(day: nat, events: seq<Event>, opening: string -> real, k: nat)
    requires Fair(day, events, opening) && k <= |events|
    ensures Inv(Run(day, events[..k]), opening)
  {
    forall j | 0 <= j < k ensures Allowed(Run(day, events[..k][..j]), events[..k][j], opening) {
      assert events[..k][..j] == events[..j] && Allowed(Run(day, events[..j]), events[j], opening);
    }
    RunKeeps(day, events[..k], opening);
  }

  lemma {:induction false} WithinUpTo(day: nat, events: seq<Event>, opening: string -> real, k: nat)
    requires Fair(day, events, opening) && BalancedThroughout(day, events) && k <= |events|
    ensures Within(Run(day, events[..k]))
  {
    if k > 0 {
      WithinUpTo(day, events, opening, k - 1);
      FairUpTo(day, events, opening, k - 1);
      assert Allowed(Run(day, events[..k - 1]), events[k - 1], opening);
      assert Balanced(Run(day, events[..k - 1]), events[k - 1]);
      EventWithinIff(Run(day, events[..k - 1]), events[k - 1], opening);
      RunNext(day, events, k - 1);
    }
  }

  /** Over every such run: recorded <= true fill <= ordered at every moment, for all orders, if and only if for each
      order that the fallback completes, what strayed into its comparison is made up for by then. */
  lemma RecordedWithinIff(day: nat, events: seq<Event>, opening: string -> real)
    requires Fair(day, events, opening)
    ensures WithinThroughout(day, events) <==> BalancedThroughout(day, events)
  {
    if BalancedThroughout(day, events) {
      forall k | 0 <= k <= |events| ensures Within(Run(day, events[..k])) {
        WithinUpTo(day, events, opening, k);
      }
    }
    if WithinThroughout(day, events) {
      forall k | 0 <= k < |events| ensures Balanced(Run(day, events[..k]), events[k]) {
        FairUpTo(day, events, opening, k);
        RunNext(day, events, k);
        assert Allowed(Run(day, events[..k]), events[k], opening);
        assert Within(Run(day, events[..k])) && Within(Run(day, events[..k + 1]));
        EventWithinIff(Run(day, events[..k]), events[k], opening);
      }
    }
  }

  /** Nothing of the symbol came between the reads of a completion: no fill of a finished or later buy that the books
      did not show, no sell recorded in between, no purchase outside. */
  ghost predicate Calm(x: World, e: Event)
  {
    e.CompareNext? && Completing(x) ==>
      var r, i := x.stage.seen, x.stage.next;
      |r.held.q| <= |r.shown| && i < |r.open| && Undisturbed(r, i)
  }

  lemma CalmIsBalanced(x: World, e: Event, opening: string -> real)
    requires Inv(x, opening) && Calm(x, e)
    ensures Balanced(x, e)
  {
    if e.CompareNext? && Completing(x) {
      var r, i, t := x.stage.seen, x.stage.next, x.poll.table;
      LaterTwice(r.open, r.held.table, r.shown);
      assert Kept(r.open[i], r.shown[i]);
      LaterTwice(r.open, r.shown, t);
      assert Kept(r.open[i], t[i]) && Kept(r.shown[i], t[i]);
      UndisturbedIsRight(r, i, opening);
    }
  }

  /** So nothing is ever recorded that was not filled as long as every completion is calm. Sells whose fill is not
      recorded, and whatever is cancelled or expires of other symbols, do no harm. */
  lemma CalmRunsStayWithin(day: nat, events: seq<Event>, opening: string -> real)
    requires Fair(day, events, opening)
    requires forall k :: 0 <= k < |events| ==> Calm(Run(day, events[..k]), events[k])
    ensures WithinThroughout(day, events)
  {
    forall k | 0 <= k < |events| ensures Balanced(Run(day, events[..k]), events[k]) {
      FairUpTo(day, events, opening, k);
      CalmIsBalanced(Run(day, events[..k]), events[k], opening);
    }
    RecordedWithinIff(day, events, opening);
  }
}
