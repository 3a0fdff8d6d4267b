/** Which events between the awaits of a poll cycle can make it record a fill that never was: without them, records stay
    within the true fills over every run (fill_scheduler.py). */
module CarefulRuns {
  import opened Collections
  import opened FillRecovery
  import opened PollCycle
  import opened FallbackReads
  import opened RecoveryRuns

  // ---------------------------------------------------------------- which events can break it

  /** What a caller can see to, event by event: a buy is finished only when its fill is recorded, and then no longer
      traded; between the open orders and the positions no later buy is filled; between the positions and the books no
      sell is recorded; nobody outside buys. */
  ghost predicate Careful(x: World, e: Event)
  {
    var t := x.poll.table;
    |x.q| == |t| &&
    match e
    case Poller(Cancel(i)) => i < |t| && t[i].buy ==> t[i].recorded == x.q[i]
    case Poller(ExpireNow) =>
      x.poll.phase.Expiring? ==>
        forall i :: 0 <= i < |t| && t[i].buy && Stale(t[i], x.poll.phase.today) ==> x.q[i] == 0.0
    case Trade(i, filled) =>
      i < |t| && t[i].buy ==>
        (Live(t[i]) || filled == x.q[i]) && (x.stage.Looked? && i >= |x.stage.open| ==> filled == 0.0)
    case Poller(Fill(r)) => x.stage.Counted? && Lookup(t, r.odno, r.day).Some? ==> CreditsBuy(t, r)
    case Elsewhere(_, quantity) => quantity <= 0.0
    case _ => true
  }

  ghost predicate CreditsBuy(t: Table, r: Report)
  {
    var found := Lookup(t, r.odno, r.day);
    found.Some? && found.value < |t| && t[found.value].buy
  }

  /** Finished buys are fully recorded. */
  ghost predicate BuysSettled(t: Table, q: seq<real>)
  {
    |q| == |t| && forall i :: 0 <= i < |t| && t[i].buy && !Live(t[i]) ==> t[i].recorded == q[i]
  }

  /** Before the positions are read: buys submitted since the open orders were read are unfilled. */
  ghost predicate LaterBuysUnfilled(open: Table, t: Table, q: seq<real>)
  {
    |q| == |t| && forall j :: |open| <= j < |t| && t[j].buy ==> q[j] == 0.0
  }

  /** What the positions hold of order `j` and the records `u` do not show is on the harmless side. */
  ghost predicate Harmless(open: Table, held: Account, u: Table, j: nat)
    requires |held.q| <= |u| && j < |u|
  {
    var gap := Padded(held.q, |u|)[j] - u[j].recorded;
    if !u[j].buy then gap >= 0.0 else (j < |open| && Live(open[j])) || gap <= 0.0
  }

  ghost predicate AllHarmless(open: Table, held: Account, u: Table)
  {
    |held.q| <= |u| && forall j :: 0 <= j < |u| ==> Harmless(open, held, u, j)
  }

  ghost predicate StageCalm(stage: Stage, t: Table, q: seq<real>)
  {
    match stage
    case Asleep => true
    case Looked(open) => LaterBuysUnfilled(open, t, q)
    case Counted(open, held, _) => AllHarmless(open, held, t) && NobodyBought(held.outside)
    case Comparing(r, _) => AllHarmless(r.open, r.held, r.shown) && NobodyBought(r.held.outside)
  }

  ghost predicate NobodyBought(outside: map<string, real>) { forall s :: At(outside, s) <= 0.0 }

  ghost predicate CalmInv(x: World)
  {
    && Within(x) && BuysSettled(x.poll.table, x.q) && NobodyBought(x.outside)
    && (x.stage.Asleep? || x.poll.phase.Recovering?) && StageCalm(x.stage, x.poll.table, x.q)
  }

  lemma CarefulIsCalm(x: World, e: Event, opening: string -> real)
    requires Inv(x, opening) && CalmInv(x)
    ensures Calm(x, e)
  {
    if e.CompareNext? && Completing(x) {
      var r, i := x.stage.seen, x.stage.next;
      LaterTwice(r.open, r.held.table, r.shown);
      forall j | 0 <= j < |r.shown| && j != i && r.shown[j].symbol == r.open[i].symbol
        ensures if r.shown[j].buy then Unshown(r)[j] <= 0.0 else Unshown(r)[j] >= 0.0
      {
        assert Harmless(r.open, r.held, r.shown, j);
        if r.shown[j].buy { OtherBuys(r, i, j); }
      }
    }
  }

  /** Orders that ended meanwhile were filled, and so fully recorded; the others stay as settled as they were. */
  lemma SettledLater(t: Table, t': Table, q: seq<real>)
    requires BuysSettled(t, q) && Later(t, t') && |t'| == |t| && Tracked(t') && Bounded(t', q)
    requires forall i :: 0 <= i < |t| && Live(t[i]) && !Live(t'[i]) ==> t'[i].status == Filled
    requires forall i :: 0 <= i < |t| && !Live(t[i]) ==> t'[i].recorded == t[i].recorded
    ensures BuysSettled(t', q)
  {
    forall i | 0 <= i < |t'| && t'[i].buy && !Live(t'[i]) ensures t'[i].recorded == q[i] {
      assert Kept(t[i], t'[i]);
    }
  }

  lemma ReportSettles(t: Table, q: seq<real>, r: Report)
    requires BuysSettled(t, q) && Tracked(t) && Bounded(ApplyCumulative(t, r), q)
    ensures BuysSettled(ApplyCumulative(t, r), q)
  {
    ReportLater(t, r);
    SettledLater(t, ApplyCumulative(t, r), q);
  }

  lemma PollerSettles(x: World, m: P.Move, opening: string -> real)
    requires Inv(x, opening) && CalmInv(x) && Careful(x, Poller(m)) && !m.Recover?
    requires Within(Happen(x, Poller(m)))
    ensures BuysSettled(Happen(x, Poller(m)).poll.table, Happen(x, Poller(m)).q)
  {
    var t, p := x.poll.table, x.poll.phase;
    match m
    case Fill(r) => ReportSettles(t, x.q, r);
    case ApplyNext =>
      if p.Applying? && p.next < |p.reports| && Relevant(p.reports[p.next]) {
        ReportSettles(t, x.q, p.reports[p.next]);
      }
    case Submit(o) => if P.New(t, o, x.poll.day) { SubmitSettles(t, x.q, o); }
    case Cancel(i) => if i < |t| { CancelSettles(t, x.q, i); }
    case ExpireNow => if p.Expiring? { ExpirySettles(t, x.q, p.today); }
    case _ =>
  }

  lemma SubmitSettles(t: Table, q: seq<real>, o: Order)
    requires BuysSettled(t, q) && Live(o)
    ensures BuysSettled(t + [o], Padded(q, |t| + 1))
  {
  }

  lemma CancelSettles(t: Table, q: seq<real>, i: nat)
    requires BuysSettled(t, q) && i < |t| && (t[i].buy ==> t[i].recorded == q[i])
    ensures BuysSettled(t[i := t[i].(status := Cancelled)], q)
  {
  }

  lemma ExpirySettles(t: Table, q: seq<real>, today: nat)
    requires BuysSettled(t, q) && Tracked(t)
    requires forall i :: 0 <= i < |t| && t[i].buy && Stale(t[i], today) ==> q[i] == 0.0
    ensures BuysSettled(Expire(t, today), q)
  {
  }

  lemma CompareSettles(x: World, opening: string -> real)
    requires Inv(x, opening) && CalmInv(x) && x.stage.Comparing? && Within(Compare(x))
    ensures BuysSettled(Compare(x).poll.table, x.q)
  {
    var r, i := x.stage.seen, x.stage.next;
    if i < |r.open| && Fires(r.open, i, r.broker, r.book) { ReportSettles(x.poll.table, x.q, FullFill(r.open[i])); }
  }

  lemma EventSettles(x: World, e: Event, opening: string -> real)
    requires Inv(x, opening) && CalmInv(x) && Careful(x, e) && Within(Happen(x, e))
    ensures BuysSettled(Happen(x, e).poll.table, Happen(x, e).q)
  {
    match e
    case Poller(m) => if !m.Recover? { PollerSettles(x, m, opening); }
    case CompareNext => if x.stage.Comparing? { CompareSettles(x, opening); }
    case _ =>
  }

  /** More recorded of buys, and orders added unfilled, leave everything harmless. */
  lemma HarmlessLater(open: Table, held: Account, t: Table, t': Table)
    requires AllHarmless(open, held, t) && Later(t, t')
    requires forall j :: 0 <= j < |t| && !t[j].buy ==> t'[j].recorded == t[j].recorded
    requires forall j :: |t| <= j < |t'| ==> t'[j].recorded == 0.0
    ensures AllHarmless(open, held, t')
  {
    forall j | 0 <= j < |t'| ensures Harmless(open, held, t', j) {
      if j < |t| { assert Harmless(open, held, t, j) && Kept(t[j], t'[j]); }
    }
  }

  lemma HarmlessWhenRead(open: Table, t: Table, q: seq<real>, outside: map<string, real>)
    requires Later(open, t) && Tracked(t) && Bounded(t, q) && BuysSettled(t, q) && LaterBuysUnfilled(open, t, q)
    ensures AllHarmless(open, Account(t, q, outside), t)
  {
    forall j | 0 <= j < |t| ensures Harmless(open, Account(t, q, outside), t, j) {
      if j < |open| { assert Kept(open[j], t[j]); }
    }
  }

  lemma PollerStaysCalm(x: World, m: P.Move, opening: string -> real)
    requires Inv(x, opening) && CalmInv(x) && Careful(x, Poller(m)) && !m.Recover? && !x.stage.Asleep?
    ensures var x' := Happen(x, Poller(m));
            x'.poll.phase.Recovering? && StageCalm(x'.stage, x'.poll.table, x'.q)
  {
    var t, t' := x.poll.table, Happen(x, Poller(m)).poll.table;
    P.StepKeeps(x.poll, m);
    if !m.Submit? { StepLater(x.poll, m); }
    if x.stage.Counted? {
      if m.Fill? { CreditedBuyOnly(t, m.r); }
      HarmlessLater(x.stage.open, x.stage.held, t, t');
    }
  }

  lemma CreditedBuyOnly(t: Table, r: Report)
    requires Lookup(t, r.odno, r.day).Some? ==> CreditsBuy(t, r)
    ensures forall j :: 0 <= j < |t| && !t[j].buy ==> ApplyCumulative(t, r)[j].recorded == t[j].recorded
  {
  }

  lemma EventStaysCalm(x: World, e: Event, opening: string -> real)
    requires Inv(x, opening) && CalmInv(x) && Careful(x, e)
    ensures var x' := Happen(x, e);
            (x'.stage.Asleep? || x'.poll.phase.Recovering?) && StageCalm(x'.stage, x'.poll.table, x'.q)
            && NobodyBought(x'.outside)
  {
    match e
    case Poller(m) => if !m.Recover? && !x.stage.Asleep? { PollerStaysCalm(x, m, opening); }
    case Trade(_, _) => TradeStaysCalm(x, e);
    case ReadPositions(_) =>
      if x.stage.Looked? { HarmlessWhenRead(x.stage.open, x.poll.table, x.q, x.outside); }
    case Elsewhere(symbol, quantity) => SoldOutside(x.outside, symbol, quantity);
    case CompareNext => if x.stage.Comparing? { CompareStaysCalm(x); }
    case _ =>
  }

  lemma TradeStaysCalm(x: World, e: Event)
    requires CalmInv(x) && e.Trade? && Careful(x, e)
    ensures StageCalm(Happen(x, e).stage, Happen(x, e).poll.table, Happen(x, e).q)
  {
  }

  lemma CompareStaysCalm(x: World)
    requires CalmInv(x) && x.stage.Comparing?
    ensures var x' := Compare(x);
            (x'.stage.Asleep? || x'.poll.phase.Recovering?) && StageCalm(x'.stage, x'.poll.table, x'.q)
  {
  }

  lemma SoldOutside(outside: map<string, real>, symbol: string, quantity: real)
    requires NobodyBought(outside) && quantity <= 0.0
    ensures NobodyBought(outside[symbol := At(outside, symbol) + quantity])
  {
    var after := outside[symbol := At(outside, symbol) + quantity];
    forall s ensures At(after, s) <= 0.0 {
      assert At(outside, s) <= 0.0 && At(outside, symbol) <= 0.0;
    }
  }

  lemma CarefulKeeps(x: World, e: Event, opening: string -> real)
    requires Inv(x, opening) && CalmInv(x) && Allowed(x, e, opening) && Careful(x, e)
    ensures CalmInv(Happen(x, e))
  {
    CarefulIsCalm(x, e, opening);
    CalmIsBalanced(x, e, opening);
    EventWithinIff(x, e, opening);
    EventSettles(x, e, opening);
    EventStaysCalm(x, e, opening);
  }

  lemma {:induction false} CarefulUpTo(day: nat, events: seq<Event>, opening: string -> real, k: nat)
    requires Fair(day, events, opening) && k <= |events|
    requires forall j :: 0 <= j < |events| ==> Careful(Run(day, events[..j]), events[j])
    ensures CalmInv(Run(day, events[..k]))
  {
    if k > 0 {
      CarefulUpTo(day, events, opening, k - 1);
      FairUpTo(day, events, opening, k - 1);
      assert Allowed(Run(day, events[..k - 1]), events[k - 1], opening);
      CarefulKeeps(Run(day, events[..k - 1]), events[k - 1], opening);
      RunNext(day, events, k - 1);
    }
  }

  /** Over every run of careful events, whatever else falls between whichever awaits, recorded <= true fill <= ordered
      for all orders at every moment. */
  lemma RecordedWithinTrueFill(day: nat, events: seq<Event>, opening: string -> real)
    requires Fair(day, events, opening)
    requires forall k :: 0 <= k < |events| ==> Careful(Run(day, events[..k]), events[k])
    ensures WithinThroughout(day, events)
  {
    forall k | 0 <= k <= |events| ensures Within(Run(day, events[..k])) {
      CarefulUpTo(day, events, opening, k);
    }
  }
}
