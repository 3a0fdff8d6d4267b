/** The poller whose every await is a move of its own, when nothing else moves: it does what one poll cycle does
    (fill_scheduler.py). */
module PollerAlone {
  import opened Collections
  import opened FillRecovery
  import opened PollCycle
  import opened FallbackReads
  import opened RecoveryRuns
  import P = PollRuns

  function Moving(e: Event): World -> World { x => Happen(x, e) }

  /** From the start of a cycle to the ledger's answer. */
  function Fetched(x: World, v: Verify, w: Outside): World
  {
    var b := Books(x.poll.table, v);
    var asked := Happen(Happen(x, Poller(P.Begin)), Poller(P.Read(v)));
    Happen(asked, Poller(P.Answer(if Idle(b) then None else w.history(From(b), x.poll.day))))
  }

  /** Taking up that many reports, and going on. */
  function Reported(x: World, n: nat): World { Iterate(Moving(Poller(P.ApplyNext)), x, n + 1) }

  /** The three reads, the comparison of every order, and expiry. */
  function Recovered(x: World, enabled: bool, w: Outside): World
  {
    var read := Happen(Happen(Happen(x, ReadOpen(enabled)), ReadPositions(w.positions)),
                       ReadBooks(Some(w.books(x.poll.table))));
    Happen(Iterate(Moving(CompareNext), read, |x.poll.table| + 1), Poller(P.ExpireNow))
  }

  /** Every move of a cycle; those that no longer apply change nothing. */
  function Alone(x: World, v: Verify, enabled: bool, w: Outside): World
  {
    var fetched := Fetched(x, v, w);
    var n := if fetched.poll.phase.Applying? then |fetched.poll.phase.reports| else 0;
    Recovered(Reported(fetched, n), enabled, w)
  }

  /** The poller rests, and the fills are of the orders there are. */
  ghost predicate AtRest(x: World)
  {
    x.poll.phase.Resting? && x.stage.Asleep? && |x.q| == |x.poll.table| && Tracked(x.poll.table)
  }

  lemma {:induction false} NothingMoves(e: Event, x: World, k: nat)
    requires Happen(x, e) == x
    ensures Iterate(Moving(e), x, k) == x
  {
    if k > 0 { NothingMoves(e, x, k - 1); }
  }

  // ---------------------------------------------------------------- the reports

  /** `k` reports are taken up. */
  function TakenUp(x: World, k: nat): World
    requires x.poll.phase.Applying? && k <= |x.poll.phase.reports|
  {
    x.(poll := x.poll.(table := ApplyReports(x.poll.table, x.poll.phase.reports[..k]),
                       phase := x.poll.phase.(next := k)))
  }

  lemma {:induction false} ReportsAlone(x: World, k: nat)
    requires x.poll.phase.Applying? && x.poll.phase.next == 0 && k <= |x.poll.phase.reports|
    requires |x.q| == |x.poll.table| && Tracked(x.poll.table)
    ensures Iterate(Moving(Poller(P.ApplyNext)), x, k) == TakenUp(x, k)
  {
    var reports := x.poll.phase.reports;
    if k == 0 {
      assert reports[..0] == [];
    } else {
      ReportsAlone(x, k - 1);
      ReportsAdvance(x.poll.table, reports[..k]);
      OneMoreReport(x, k - 1);
      IterateNext(Moving(Poller(P.ApplyNext)), x, k - 1, TakenUp(x, k - 1), TakenUp(x, k));
    }
  }

  lemma OneMoreReport(x: World, k: nat)
    requires x.poll.phase.Applying? && k < |x.poll.phase.reports|
    requires |x.q| == |x.poll.table| == |ApplyReports(x.poll.table, x.poll.phase.reports[..k + 1])|
    ensures Happen(TakenUp(x, k), Poller(P.ApplyNext)) == TakenUp(x, k + 1)
  {
    var reports := x.poll.phase.reports;
    assert reports[..k + 1][..k] == reports[..k];
  }

  // ---------------------------------------------------------------- the fallback

  /** `k` orders are compared. */
  function ComparedUpTo(x: World, v: Verify, k: nat): World
    requires x.stage.Comparing?
  {
    var r := x.stage.seen;
    x.(poll := x.poll.(table := Fallback(x.poll.table, k, v, r.broker, r.book).table), stage := Comparing(r, k))
  }

  lemma {:induction false} ComparisonsAlone(x: World, v: Verify, k: nat)
    requires x.stage.Comparing? && x.stage.next == 0 && x.stage.seen.open == x.poll.table && k <= |x.poll.table|
    ensures Iterate(Moving(CompareNext), x, k) == ComparedUpTo(x, v, k)
  {
    if k > 0 {
      ComparisonsAlone(x, v, k - 1);
      OneMoreComparison(x, v, k - 1);
    }
  }

  lemma OneMoreComparison(x: World, v: Verify, k: nat)
    requires x.stage.Comparing? && x.stage.seen.open == x.poll.table && k < |x.poll.table|
    ensures Happen(ComparedUpTo(x, v, k), CompareNext) == ComparedUpTo(x, v, k + 1)
  {
  }

  /** What is left of the poller at the end of a cycle. */
  ghost predicate Ends(x: World, y: World, t: Table)
  {
    && y.poll.table == t && y.poll.day == x.poll.day && y.poll.phase.Resting? && y.stage.Asleep?
    && y.q == x.q && y.outside == x.outside
  }

  lemma RecoveryAlone(x: World, v: Verify, enabled: bool, w: Outside)
    requires x.poll.phase.Recovering? && x.stage.Asleep? && |x.q| == |x.poll.table| && Tracked(x.poll.table)
    ensures var phase := FallbackPhase(enabled, Books(x.poll.table, v), w);
            Ends(x, Recovered(x, enabled, w),
                 if phase.raised then x.poll.table else Expire(phase.books.table, x.poll.phase.today))
  {
    var looked := Happen(x, ReadOpen(enabled));
    if !enabled || !Wanted(x.poll.table) {
      NothingMoves(CompareNext, looked, |x.poll.table| + 1);
    } else if w.positions.None? {
      NothingMoves(CompareNext, Leave(looked, false), |x.poll.table| + 1);
    } else {
      CompletionsAlone(x, v, enabled, w);
    }
  }

  lemma ReadsAlone(x: World, enabled: bool, w: Outside)
    requires x.poll.phase.Recovering? && x.stage.Asleep? && enabled && Wanted(x.poll.table) && w.positions.Some?
    ensures var t := x.poll.table;
            Happen(Happen(Happen(x, ReadOpen(enabled)), ReadPositions(w.positions)), ReadBooks(Some(w.books(t))))
            == x.(stage := Comparing(Reads(t, Account(t, x.q, x.outside), Totals(w.positions.value, false), t,
                                           Totals(w.books(t), true)), 0))
  {
  }

  lemma CompletionsAlone(x: World, v: Verify, enabled: bool, w: Outside)
    requires x.poll.phase.Recovering? && x.stage.Asleep? && |x.q| == |x.poll.table| && Tracked(x.poll.table)
    requires enabled && Wanted(x.poll.table) && w.positions.Some?
    ensures Ends(x, Recovered(x, enabled, w),
                 Expire(FallbackPhase(enabled, Books(x.poll.table, v), w).books.table, x.poll.phase.today))
  {
    var t := x.poll.table;
    var read := Happen(Happen(Happen(x, ReadOpen(enabled)), ReadPositions(w.positions)), ReadBooks(Some(w.books(t))));
    ReadsAlone(x, enabled, w);
    ComparisonsAlone(read, v, |t|);
    FallbackCompletes(t, |t|, v, Totals(w.positions.value, false), Totals(w.books(t), true));
    var compared := ComparedUpTo(read, v, |t|);
    assert Iterate(Moving(CompareNext), read, |t| + 1) == Leave(compared, true);
  }

  // ---------------------------------------------------------------- the whole cycle

  lemma NothingToDo(x: World, v: Verify, enabled: bool, w: Outside)
    requires AtRest(x) && Fetched(x, v, w) == x
    ensures Alone(x, v, enabled, w) == x
  {
    NothingMoves(Poller(P.ApplyNext), x, 1);
    NothingMoves(CompareNext, x, |x.poll.table| + 1);
  }

  /** Where the ledger's answer leaves the poller. */
  lemma FetchAlone(x: World, v: Verify, w: Outside)
    requires AtRest(x)
    ensures var b := Books(x.poll.table, v);
            if Idle(b) || w.history(From(b), x.poll.day).None? then Fetched(x, v, w) == x
            else
              var reports := w.history(From(b), x.poll.day).value;
              Fetched(x, v, w) == x.(poll := x.poll.(phase := P.Applying(x.poll.day, From(b), reports, 0)))
  {
  }

  lemma AnsweredAlone(fetched: World, v: Verify, enabled: bool, w: Outside)
    requires fetched.poll.phase.Applying? && fetched.poll.phase.next == 0 && fetched.stage.Asleep?
    requires |fetched.q| == |fetched.poll.table| && Tracked(fetched.poll.table)
    ensures var p := fetched.poll; var t := ApplyReports(p.table, p.phase.reports);
            var phase := FallbackPhase(enabled, Books(t, v), w);
            Ends(fetched, Recovered(Reported(fetched, |p.phase.reports|), enabled, w),
                 if phase.raised then t else Expire(phase.books.table, p.phase.today))
  {
    var reports := fetched.poll.phase.reports;
    ReportsAlone(fetched, |reports|);
    ReportsAdvance(fetched.poll.table, reports);
    assert reports[..|reports|] == reports;
    var reported := Reported(fetched, |reports|);
    assert reported == Happen(TakenUp(fetched, |reports|), Poller(P.ApplyNext));
    RecoveryAlone(reported, v, enabled, w);
  }

  /** With nothing in between, the moves of the poller leave the table that one cycle computes. */
  lemma CycleAlone(x: World, v: Verify, enabled: bool, w: Outside)
    requires AtRest(x)
    ensures Ends(x, Alone(x, v, enabled, w), Cycle(enabled, Books(x.poll.table, v), x.poll.day, w).books.table)
  {
    var b := Books(x.poll.table, v);
    FetchAlone(x, v, w);
    if Idle(b) || w.history(From(b), x.poll.day).None? {
      NothingToDo(x, v, enabled, w);
    } else {
      AnsweredAlone(Fetched(x, v, w), VerifyReports(v, w.history(From(b), x.poll.day).value), enabled, w);
    }
  }
}
