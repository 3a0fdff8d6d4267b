/** Late contradictions over successive poll cycles: each completed order is contradicted at most once
    (fill_scheduler.py). */
module PollAlerts {
  import opened FillRecovery
  import opened PollCycle
  import opened FallbackReads

  /** One cycle, and the books it started from. */
  datatype Round = Round(before: Books, enabled: bool, today: nat, w: Outside)

  function BooksAfter(r: Round): Books { Cycle(r.enabled, r.before, r.today, r.w).books }

  function Alerts(rounds: seq<Round>): seq<Report>
  {
    if rounds == [] then []
    else
      var r := rounds[|rounds| - 1];
      Alerts(rounds[..|rounds| - 1]) + AlertsOf(r.before, r.today, r.w)
  }

  /** A cycle starts with the checks that the one before left; orders may have been submitted, filled or finished. */
  ghost predicate Follows(r: Round, next: Round)
  {
    && next.before.verify == BooksAfter(r).verify && Later(BooksAfter(r).table, next.before.table)
    && Tracked(next.before.table)
  }

  /** The poller starts without any checks. */
  ghost predicate Successive(rounds: seq<Round>)
  {
    && (rounds != [] ==> rounds[0].before.verify == map[] && Tracked(rounds[0].before.table))
    && forall k :: 0 < k < |rounds| ==> Follows(rounds[k - 1], rounds[k])
  }

  /** The order is in the table and no longer live. */
  ghost predicate Over(t: Table, odno: string, day: nat)
  {
    exists i :: 0 <= i < |t| && t[i].odno == odno && t[i].day == day && !Live(t[i])
  }

  lemma OverLater(t: Table, u: Table, odno: string, day: nat)
    requires Over(t, odno, day) && Later(t, u)
    ensures Over(u, odno, day)
  {
    var i :| 0 <= i < |t| && t[i].odno == odno && t[i].day == day && !Live(t[i]);
    assert Kept(t[i], u[i]);
  }

  /** Checks are of orders that are over. */
  ghost predicate ChecksOver(b: Books) { forall k :: k in b.verify ==> Over(b.table, k, b.verify[k].day) }

  /** What was contradicted is over and no longer checked. */
  ghost predicate Closed(b: Books, l: Report) { Over(b.table, l.odno, l.day) && !Checks(b.verify, l) }

  ghost predicate AllClosed(b: Books, alerts: seq<Report>) { forall k :: 0 <= k < |alerts| ==> Closed(b, alerts[k]) }

  ghost predicate OnePerOrder(alerts: seq<Report>)
  {
    forall j, k :: 0 <= j < k < |alerts| ==> alerts[j].odno != alerts[k].odno || alerts[j].day != alerts[k].day
  }

  // ---------------------------------------------------------------- the phases of a cycle

  /** A check is added for an order the fallback fires for only. */
  lemma {:induction false} FallbackChecksFired(t: Table, n: nat, verify: Verify, broker: map<string, real>,
                                               book: map<string, real>, k: string)
    requires n <= |t| && k in Fallback(t, n, verify, broker, book).verify
    ensures var v := Fallback(t, n, verify, broker, book).verify;
            (k in verify && v[k] == verify[k])
            || exists i :: 0 <= i < n && Fires(t, i, broker, book) && t[i].odno == k && t[i].day == v[k].day
  {
    if n > 0 && k in Fallback(t, n - 1, verify, broker, book).verify {
      FallbackChecksFired(t, n - 1, verify, broker, book, k);
    }
  }

  ghost predicate NotLive(t: Table, odno: string, day: nat)
  {
    forall i :: 0 <= i < |t| && t[i].odno == odno && t[i].day == day ==> !Live(t[i])
  }

  lemma OverIsNotLive(t: Table, odno: string, day: nat)
    requires Tracked(t) && Over(t, odno, day)
    ensures NotLive(t, odno, day)
  {
  }

  lemma PhaseLater(enabled: bool, b: Books, w: Outside)
    requires Tracked(b.table)
    ensures Later(b.table, FallbackPhase(enabled, b, w).books.table)
  {
    if enabled && Wanted(b.table) && w.positions.Some? {
      FallbackCompletes(b.table, |b.table|, b.verify, Totals(w.positions.value, false), Totals(w.books(b.table), true));
    }
  }

  lemma PhaseChecksOver(enabled: bool, b: Books, w: Outside)
    requires Tracked(b.table) && ChecksOver(b)
    ensures ChecksOver(FallbackPhase(enabled, b, w).books)
  {
    PhaseLater(enabled, b, w);
    if enabled && Wanted(b.table) && w.positions.Some? {
      var t, broker, book := b.table, Totals(w.positions.value, false), Totals(w.books(b.table), true);
      var done := Fallback(t, |t|, b.verify, broker, book);
      FallbackCompletes(t, |t|, b.verify, broker, book);
      forall k | k in done.verify ensures Over(done.table, k, done.verify[k].day) {
        FallbackChecksFired(t, |t|, b.verify, broker, book, k);
        if k in b.verify && done.verify[k] == b.verify[k] {
          OverLater(t, done.table, k, done.verify[k].day);
        } else {
          var i :| 0 <= i < |t| && Fires(t, i, broker, book) && t[i].odno == k && t[i].day == done.verify[k].day;
          assert done.table[i] == Completed(t[i]);
        }
      }
    }
  }

  lemma PhaseKeepsClosed(enabled: bool, b: Books, w: Outside, l: Report)
    requires Tracked(b.table) && Closed(b, l)
    ensures Closed(FallbackPhase(enabled, b, w).books, l)
  {
    PhaseLater(enabled, b, w);
    OverLater(b.table, FallbackPhase(enabled, b, w).books.table, l.odno, l.day);
    OverIsNotLive(b.table, l.odno, l.day);
    if enabled && Wanted(b.table) && w.positions.Some? {
      var t, broker, book := b.table, Totals(w.positions.value, false), Totals(w.books(b.table), true);
      if l.odno in Fallback(t, |t|, b.verify, broker, book).verify {
        FallbackChecksFired(t, |t|, b.verify, broker, book, l.odno);
      }
    }
  }

  /** The books once the reports are applied. */
  function Reported(b: Books, reports: seq<Report>): Books
  {
    Books(ApplyReports(b.table, reports), VerifyReports(b.verify, reports))
  }

  lemma ReportsLater(t: Table, reports: seq<Report>)
    requires Tracked(t)
    ensures Later(t, ApplyReports(t, reports)) && Tracked(ApplyReports(t, reports))
  {
    ReportsAdvance(t, reports);
  }

  lemma ReportsKeepOver(b: Books, reports: seq<Report>)
    requires Tracked(b.table) && ChecksOver(b)
    ensures ChecksOver(Reported(b, reports))
  {
    ReportsLater(b.table, reports);
    ChecksOnlySettle(b.verify, reports);
    forall k | k in VerifyReports(b.verify, reports)
      ensures Over(ApplyReports(b.table, reports), k, VerifyReports(b.verify, reports)[k].day)
    {
      OverLater(b.table, ApplyReports(b.table, reports), k, b.verify[k].day);
    }
  }

  lemma ReportsKeepClosed(b: Books, reports: seq<Report>, l: Report)
    requires Tracked(b.table) && Closed(b, l)
    ensures Closed(Reported(b, reports), l)
  {
    ReportsLater(b.table, reports);
    ChecksOnlySettle(b.verify, reports);
    OverLater(b.table, ApplyReports(b.table, reports), l.odno, l.day);
  }

  /** A contradiction closes its order. */
  lemma LateIsClosed(b: Books, reports: seq<Report>, l: Report)
    requires Tracked(b.table) && ChecksOver(b) && l in LateReports(b.verify, reports)
    ensures Checks(b.verify, l) && Closed(Reported(b, reports), l)
  {
    OneAlertPerOrder(b.verify, reports);
    ChecksOnlySettle(b.verify, reports);
    ReportsLater(b.table, reports);
    assert Contradicts(b.verify, reports, l);
    var k :| 0 <= k < |reports| && reports[k] == l;
    assert Over(b.table, l.odno, l.day);
    OverLater(b.table, ApplyReports(b.table, reports), l.odno, l.day);
  }

  /** Expiry and pruning close nothing again. */
  lemma EndKeeps(b: Books, today: nat)
    requires Tracked(b.table)
    ensures var done := Books(Expire(b.table, today), Prune(b.verify, today));
            && Later(b.table, done.table) && Tracked(done.table) && (ChecksOver(b) ==> ChecksOver(done))
            && forall l :: Closed(b, l) ==> Closed(done, l)
  {
    var done := Books(Expire(b.table, today), Prune(b.verify, today));
    ExpiryIsLater(b.table, today);
    forall l | Closed(b, l) ensures Closed(done, l) {
      OverLater(b.table, done.table, l.odno, l.day);
    }
    if ChecksOver(b) {
      forall k | k in done.verify ensures Over(done.table, k, done.verify[k].day) {
        OverLater(b.table, done.table, k, b.verify[k].day);
      }
    }
  }

  lemma ExpiryIsLater(t: Table, today: nat)
    requires Tracked(t)
    ensures Later(t, Expire(t, today)) && Tracked(Expire(t, today))
  {
  }

  lemma PhaseTracked(enabled: bool, b: Books, w: Outside)
    requires Tracked(b.table)
    ensures Tracked(FallbackPhase(enabled, b, w).books.table)
  {
    if enabled && Wanted(b.table) && w.positions.Some? {
      FallbackCompletes(b.table, |b.table|, b.verify, Totals(w.positions.value, false), Totals(w.books(b.table), true));
    }
  }

  // ---------------------------------------------------------------- one cycle

  /** A cycle keeps what was closed, and closes what it contradicts. */
  lemma RoundCloses(r: Round, l: Report)
    requires Tracked(r.before.table) && ChecksOver(r.before)
    requires Closed(r.before, l) || l in AlertsOf(r.before, r.today, r.w)
    ensures Closed(BooksAfter(r), l)
  {
    var b := r.before;
    if !Idle(b) && r.w.history(From(b), r.today).Some? {
      var reports := r.w.history(From(b), r.today).value;
      if Closed(b, l) { ReportsKeepClosed(b, reports, l); } else { LateIsClosed(b, reports, l); }
      ReportsLater(b.table, reports);
      PhaseKeepsClosed(r.enabled, Reported(b, reports), r.w, l);
      PhaseTracked(r.enabled, Reported(b, reports), r.w);
      EndKeeps(FallbackPhase(r.enabled, Reported(b, reports), r.w).books, r.today);
    }
  }

  lemma RoundChecksOver(r: Round)
    requires Tracked(r.before.table) && ChecksOver(r.before)
    ensures ChecksOver(BooksAfter(r))
  {
    var b := r.before;
    if !Idle(b) && r.w.history(From(b), r.today).Some? {
      var reports := r.w.history(From(b), r.today).value;
      ReportsKeepOver(b, reports);
      ReportsLater(b.table, reports);
      PhaseChecksOver(r.enabled, Reported(b, reports), r.w);
      PhaseTracked(r.enabled, Reported(b, reports), r.w);
      EndKeeps(FallbackPhase(r.enabled, Reported(b, reports), r.w).books, r.today);
    }
  }

  /** New contradictions are of orders still checked: of no two the same, and of none closed before. */
  lemma RoundAlertsOnce(r: Round, past: seq<Report>)
    requires OnePerOrder(past) && AllClosed(r.before, past)
    ensures OnePerOrder(past + AlertsOf(r.before, r.today, r.w))
  {
    var b, late := r.before, AlertsOf(r.before, r.today, r.w);
    if late != [] {
      var reports := r.w.history(From(b), r.today).value;
      OneAlertPerOrder(b.verify, reports);
      forall j, k | 0 <= j < |past| && 0 <= k < |late|
        ensures past[j].odno != late[k].odno || past[j].day != late[k].day
      {
        assert Closed(b, past[j]) && late[k] in late && Contradicts(b.verify, reports, late[k]);
      }
    }
  }

  // ---------------------------------------------------------------- over successive cycles

  ghost predicate Settled(b: Books, alerts: seq<Report>) { Tracked(b.table) && ChecksOver(b) && AllClosed(b, alerts) }

  lemma NextSettled(b: Books, next: Books, alerts: seq<Report>)
    requires Settled(b, alerts) && next.verify == b.verify && Later(b.table, next.table) && Tracked(next.table)
    ensures Settled(next, alerts)
  {
    forall k | k in next.verify ensures Over(next.table, k, next.verify[k].day) {
      OverLater(b.table, next.table, k, b.verify[k].day);
    }
    forall k | 0 <= k < |alerts| ensures Closed(next, alerts[k]) {
      assert Closed(b, alerts[k]);
      OverLater(b.table, next.table, alerts[k].odno, alerts[k].day);
    }
  }

  lemma RoundSettles(r: Round, past: seq<Report>)
    requires Settled(r.before, past)
    ensures Settled(BooksAfter(r), past + AlertsOf(r.before, r.today, r.w))
  {
    var alerts := past + AlertsOf(r.before, r.today, r.w);
    RoundChecksOver(r);
    RoundTracked(r);
    forall k | 0 <= k < |alerts| ensures Closed(BooksAfter(r), alerts[k]) {
      if k < |past| { assert Closed(r.before, past[k]); }
      RoundCloses(r, alerts[k]);
    }
  }

  lemma RoundTracked(r: Round)
    requires Tracked(r.before.table)
    ensures Tracked(BooksAfter(r).table)
  {
    var b := r.before;
    if !Idle(b) && r.w.history(From(b), r.today).Some? {
      var reports := r.w.history(From(b), r.today).value;
      ReportsLater(b.table, reports);
      PhaseTracked(r.enabled, Reported(b, reports), r.w);
      EndKeeps(FallbackPhase(r.enabled, Reported(b, reports), r.w).books, r.today);
    }
  }

  lemma SuccessiveInit(rounds: seq<Round>)
    requires Successive(rounds) && rounds != []
    ensures Successive(rounds[..|rounds| - 1])
  {
    var init := rounds[..|rounds| - 1];
    forall k | 0 < k < |init| ensures Follows(init[k - 1], init[k]) {
      assert Follows(rounds[k - 1], rounds[k]);
    }
  }

  lemma {:induction false} RoundsSettle(rounds: seq<Round>)
    requires Successive(rounds) && rounds != []
    ensures OnePerOrder(Alerts(rounds)) && Settled(BooksAfter(rounds[|rounds| - 1]), Alerts(rounds))
  {
    var n := |rounds| - 1;
    var init, r := rounds[..n], rounds[n];
    if n == 0 {
      assert init == [] && Alerts(init) == [];
    } else {
      SuccessiveInit(rounds);
      RoundsSettle(init);
      assert Follows(rounds[n - 1], rounds[n]);
      NextSettled(BooksAfter(init[n - 1]), r.before, Alerts(init));
    }
    RoundAlertsOnce(r, Alerts(init));
    RoundSettles(r, Alerts(init));
  }

  /** Over any number of successive cycles, whatever happens between them, each order the fallback completed is
      contradicted at most once. */
  lemma OneAlertOverCycles(rounds: seq<Round>)
    requires Successive(rounds)
    ensures OnePerOrder(Alerts(rounds))
  {
    if rounds != [] { RoundsSettle(rounds); }
  }
}
