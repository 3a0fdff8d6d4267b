/** What two successive poll cycles of one day owe an order that the fallback completed: a smaller fill in the ledger is
    reported (fill_scheduler.py). And which orders a cycle expires. */
module PollContradictions {
  import opened Collections
  import opened FillRecovery
  import opened PollCycle
  import opened FallbackReads
  import opened PollAlerts

  // ---------------------------------------------------------------- a completed order is checked

  /** What the fallback recorded in full stays checked, unless a later order of the same number was completed too. */
  lemma {:induction false} FiredIsChecked(t: Table, n: nat, verify: Verify, broker: map<string, real>,
                                          book: map<string, real>, i: nat)
    requires Tracked(t) && i < n <= |t| && Fires(t, i, broker, book)
    requires forall j :: i < j < n && Fires(t, j, broker, book) ==> t[j].odno != t[i].odno
    ensures var v := Fallback(t, n, verify, broker, book).verify;
            t[i].odno in v && v[t[i].odno] == VerifyEntry(t[i].ordered, t[i].day)
  {
    FallbackPointwise(t, n - 1, verify, broker, book);
    var before := Fallback(t, n - 1, verify, broker, book).table;
    CompletedTracked(t, before, n - 1, broker, book);
    if i < n - 1 {
      FiredIsChecked(t, n - 1, verify, broker, book, i);
    } else {
      FullFillCompletes(before, i);
    }
  }

  /** The table once the reports of a cycle are applied. */
  function AfterReports(b: Books, today: nat, w: Outside): Table
    requires !Idle(b) && w.history(From(b), today).Some?
  {
    ApplyReports(b.table, w.history(From(b), today).value)
  }

  /** The fallback of this cycle recorded order `i`, which no report had, in full. */
  ghost predicate RecordedHere(r: Round, i: nat)
  {
    && !Idle(r.before) && r.w.history(From(r.before), r.today).Some?
    && var t, done := AfterReports(r.before, r.today, r.w), BooksAfter(r).table;
       i < |t| == |done| && t[i].recorded == 0.0 && done[i].recorded == done[i].ordered > 0.0
  }

  /** So it did, and no later one of its number. */
  ghost predicate CompletedHere(r: Round, i: nat)
  {
    RecordedHere(r, i)
    && var t, done := AfterReports(r.before, r.today, r.w), BooksAfter(r).table;
       forall j :: i < j < |t| && t[j].odno == t[i].odno ==> done[j].recorded == t[j].recorded
  }

  /** Orders are read in the order of their submission, and none is of a later day. */
  ghost predicate BySubmission(t: Table, today: nat)
  {
    && (forall i, j :: 0 <= i < j < |t| ==> t[i].day <= t[j].day)
    && (forall i :: 0 <= i < |t| ==> t[i].day <= today)
  }

  /** Of an order of today there is no later one of its number. */
  lemma NoLaterOfItsNumber(r: Round, i: nat)
    requires Tracked(r.before.table) && BySubmission(r.before.table, r.today)
    requires i < |r.before.table| && r.before.table[i].day == r.today && RecordedHere(r, i)
    ensures CompletedHere(r, i)
  {
    var t := AfterReports(r.before, r.today, r.w);
    SameOrders(r.before.table, r.w.history(From(r.before), r.today).value);
    assert forall j :: i < j < |t| ==> t[j].day == r.today;
  }

  lemma SameOrders(t: Table, reports: seq<Report>)
    requires Tracked(t)
    ensures var u := ApplyReports(t, reports);
            && |u| == |t| && Tracked(u)
            && forall i :: 0 <= i < |t| ==> u[i].odno == t[i].odno && u[i].day == t[i].day
  {
    ReportsAdvance(t, reports);
  }

  lemma CompletedIsChecked(r: Round, i: nat)
    requires Tracked(r.before.table) && CompletedHere(r, i) && !Cycle(r.enabled, r.before, r.today, r.w).raised
    ensures var o := BooksAfter(r).table[i];
            o.day >= r.today ==>
              o.odno in BooksAfter(r).verify && BooksAfter(r).verify[o.odno] == VerifyEntry(o.ordered, o.day)
  {
    var t := AfterReports(r.before, r.today, r.w);
    var reports := r.w.history(From(r.before), r.today).value;
    var v := VerifyReports(r.before.verify, reports);
    ReportsLater(r.before.table, reports);
    var phase := FallbackPhase(r.enabled, Books(t, v), r.w);
    assert BooksAfter(r).table == Expire(phase.books.table, r.today);
    if r.enabled && Wanted(t) {
      var broker, book := Totals(r.w.positions.value, false), Totals(r.w.books(t), true);
      FallbackCompletes(t, |t|, v, broker, book);
      assert phase.books.table[i] == After(t, i, |t|, broker, book);
      forall j | i < j < |t| && Fires(t, j, broker, book) ensures t[j].odno != t[i].odno {
        assert phase.books.table[j] == Completed(t[j]);
      }
      FiredIsChecked(t, |t|, v, broker, book, i);
    }
  }

  // ---------------------------------------------------------------- a smaller fill is reported

  /** The first report of an order that shows a fill. */
  ghost predicate FirstShown(reports: seq<Report>, k: nat, odno: string, day: nat)
  {
    && k < |reports| && reports[k].odno == odno && reports[k].day == day && reports[k].cumulative > 0.0
    && forall j :: 0 <= j < k && reports[j].odno == odno && reports[j].day == day ==> reports[j].cumulative <= 0.0
  }

  lemma {:induction false} CheckWaits(v: Verify, reports: seq<Report>, odno: string, day: nat)
    requires odno in v && v[odno].day == day
    requires forall j :: 0 <= j < |reports| && reports[j].odno == odno && reports[j].day == day ==>
               reports[j].cumulative <= 0.0
    ensures odno in VerifyReports(v, reports) && VerifyReports(v, reports)[odno] == v[odno]
  {
    if reports != [] {
      var init := reports[..|reports| - 1];
      assert forall j :: 0 <= j < |init| ==> init[j] == reports[j];
      CheckWaits(v, init, odno, day);
    }
  }

  lemma {:induction false} SmallerIsLate(v: Verify, reports: seq<Report>, k: nat, odno: string, day: nat)
    requires odno != "" && odno in v && v[odno].day == day && FirstShown(reports, k, odno, day)
    ensures reports[k].cumulative < v[odno].recorded <==> reports[k] in LateReports(v, reports)
  {
    var init, r := reports[..|reports| - 1], reports[|reports| - 1];
    assert forall j :: 0 <= j < |init| ==> init[j] == reports[j];
    if k < |init| {
      SmallerIsLate(v, init, k, odno, day);
      CheckSettled(v, init, k, odno, day);
    } else {
      CheckWaits(v, init, odno, day);
      NotLateBefore(v, init, r);
    }
  }

  lemma CheckSettled(v: Verify, reports: seq<Report>, k: nat, odno: string, day: nat)
    requires odno != "" && odno in v && v[odno].day == day && FirstShown(reports, k, odno, day)
    ensures odno !in VerifyReports(v, reports)
  {
    ChecksOnlySettle(v, reports);
    assert Relevant(reports[k]) && Checks(v, reports[k]);
  }

  /** A report of an order that is still checked is not among those already taken as contradictions. */
  lemma NotLateBefore(v: Verify, reports: seq<Report>, r: Report)
    requires r.odno in VerifyReports(v, reports)
    ensures r !in LateReports(v, reports)
  {
    OneAlertPerOrder(v, reports);
    ChecksOnlySettle(v, reports);
  }

  /** When a cycle's fallback has recorded an order of that day in full, the next cycle of the day asks for the ledger,
      and raises an alert on the first fill it shows of the order if and only if that is less than was ordered. */
  lemma ContradictionIsReported(r: Round, next: Round, i: nat, reports: seq<Report>, k: nat)
    requires Tracked(r.before.table) && CompletedHere(r, i) && !Cycle(r.enabled, r.before, r.today, r.w).raised
    requires BooksAfter(r).table[i].day == r.today && Follows(r, next)
    ensures !Idle(next.before) && From(next.before) <= r.today
    ensures var o := BooksAfter(r).table[i];
            next.w.history(From(next.before), next.today) == Some(reports) && FirstShown(reports, k, o.odno, o.day) ==>
              (reports[k].cumulative < o.ordered <==> reports[k] in AlertsOf(next.before, next.today, next.w))
  {
    var o := BooksAfter(r).table[i];
    CompletedIsChecked(r, i);
    assert next.before.verify != map[] && o.day in Days(next.before);
    RoundTracked(r);
    if next.w.history(From(next.before), next.today) == Some(reports) && FirstShown(reports, k, o.odno, o.day) {
      SmallerIsLate(next.before.verify, reports, k, o.odno, o.day);
    }
  }

  lemma RoundLater(r: Round)
    requires Tracked(r.before.table)
    ensures Later(r.before.table, BooksAfter(r).table)
  {
    var b := r.before;
    if !Idle(b) && r.w.history(From(b), r.today).Some? {
      var c := Reported(b, r.w.history(From(b), r.today).value);
      var u := FallbackPhase(r.enabled, c, r.w).books.table;
      ReportsLater(b.table, r.w.history(From(b), r.today).value);
      PhaseLater(r.enabled, c, r.w);
      PhaseTracked(r.enabled, c, r.w);
      ExpiryIsLater(u, r.today);
      LaterTwice(b.table, c.table, u);
      LaterTwice(b.table, u, Expire(u, r.today));
    }
  }

  /** With the orders read as they were submitted, this holds of every order of the day that the fallback records. */
  lemma TodaysContradictionIsReported(r: Round, next: Round, i: nat, reports: seq<Report>, k: nat)
    requires Tracked(r.before.table) && BySubmission(r.before.table, r.today)
    requires i < |r.before.table| && r.before.table[i].day == r.today && RecordedHere(r, i)
    requires !Cycle(r.enabled, r.before, r.today, r.w).raised && Follows(r, next)
    ensures !Idle(next.before) && From(next.before) <= r.today
    ensures var o := r.before.table[i];
            next.w.history(From(next.before), next.today) == Some(reports) && FirstShown(reports, k, o.odno, o.day) ==>
              (reports[k].cumulative < o.ordered <==> reports[k] in AlertsOf(next.before, next.today, next.w))
  {
    NoLaterOfItsNumber(r, i);
    RoundLater(r);
    assert Kept(r.before.table[i], BooksAfter(r).table[i]);
    ContradictionIsReported(r, next, i, reports, k);
  }

  // ---------------------------------------------------------------- expiry

  /** At the end of a cycle exactly the open orders of earlier days of which neither a report nor the fallback knew a
      fill are expired; every other order is as reports and fallback left it. */
  lemma ExpiresExactly(enabled: bool, b: Books, today: nat, w: Outside, i: nat)
    requires !Idle(b) && w.history(From(b), today).Some? && !Cycle(enabled, b, today, w).raised
    ensures var t := FallbackPhase(enabled, Reported(b, w.history(From(b), today).value), w).books.table;
            var done := Cycle(enabled, b, today, w).books.table;
            && |done| == |t|
            && (i < |t| ==>
                  done[i] == if t[i].status == Open && t[i].day < today then t[i].(status := Expired) else t[i])
  {
  }
}
