/** What repeating a poll cycle with the same answers from outside can still change. */
module PollRepeat {
  import opened Collections
  import opened FillRecovery
  import opened PollCycle

  /** The broker answers the same every time. */
  ghost predicate Answers(w: Outside, reports: seq<Report>)
  {
    && (forall from, to {:trigger w.history(from, to)} :: w.history(from, to) == Some(reports))
    && w.positions.Some?
  }

  /** What the books can show of a position: nothing when it is short. */
  function Long(x: real): real { if x > 0.0 then x else 0.0 }

  /** The broker answers the same every time, and the books follow the recorded fills. */
  ghost predicate Steady(w: Outside, reports: seq<Report>, opening: string -> real)
  {
    && Answers(w, reports)
    && forall t, symbol {:trigger At(Totals(w.books(t), true), symbol)} ::
         At(Totals(w.books(t), true), symbol) == Long(opening(symbol) + Net(t, Recorded(t), symbol))
  }

  function Broker(w: Outside): map<string, real>
    requires w.positions.Some?
  {
    Totals(w.positions.value, false)
  }

  function Book(w: Outside, t: Table): map<string, real> { Totals(w.books(t), true) }

  function Completions(t: Table, w: Outside): Table
    requires w.positions.Some?
  {
    Fallback(t, |t|, map[], Broker(w), Book(w, t)).table
  }

  /** The table after a cycle in which nothing raised. */
  function Polled(t: Table, reports: seq<Report>, today: nat, w: Outside): Table
    requires w.positions.Some?
  {
    Expire(Completions(ApplyReports(t, reports), w), today)
  }

  lemma {:induction false} VerifyIsAside(t: Table, n: nat, v: Verify, u: Verify,
                                         broker: map<string, real>, book: map<string, real>)
    ensures Fallback(t, n, v, broker, book).table == Fallback(t, n, u, broker, book).table
  {
    if n > 0 { VerifyIsAside(t, n - 1, v, u, broker, book); }
  }

  lemma {:induction false} NothingWantedNothingFires(t: Table, n: nat, broker: map<string, real>,
                                                     book: map<string, real>)
    requires !Wanted(t) && n <= |t|
    ensures Fallback(t, n, map[], broker, book).table == t
  {
    if n > 0 { NothingWantedNothingFires(t, n - 1, broker, book); }
  }

  lemma {:induction false} DeadTablesTakeNoReports(t: Table, reports: seq<Report>)
    requires forall i :: 0 <= i < |t| ==> !Live(t[i])
    ensures ApplyReports(t, reports) == t
  {
    if reports != [] {
      DeadTablesTakeNoReports(t, reports[..|reports| - 1]);
      LookupSpec(t, reports[|reports| - 1].odno, reports[|reports| - 1].day);
    }
  }

  /** Skipping the poll of an idle account makes no difference to the table. */
  lemma {:induction false} CycleIsPolled(b: Books, reports: seq<Report>, today: nat, w: Outside)
    requires Answers(w, reports)
    ensures var done := Cycle(true, b, today, w);
            !done.raised && done.books.table == Polled(b.table, reports, today, w)
  {
    var t := ApplyReports(b.table, reports);
    if Idle(b) { DeadTablesTakeNoReports(b.table, reports); }
    if Wanted(t) {
      VerifyIsAside(t, |t|, VerifyReports(b.verify, reports), map[], Broker(w), Book(w, t));
    } else {
      NothingWantedNothingFires(t, |t|, Broker(w), Book(w, t));
    }
    if Idle(b) { assert Expire(t, today) == t; }
  }

  // ---------------------------------------------------------------- counting live buys

  predicate IsLiveBuy(o: Order, symbol: string) { o.buy && Live(o) && o.symbol == symbol }

  lemma {:induction false} NoLiveBuysCounted(t: Table, symbol: string)
    requires forall j :: 0 <= j < |t| ==> !IsLiveBuy(t[j], symbol)
    ensures LiveBuys(t, symbol) == 0
  {
    if t != [] { NoLiveBuysCounted(t[..|t| - 1], symbol); }
  }

  lemma {:induction false} AloneCounted(t: Table, symbol: string, i: nat)
    requires i < |t| && IsLiveBuy(t[i], symbol)
    requires forall j :: 0 <= j < |t| && j != i ==> !IsLiveBuy(t[j], symbol)
    ensures LiveBuys(t, symbol) == 1
  {
    if i < |t| - 1 { AloneCounted(t[..|t| - 1], symbol, i); } else { NoLiveBuysCounted(t[..i], symbol); }
  }

  lemma {:induction false} CountedAlone(t: Table, symbol: string, i: nat, j: nat)
    requires i < j < |t| && IsLiveBuy(t[i], symbol) && IsLiveBuy(t[j], symbol)
    ensures LiveBuys(t, symbol) >= 2
  {
    if j < |t| - 1 { CountedAlone(t[..|t| - 1], symbol, i, j); } else { OneLiveBuy(t[..j], symbol, i); }
  }

  /** The uniqueness gate of the fallback, as a statement about the orders. */
  lemma UniqueIff(t: Table, symbol: string, i: nat)
    requires i < |t| && IsLiveBuy(t[i], symbol)
    ensures LiveBuys(t, symbol) == 1 <==> forall j :: 0 <= j < |t| && j != i ==> !IsLiveBuy(t[j], symbol)
  {
    if forall j :: 0 <= j < |t| && j != i ==> !IsLiveBuy(t[j], symbol) {
      AloneCounted(t, symbol, i);
    } else {
      var j :| 0 <= j < |t| && j != i && IsLiveBuy(t[j], symbol);
      if i < j { CountedAlone(t, symbol, i, j); } else { CountedAlone(t, symbol, j, i); }
    }
  }

  // ---------------------------------------------------------------- the second cycle

  lemma {:induction false} SameRecordsSameNet(t: Table, u: Table, symbol: string)
    requires |t| == |u|
    requires forall i :: 0 <= i < |t| ==> t[i].symbol == u[i].symbol && t[i].buy == u[i].buy
                                          && (t[i].symbol == symbol ==> t[i].recorded == u[i].recorded)
    ensures Net(t, Recorded(t), symbol) == Net(u, Recorded(u), symbol)
  {
    if t != [] {
      var n := |t| - 1;
      assert Recorded(t)[..n] == Recorded(t[..n]) && Recorded(u)[..n] == Recorded(u[..n]);
      SameRecordsSameNet(t[..n], u[..n], symbol);
    }
  }

  /** Order `i` was held back only by older open buys of its symbol, which the cycle then expired. */
  ghost predicate HeldBack(t: Table, i: nat, today: nat, w: Outside)
    requires w.positions.Some?
  {
    && i < |t| && Unrecovered(t[i]) && !Stale(t[i], today)
    && Excess(Broker(w), Book(w, t), t[i].symbol) > 0.0
    && Excess(Broker(w), Book(w, t), t[i].symbol) == t[i].ordered
    && LiveBuys(t, t[i].symbol) != 1
    && (forall j :: 0 <= j < |t| && j != i && IsLiveBuy(t[j], t[i].symbol) ==> Stale(t[j], today))
  }

  /** A completed order had the only live buy of its symbol, so other symbols' positions did not move. */
  lemma CompletionsKeepExcess(t: Table, i: nat, today: nat, w: Outside, reports: seq<Report>, opening: string -> real)
    requires Tracked(t) && Steady(w, reports, opening) && i < |t| && t[i].buy && Live(t[i])
    requires !Fires(t, i, Broker(w), Book(w, t))
    ensures var u := Expire(Completions(t, w), today);
            |u| == |t| && (forall j :: 0 <= j < |t| && t[j].symbol == t[i].symbol ==>
                             u[j] == if Stale(t[j], today) then t[j].(status := Expired) else t[j])
            && Excess(Broker(w), Book(w, u), t[i].symbol) == Excess(Broker(w), Book(w, t), t[i].symbol)
  {
    var symbol := t[i].symbol;
    FallbackCompletes(t, |t|, map[], Broker(w), Book(w, t));
    var u := Expire(Completions(t, w), today);
    forall j | 0 <= j < |t| && t[j].symbol == symbol ensures !Fires(t, j, Broker(w), Book(w, t)) {
      if j != i && Unrecovered(t[j]) { UniqueIff(t, symbol, j); }
    }
    forall j | 0 <= j < |t| ensures Completions(t, w)[j] == After(t, j, |t|, Broker(w), Book(w, t)) { }
    SameRecordsSameNet(t, u, symbol);
  }

  lemma FiresAgainIff(t: Table, i: nat, today: nat, w: Outside, reports: seq<Report>, opening: string -> real)
    requires Tracked(t) && Steady(w, reports, opening) && i < |t|
    ensures var u := Expire(Completions(t, w), today);
            Fires(u, i, Broker(w), Book(w, u)) <==> HeldBack(t, i, today, w)
  {
    var u := Expire(Completions(t, w), today);
    FallbackCompletes(t, |t|, map[], Broker(w), Book(w, t));
    assert Completions(t, w)[i] == After(t, i, |t|, Broker(w), Book(w, t));
    if Fires(t, i, Broker(w), Book(w, t)) {
      assert !Live(u[i]);
    } else if Unrecovered(t[i]) {
      var symbol := t[i].symbol;
      CompletionsKeepExcess(t, i, today, w, reports, opening);
      if !Stale(t[i], today) {
        UniqueIff(u, symbol, i);
        forall j | 0 <= j < |t| ensures IsLiveBuy(u[j], symbol) <==> IsLiveBuy(t[j], symbol) && !Stale(t[j], today) {
          OtherSymbolsApart(t, j, today, w);
        }
      }
    }
  }

  lemma OtherSymbolsApart(t: Table, j: nat, today: nat, w: Outside)
    requires Tracked(t) && w.positions.Some? && j < |t|
    ensures var u := Expire(Completions(t, w), today);
            |u| == |t| && u[j].symbol == t[j].symbol
  {
    FallbackCompletes(t, |t|, map[], Broker(w), Book(w, t));
    assert Completions(t, w)[j] == After(t, j, |t|, Broker(w), Book(w, t));
  }

  /** What a cycle makes of one order. */
  function Settled(o: Order, fires: bool, today: nat): Order
  {
    if fires then Completed(o) else if Stale(o, today) then o.(status := Expired) else o
  }

  lemma PolledPointwise(t: Table, today: nat, w: Outside)
    requires Tracked(t) && w.positions.Some?
    ensures var u := Expire(Completions(t, w), today);
            |u| == |t| && forall i :: 0 <= i < |t| ==> u[i] == Settled(t[i], Fires(t, i, Broker(w), Book(w, t)), today)
  {
    FallbackCompletes(t, |t|, map[], Broker(w), Book(w, t));
    var c := Completions(t, w);
    forall i | 0 <= i < |t| ensures c[i] == After(t, i, |t|, Broker(w), Book(w, t)) { }
  }

  /** Orders settled one by one stay the tracker's orders. */
  lemma SettlingNarrows(t: Table, u: Table, fires: seq<bool>, today: nat)
    requires Tracked(t) && |u| == |t| == |fires| && forall i :: 0 <= i < |t| ==> u[i] == Settled(t[i], fires[i], today)
    requires forall i :: 0 <= i < |t| && fires[i] ==> Unrecovered(t[i])
    ensures Narrows(t, u) && Tracked(u) && forall i :: 0 <= i < |u| ==> !Stale(u[i], today)
  {
  }

  lemma PolledNarrows(t: Table, today: nat, w: Outside)
    requires Tracked(t) && w.positions.Some?
    ensures var u := Expire(Completions(t, w), today);
            && Narrows(t, u) && Tracked(u) && (OnlyNewestLive(t) ==> OnlyNewestLive(u))
            && forall i :: 0 <= i < |u| ==> !Stale(u[i], today)
  {
    PolledPointwise(t, today, w);
    var fires := seq(|t|, i requires 0 <= i < |t| => Fires(t, i, Broker(w), Book(w, t)));
    SettlingNarrows(t, Expire(Completions(t, w), today), fires, today);
  }

  /** Expiring and completing again changes a freshly expired table exactly if some order fires. */
  lemma CompletionsChangeIff(u: Table, today: nat, w: Outside)
    requires Tracked(u) && w.positions.Some? && forall i :: 0 <= i < |u| ==> !Stale(u[i], today)
    ensures Expire(Completions(u, w), today) == u <==> forall i :: 0 <= i < |u| ==> !Fires(u, i, Broker(w), Book(w, u))
  {
    FallbackCompletes(u, |u|, map[], Broker(w), Book(w, u));
    var c, e := Completions(u, w), Expire(Completions(u, w), today);
    forall i | 0 <= i < |u| ensures e[i] == After(u, i, |u|, Broker(w), Book(w, u)) {
      assert c[i] == After(u, i, |u|, Broker(w), Book(w, u));
    }
    if i :| 0 <= i < |u| && Fires(u, i, Broker(w), Book(w, u)) {
      assert e[i] != u[i];
    } else {
      assert e == u;
    }
  }

  lemma RepollOnlyCompletes(t: Table, reports: seq<Report>, today: nat, w: Outside)
    requires Tracked(t) && OnlyNewestLive(t) && w.positions.Some?
    ensures var u := Polled(t, reports, today, w);
            && Tracked(u) && OnlyNewestLive(u) && (forall i :: 0 <= i < |u| ==> !Stale(u[i], today))
            && |ApplyReports(t, reports)| == |t| && Tracked(ApplyReports(t, reports))
            && ApplyReports(u, reports) == u
  {
    var t1, u := ApplyReports(t, reports), Polled(t, reports, today, w);
    ReportsAdvance(t, reports);
    OnlyNewestLiveStays(t, t1);
    PolledNarrows(t1, today, w);
    ReportsIdempotent(t, reports, u);
  }

  lemma HeldBackFiresAgain(t: Table, today: nat, w: Outside, reports: seq<Report>, opening: string -> real)
    requires Tracked(t) && Steady(w, reports, opening)
    ensures var u := Expire(Completions(t, w), today);
            |u| == |t| && ((forall i :: 0 <= i < |u| ==> !Fires(u, i, Broker(w), Book(w, u)))
                           <==> forall i :: 0 <= i < |t| ==> !HeldBack(t, i, today, w))
  {
    FallbackCompletes(t, |t|, map[], Broker(w), Book(w, t));
    var u := Expire(Completions(t, w), today);
    forall i | 0 <= i < |t| ensures Fires(u, i, Broker(w), Book(w, u)) <==> HeldBack(t, i, today, w) {
      FiresAgainIff(t, i, today, w, reports, opening);
    }
  }

  /** A second cycle with the same answers changes nothing, unless the first one expired the very orders that
      had kept a matching order from being completed. */
  lemma {:induction false} SecondPollIff(t: Table, reports: seq<Report>, today: nat, w: Outside,
                                         opening: string -> real)
    requires Tracked(t) && OnlyNewestLive(t) && Steady(w, reports, opening)
    ensures var u := Polled(t, reports, today, w);
            Polled(u, reports, today, w) == u
            <==> forall i :: 0 <= i < |t| ==> !HeldBack(ApplyReports(t, reports), i, today, w)
  {
    RepollOnlyCompletes(t, reports, today, w);
    CompletionsChangeIff(Polled(t, reports, today, w), today, w);
    HeldBackFiresAgain(ApplyReports(t, reports), today, w, reports, opening);
  }

  /** Two cycles always reach the fixed point: a third changes nothing. */
  lemma {:induction false} ThirdPollChangesNothing(t: Table, reports: seq<Report>, today: nat, w: Outside,
                                                   opening: string -> real)
    requires Tracked(t) && OnlyNewestLive(t) && Steady(w, reports, opening)
    ensures var u := Polled(Polled(t, reports, today, w), reports, today, w);
            Polled(u, reports, today, w) == u
  {
    var u := Polled(t, reports, today, w);
    RepollOnlyCompletes(t, reports, today, w);
    SecondPollIff(u, reports, today, w, opening);
    forall i | 0 <= i < |u| ensures !HeldBack(u, i, today, w) {
      if Unrecovered(u[i]) { UniqueIff(u, u[i].symbol, i); }
    }
  }

  /** The same, of the scheduler's cycle itself. */
  lemma {:induction false} SecondCycleIff(b: Books, reports: seq<Report>, today: nat, w: Outside,
                                          opening: string -> real)
    requires Tracked(b.table) && OnlyNewestLive(b.table) && Steady(w, reports, opening)
    ensures var once := Cycle(true, b, today, w).books;
            var twice := Cycle(true, once, today, w).books;
            && (twice.table == once.table <==>
                  forall i :: 0 <= i < |b.table| ==> !HeldBack(ApplyReports(b.table, reports), i, today, w))
            && Cycle(true, twice, today, w).books.table == twice.table
  {
    var once := Cycle(true, b, today, w).books;
    var twice := Cycle(true, once, today, w).books;
    CycleIsPolled(b, reports, today, w);
    CycleIsPolled(once, reports, today, w);
    CycleIsPolled(twice, reports, today, w);
    SecondPollIff(b.table, reports, today, w, opening);
    ThirdPollChangesNothing(b.table, reports, today, w, opening);
  }
}
