/** Poll before expire, over every run: submissions, cancellations, streamed fills, day changes and failing
    calls may fall between any two steps of a poll cycle (fill_scheduler.py, order_tracker.py). */
module PollRuns {
  import opened Collections
  import opened FillRecovery
  import opened PollCycle

  datatype Phase =
    | Resting
    | Reading(today: nat)                                               // before reading the open orders
    | Fetching(today: nat, from: int)                                   // the history call is in flight
    | Applying(today: nat, from: int, reports: seq<Report>, next: nat)  // applying what it returned
    | Recovering(today: nat, from: int, reports: seq<Report>)           // in the position fallback
    | Expiring(today: nat, from: int, reports: seq<Report>)

  /** One expiry: the table it found, and the successful history call that preceded it. */
  datatype Sweep = Sweep(before: Table, today: nat, from: int, reports: seq<Report>)

  datatype State = State(table: Table, day: nat, phase: Phase, sweeps: seq<Sweep>)

  datatype Move =
    // outside the poller
    | NewDay | Submit(o: Order) | Cancel(i: nat) | Fill(r: Report)
    // the poller; `verify` is whatever the fallback still waits to have confirmed
    | Begin | Read(verify: Verify) | Answer(history: Option<seq<Report>>) | ApplyNext | Recover(ok: bool) | ExpireNow

  predicate New(t: Table, o: Order, day: nat)
  {
    && o.odno != "" && o.ordered > 0.0 && o.recorded == 0.0 && o.status == Open && o.day == day
    && forall i :: 0 <= i < |t| ==> t[i].odno != o.odno || t[i].day != o.day
  }

  /** The fallback's own fills are `Fill` moves: they may come at any time. */
  function Step(s: State, m: Move): State
  {
    match m
    case NewDay => s.(day := s.day + 1)
    case Submit(o) => if New(s.table, o, s.day) then s.(table := s.table + [o]) else s
    case Cancel(i) =>
      if i < |s.table| && s.table[i].status != Filled
      then s.(table := s.table[i := s.table[i].(status := Cancelled)]) else s
    case Fill(r) => s.(table := ApplyCumulative(s.table, r))
    case Begin => if s.phase.Resting? then s.(phase := Reading(s.day)) else s
    case Read(verify) =>
      if !s.phase.Reading? then s
      else if Idle(Books(s.table, verify)) then s.(phase := Resting)
      else s.(phase := Fetching(s.phase.today, From(Books(s.table, verify))))
    case Answer(history) =>
      if !s.phase.Fetching? then s
      else if history.None? then s.(phase := Resting)
      else s.(phase := Applying(s.phase.today, s.phase.from, history.value, 0))
    case ApplyNext =>
      if !s.phase.Applying? then s
      else if s.phase.next >= |s.phase.reports| then
        s.(phase := Recovering(s.phase.today, s.phase.from, s.phase.reports))
      else
        var r := s.phase.reports[s.phase.next];
        s.(table := if Relevant(r) then ApplyCumulative(s.table, r) else s.table,
           phase := s.phase.(next := s.phase.next + 1))
    case Recover(ok) =>
      if !s.phase.Recovering? then s
      else if ok then s.(phase := Expiring(s.phase.today, s.phase.from, s.phase.reports))
      else s.(phase := Resting)
    case ExpireNow =>
      if !s.phase.Expiring? then s
      else State(Expire(s.table, s.phase.today), s.day, Resting,
                 s.sweeps + [Sweep(s.table, s.phase.today, s.phase.from, s.phase.reports)])
  }

  function Run(day: nat, moves: seq<Move>): State
  {
    if moves == [] then State([], day, Resting, [])
    else Step(Run(day, moves[..|moves| - 1]), moves[|moves| - 1])
  }

  // ---------------------------------------------------------------- the invariant

  /** The window of the poll covers every order the cycle may expire. */
  ghost predicate Covered(t: Table, today: nat, from: int)
  {
    forall i {:trigger t[i]} :: 0 <= i < |t| && Stale(t[i], today) ==> from <= t[i].day
  }

  /** No order the cycle may expire has a reported fill among the first `n` reports. */
  ghost predicate Unreported(t: Table, today: nat, reports: seq<Report>, n: nat)
  {
    forall k, i {:trigger reports[k], t[i]} ::
      (0 <= k < n && k < |reports| && Relevant(reports[k]) && 0 <= i < |t| && Stale(t[i], today)) ==>
        reports[k].odno != t[i].odno || reports[k].day != t[i].day
  }

  ghost predicate PhaseOk(t: Table, day: nat, p: Phase)
  {
    match p
    case Resting => true
    case Reading(today) => today <= day
    case Fetching(today, from) => today <= day && Covered(t, today, from)
    case Applying(today, from, reports, next) =>
      today <= day && Covered(t, today, from) && Unreported(t, today, reports, next)
    case Recovering(today, from, reports) =>
      today <= day && Covered(t, today, from) && Unreported(t, today, reports, |reports|)
    case Expiring(today, from, reports) =>
      today <= day && Covered(t, today, from) && Unreported(t, today, reports, |reports|)
  }

  ghost predicate SweepOk(w: Sweep)
  {
    Covered(w.before, w.today, w.from) && Unreported(w.before, w.today, w.reports, |w.reports|)
  }

  /** Sweep `w` expired order `i`. */
  ghost predicate Swept(w: Sweep, t: Table, i: nat)
    requires i < |t|
  {
    i < |w.before| && Stale(w.before[i], w.today) && w.before[i].odno == t[i].odno && w.before[i].day == t[i].day
  }

  ghost predicate Inv(s: State)
  {
    && Tracked(s.table)
    && PhaseOk(s.table, s.day, s.phase)
    && (forall w {:trigger SweepOk(s.sweeps[w])} :: 0 <= w < |s.sweeps| ==> SweepOk(s.sweeps[w]))
    && (forall i {:trigger s.table[i]} :: 0 <= i < |s.table| && s.table[i].status == Expired ==>
          exists w :: 0 <= w < |s.sweeps| && Swept(s.sweeps[w], s.table, i))
  }

  /** What may happen to the table while a cycle that began on `today` is under way. */
  ghost predicate Evolves(t: Table, t': Table, today: nat)
  {
    && |t| <= |t'|
    && (forall i :: 0 <= i < |t| ==>
          t'[i].odno == t[i].odno && t'[i].day == t[i].day
          && (t'[i].status == Open ==> t[i].status == Open) && (t'[i].status == Expired ==> t[i].status == Expired))
    && (forall i :: |t| <= i < |t'| ==> today <= t'[i].day && t'[i].status == Open)
  }

  lemma CoveredStays(t: Table, t': Table, today: nat, from: int)
    requires Covered(t, today, from) && Evolves(t, t', today)
    ensures Covered(t', today, from)
  {
    forall i | 0 <= i < |t'| && Stale(t'[i], today) ensures from <= t'[i].day {
      assert Stale(t[i], today);
    }
  }

  lemma UnreportedStays(t: Table, t': Table, today: nat, reports: seq<Report>, n: nat)
    requires Unreported(t, today, reports, n) && Evolves(t, t', today)
    ensures Unreported(t', today, reports, n)
  {
    forall k, i | 0 <= k < n && k < |reports| && Relevant(reports[k]) && 0 <= i < |t'| && Stale(t'[i], today)
      ensures reports[k].odno != t'[i].odno || reports[k].day != t'[i].day
    {
      assert Stale(t[i], today);
    }
  }

  lemma PhaseStays(t: Table, t': Table, day: nat, p: Phase)
    requires PhaseOk(t, day, p) && Evolves(t, t', day)
    ensures PhaseOk(t', day, p)
  {
    if !p.Resting? && !p.Reading? {
      CoveredStays(t, t', p.today, p.from);
      match p
      case Applying(today, from, reports, next) => UnreportedStays(t, t', today, reports, next);
      case Recovering(today, from, reports) => UnreportedStays(t, t', today, reports, |reports|);
      case Expiring(today, from, reports) => UnreportedStays(t, t', today, reports, |reports|);
      case _ =>
    }
  }

  lemma SweptStays(s: State, s': State)
    requires Inv(s) && s'.sweeps == s.sweeps && Evolves(s.table, s'.table, s.day)
    ensures forall i {:trigger s'.table[i]} :: 0 <= i < |s'.table| && s'.table[i].status == Expired ==>
              exists w :: 0 <= w < |s'.sweeps| && Swept(s'.sweeps[w], s'.table, i)
  {
    forall i | 0 <= i < |s'.table| && s'.table[i].status == Expired
      ensures exists w :: 0 <= w < |s'.sweeps| && Swept(s'.sweeps[w], s'.table, i)
    {
      assert s.table[i].status == Expired;
      var w :| 0 <= w < |s.sweeps| && Swept(s.sweeps[w], s.table, i);
      assert Swept(s'.sweeps[w], s'.table, i);
    }
  }

  /** A move that changes the table and nothing else. */
  lemma TableMoveKeeps(s: State, s': State)
    requires Inv(s) && s' == s.(table := s'.table) && Tracked(s'.table) && Evolves(s.table, s'.table, s.day)
    ensures Inv(s')
  {
    PhaseStays(s.table, s'.table, s.day, s.phase);
    SweptStays(s, s');
    forall w | 0 <= w < |s'.sweeps| ensures SweepOk(s'.sweeps[w]) {
      assert SweepOk(s.sweeps[w]);
    }
  }

  /** A move that changes the phase and nothing else. */
  lemma PhaseMoveKeeps(s: State, p: Phase, day: nat)
    requires Inv(s) && PhaseOk(s.table, day, p)
    ensures Inv(s.(phase := p, day := day))
  {
    forall w | 0 <= w < |s.sweeps| ensures SweepOk(s.sweeps[w]) { }
  }

  lemma ReportMoves(t: Table, r: Report, today: nat)
    requires Tracked(t)
    ensures Tracked(ApplyCumulative(t, r)) && Evolves(t, ApplyCumulative(t, r), today)
  {
    ApplyAdvances(t, r);
    LookupSpec(t, r.odno, r.day);
  }

  lemma SubmitKeeps(s: State, o: Order)
    requires Inv(s) && New(s.table, o, s.day)
    ensures Inv(s.(table := s.table + [o]))
  {
    TableMoveKeeps(s, s.(table := s.table + [o]));
  }

  lemma {:induction false} CancelKeeps(s: State, i: nat)
    requires Inv(s) && i < |s.table| && s.table[i].status != Filled
    ensures Inv(s.(table := s.table[i := s.table[i].(status := Cancelled)]))
  {
    TableMoveKeeps(s, s.(table := s.table[i := s.table[i].(status := Cancelled)]));
  }

  lemma FillKeeps(s: State, r: Report)
    requires Inv(s)
    ensures Inv(s.(table := ApplyCumulative(s.table, r)))
  {
    ReportMoves(s.table, r, s.day);
    TableMoveKeeps(s, s.(table := ApplyCumulative(s.table, r)));
  }

  /** The window starts no later than any live order. */
  lemma ReadCovers(t: Table, verify: Verify, today: nat)
    requires !Idle(Books(t, verify))
    ensures Covered(t, today, From(Books(t, verify)))
  {
    forall i | 0 <= i < |t| && Stale(t[i], today) ensures From(Books(t, verify)) <= t[i].day {
      assert t[i].day in Days(Books(t, verify));
    }
  }

  /** Applying a report takes its own order out of reach of the expiry. */
  lemma AppliedIsUnreported(t: Table, today: nat, reports: seq<Report>, n: nat)
    requires Tracked(t) && n < |reports| && Unreported(t, today, reports, n)
    ensures var t' := if Relevant(reports[n]) then ApplyCumulative(t, reports[n]) else t;
            Unreported(t', today, reports, n + 1)
  {
    var r := reports[n];
    var t' := if Relevant(r) then ApplyCumulative(t, r) else t;
    ReportMoves(t, r, today);
    forall k, i | 0 <= k < n + 1 && k < |reports| && Relevant(reports[k]) && 0 <= i < |t'| && Stale(t'[i], today)
      ensures reports[k].odno != t'[i].odno || reports[k].day != t'[i].day
    {
      assert Stale(t[i], today);
      if k == n && r.odno == t[i].odno && r.day == t[i].day { LookupSelf(t, i); }
    }
  }

  lemma ApplyNextKeeps(s: State)
    requires Inv(s) && s.phase.Applying? && s.phase.next < |s.phase.reports|
    ensures Inv(Step(s, ApplyNext))
  {
    var p := s.phase;
    var r := p.reports[p.next];
    AppliedIsUnreported(s.table, p.today, p.reports, p.next);
    if Relevant(r) { FillKeeps(s, r); }
    var s1 := s.(table := if Relevant(r) then ApplyCumulative(s.table, r) else s.table);
    PhaseMoveKeeps(s1, p.(next := p.next + 1), s.day);
  }

  lemma ExpireKeeps(s: State)
    requires Inv(s) && s.phase.Expiring?
    ensures Inv(Step(s, ExpireNow))
  {
    var s' := Step(s, ExpireNow);
    var sweep := Sweep(s.table, s.phase.today, s.phase.from, s.phase.reports);
    forall w | 0 <= w < |s'.sweeps| ensures SweepOk(s'.sweeps[w]) {
      if w < |s.sweeps| { assert SweepOk(s.sweeps[w]); }
    }
    forall i | 0 <= i < |s'.table| && s'.table[i].status == Expired
      ensures exists w :: 0 <= w < |s'.sweeps| && Swept(s'.sweeps[w], s'.table, i)
    {
      if Stale(s.table[i], s.phase.today) {
        assert Swept(s'.sweeps[|s.sweeps|], s'.table, i);
      } else {
        assert s.table[i].status == Expired;
        var w :| 0 <= w < |s.sweeps| && Swept(s.sweeps[w], s.table, i);
        assert Swept(s'.sweeps[w], s'.table, i);
      }
    }
  }

  lemma {:induction false} StepKeeps(s: State, m: Move)
    requires Inv(s)
    ensures Inv(Step(s, m))
  {
    var p := s.phase;
    match m {
      case NewDay => PhaseMoveKeeps(s, p, s.day + 1);
      case Submit(o) => if New(s.table, o, s.day) { SubmitKeeps(s, o); }
      case Cancel(i) => if i < |s.table| && s.table[i].status != Filled { CancelKeeps(s, i); }
      case Fill(r) => FillKeeps(s, r);
      case Begin => if p.Resting? { PhaseMoveKeeps(s, Reading(s.day), s.day); }
      case Read(verify) =>
        if p.Reading? {
          if Idle(Books(s.table, verify)) {
            PhaseMoveKeeps(s, Resting, s.day);
          } else {
            ReadCovers(s.table, verify, p.today);
            PhaseMoveKeeps(s, Fetching(p.today, From(Books(s.table, verify))), s.day);
          }
        }
      case Answer(history) =>
        if p.Fetching? {
          PhaseMoveKeeps(s, if history.None? then Resting else Applying(p.today, p.from, history.value, 0), s.day);
        }
      case ApplyNext =>
        if p.Applying? {
          if p.next >= |p.reports| {
            PhaseMoveKeeps(s, Recovering(p.today, p.from, p.reports), s.day);
          } else {
            ApplyNextKeeps(s);
          }
        }
      case Recover(ok) =>
        if p.Recovering? {
          PhaseMoveKeeps(s, if ok then Expiring(p.today, p.from, p.reports) else Resting, s.day);
        }
      case ExpireNow => if p.Expiring? { ExpireKeeps(s); }
    }
  }

  lemma {:induction false} RunKeeps(day: nat, moves: seq<Move>)
    ensures Inv(Run(day, moves))
  {
    if moves != [] {
      RunKeeps(day, moves[..|moves| - 1]);
      StepKeeps(Run(day, moves[..|moves| - 1]), moves[|moves| - 1]);
    }
  }

  // ---------------------------------------------------------------- what every run guarantees

  /** Over every run, an expired order was expired by a cycle that began on a later day than the order's, after
      a history call that succeeded over a window containing its day and reported no fill of it. In particular
      no order submitted during the cycle, and none in a cycle whose history call raised. */
  lemma {:induction false} PollBeforeExpire(day: nat, moves: seq<Move>, i: nat)
    ensures var s := Run(day, moves);
            i < |s.table| && s.table[i].status == Expired ==>
              exists w :: 0 <= w < |s.sweeps| && Swept(s.sweeps[w], s.table, i)
                && s.sweeps[w].from <= s.table[i].day < s.sweeps[w].today
                && forall k :: 0 <= k < |s.sweeps[w].reports| && Relevant(s.sweeps[w].reports[k]) ==>
                     s.sweeps[w].reports[k].odno != s.table[i].odno || s.sweeps[w].reports[k].day != s.table[i].day
  {
    RunKeeps(day, moves);
    var s := Run(day, moves);
    if i < |s.table| && s.table[i].status == Expired {
      var w :| 0 <= w < |s.sweeps| && Swept(s.sweeps[w], s.table, i);
      assert SweepOk(s.sweeps[w]);
      assert Stale(s.sweeps[w].before[i], s.sweeps[w].today);
    }
  }
}
