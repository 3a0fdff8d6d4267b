/** Which adapter a caller gets from the broker cache, and what may replace it (account/service.py). */
module BrokerSharing {
  import opened Collections
  import opened BrokerCache
  import opened BrokerCacheProofs

  // ---------------------------------------------------------------- what a step may change

  /** The coroutine that moves is one of `get_broker`. */
  predicate OfGet(pc: Pc)
  {
    pc.GetFast? || pc.GetWaiting? || pc.GetLocked? || pc.GetBuilding? || pc.GetConnecting?
  }

  /** The cache changes only by a successful connection, and then holds what was connected: nothing that fails, is
      cancelled or merely looks takes an adapter out of it. */
  lemma CacheFollows(s: State, m: Move)
    ensures Step(s, m).cached ==
            if m.Continue? && m.ok && m.t in s.tasks && Connecting(s.tasks[m.t]) && s.tasks[m.t].a < |s.built|
            then Some(s.tasks[m.t].a) else s.cached
  {
  }

  /** An adapter is built only where one is needed, from the configuration of that moment. */
  lemma BuildsFollow(s: State, m: Move)
    ensures |Step(s, m).built| ==
            |s.built| + if m.Continue? && m.ok && m.t in s.tasks
                           && (s.tasks[m.t].GetBuilding? || s.tasks[m.t].SwapBuilding?) then 1 else 0
    ensures |Step(s, m).built| > |s.built| ==> Step(s, m).built[|s.built|] == Adapter(|s.updates|, false)
  {
  }

  /** Who gets an adapter gets the one that is then in the cache; who peeks is told what is in it. */
  lemma HandsOutTheCached(s: State, m: Move, t: nat)
    requires t in s.tasks
    ensures var s' := Step(s, m);
            && t in s'.tasks
            && (s'.tasks[t].Got? && !s.tasks[t].Got? ==> s'.cached == Some(s'.tasks[t].a))
            && (s'.tasks[t].Peeked? && !s.tasks[t].Peeked? ==> s'.tasks[t].found == s.cached)
  {
    match m
    case Continue(u, ok) =>
      if u in s.tasks { if u == t { ProceedHandsOut(s, t, ok); } else { ProceedMovesOne(s, u, ok, t); } }
    case _ =>
  }

  lemma ProceedMovesOne(s: State, u: nat, ok: bool, t: nat)
    requires u in s.tasks && u != t
    ensures t in Proceed(s, u, ok).tasks <==> t in s.tasks
    ensures t in s.tasks ==> Proceed(s, u, ok).tasks[t] == s.tasks[t]
  {
  }

  lemma ProceedHandsOut(s: State, t: nat, ok: bool)
    requires t in s.tasks
    ensures var s' := Proceed(s, t, ok);
            && t in s'.tasks
            && (s'.tasks[t].Got? && !s.tasks[t].Got? ==> s'.cached == Some(s'.tasks[t].a))
            && (s'.tasks[t].Peeked? && !s.tasks[t].Peeked? ==> s'.tasks[t].found == s.cached)
  {
  }

  // ---------------------------------------------------------------- the check under the lock

  /** Whoever builds or connects for `get_broker` does so for want of a cached adapter, and whoever reconnects has one
      to replace. */
  ghost predicate Needed(s: State)
  {
    forall t {:trigger NeededBy(s, t)} :: t in s.tasks ==> NeededBy(s, t)
  }

  ghost predicate NeededBy(s: State, t: nat)
    requires t in s.tasks
  {
    && (s.tasks[t].GetBuilding? || s.tasks[t].GetConnecting? ==> s.cached.None?)
    && (s.tasks[t].SwapBuilding? || s.tasks[t].SwapConnecting? ==> s.cached.Some?)
  }

  lemma ProceedKeepsNeeded(s: State, t: nat, ok: bool, u: nat)
    requires Inv(s) && Needed(s) && t in s.tasks && u in s.tasks
    ensures u in Proceed(s, t, ok).tasks && NeededBy(Proceed(s, t, ok), u)
  {
    assert TaskOk(s, t) && TaskOk(s, u) && NeededBy(s, u) && NeededBy(s, t);
    if u != t { ProceedMovesOne(s, t, ok, u); }
  }

  lemma CancelKeepsNeeded(s: State, t: nat, u: nat)
    requires Needed(s) && t in s.tasks && u in s.tasks
    ensures u in Cancel(s, t).tasks && NeededBy(Cancel(s, t), u)
  {
    assert NeededBy(s, u) && NeededBy(s, t);
  }

  lemma StepKeepsNeeded(s: State, m: Move)
    requires Inv(s) && Needed(s)
    ensures Needed(Step(s, m))
  {
    var s' := Step(s, m);
    forall u | u in s'.tasks ensures NeededBy(s', u) {
      if u in s.tasks { assert NeededBy(s, u); }
      match m
      case Continue(t, ok) =>
        if t in s.tasks {
          ProceedAddsNone(s, t, ok);
          ProceedKeepsNeeded(s, t, ok, u);
        }
      case Abort(t) => if t in s.tasks { CancelKeepsNeeded(s, t, u); }
      case _ =>
    }
  }

  lemma ProceedAddsNone(s: State, t: nat, ok: bool)
    requires t in s.tasks
    ensures Proceed(s, t, ok).tasks.Keys == s.tasks.Keys
  {
  }

  lemma {:induction false} RunKeepsNeeded(moves: seq<Move>)
    ensures Needed(Run(moves))
  {
    if moves != [] {
      RunKeeps(moves[..|moves| - 1]);
      RunKeepsNeeded(moves[..|moves| - 1]);
      StepKeepsNeeded(Run(moves[..|moves| - 1]), moves[|moves| - 1]);
    }
  }

  /** Over every run: while something is cached, no move of a `get_broker` builds, connects or replaces anything; and
      while nothing is, none of an update does. */
  lemma {:induction false} NothingNeedless(moves: seq<Move>, m: Move)
    ensures var s := Run(moves);
            var s' := Step(s, m);
            m.Continue? && m.t in s.tasks ==>
              && (OfGet(s.tasks[m.t]) && s.cached.Some? ==> s'.built == s.built && s'.cached == s.cached)
              && (Updating(s.tasks[m.t]) && s.cached.None? ==> s'.built == s.built && s'.cached == s.cached)
  {
    RunKeepsNeeded(moves);
    var s := Run(moves);
    if m.Continue? && m.t in s.tasks { assert NeededBy(s, m.t); }
  }

  // ---------------------------------------------------------------- runs without updates

  predicate WithoutUpdates(moves: seq<Move>) { forall k :: 0 <= k < |moves| ==> !moves[k].Update? }

  /** One adapter at most is connected; it is the cached one, and everybody has it. */
  ghost predicate Shared(s: State)
  {
    && s.updates == []
    && (forall a :: 0 <= a < |s.built| && s.built[a].connected ==> s.cached == Some(a))
    && (forall t :: t in s.tasks && s.tasks[t].Got? ==> s.cached == Some(s.tasks[t].a))
    && (forall t :: t in s.tasks ==> !Updating(s.tasks[t]))
  }

  lemma StepKeepsShared(s: State, m: Move)
    requires Inv(s) && Needed(s) && Shared(s) && !m.Update?
    ensures Shared(Step(s, m))
  {
    match m
    case Continue(t, ok) => if t in s.tasks { ProceedKeepsShared(s, t, ok); }
    case Abort(t) => if t in s.tasks { CancelKeepsShared(s, t); }
    case _ =>
  }

  lemma ProceedKeepsShared(s: State, t: nat, ok: bool)
    requires Inv(s) && Needed(s) && Shared(s) && t in s.tasks
    ensures Shared(Proceed(s, t, ok))
  {
    assert TaskOk(s, t) && NeededBy(s, t);
    match s.tasks[t]
    case GetConnecting(a) => if ok && a < |s.built| { ConnectKeepsShared(s, t, a); }
    case _ =>
  }

  lemma ConnectKeepsShared(s: State, t: nat, a: nat)
    requires Shared(s) && s.cached.None? && a < |s.built|
    ensures Shared(Leave(Connected(s, a), t, Got(a)))
  {
  }

  lemma CancelKeepsShared(s: State, t: nat)
    requires Shared(s) && t in s.tasks
    ensures Shared(Cancel(s, t))
  {
  }

  lemma {:induction false} RunKeepsShared(moves: seq<Move>)
    requires WithoutUpdates(moves)
    ensures Shared(Run(moves))
  {
    if moves != [] {
      RunKeeps(moves[..|moves| - 1]);
      RunKeepsNeeded(moves[..|moves| - 1]);
      RunKeepsShared(moves[..|moves| - 1]);
      StepKeepsShared(Run(moves[..|moves| - 1]), moves[|moves| - 1]);
    }
  }

  /** However many callers race for a cold cache, one adapter is connected and all of them get that one. */
  lemma {:induction false} OneAdapterForAll(moves: seq<Move>, t: nat, u: nat, a: nat)
    requires WithoutUpdates(moves)
    ensures var s := Run(moves);
            && (t in s.tasks && u in s.tasks && s.tasks[t].Got? && s.tasks[u].Got? ==> s.tasks[t].a == s.tasks[u].a)
            && (t in s.tasks && s.tasks[t].Got? && a < |s.built| && s.built[a].connected ==> s.tasks[t].a == a)
  {
    RunKeepsShared(moves);
  }

  // ---------------------------------------------------------------- one coroutine alone

  /** The coroutine goes on, and what it awaits succeeds. */
  function Going(t: nat): State -> State { s => Step(s, Continue(t, true)) }

  /** It goes on `k` times. */
  function Drive(s: State, t: nat, k: nat): State { Iterate(Going(t), s, k) }

  /** `get_broker` with nothing in its way: the cached adapter, or a new one, connected and cached. */
  lemma GetAlone(s: State, t: nat)
    requires t in s.tasks && s.tasks[t].GetFast? && s.lock.None?
    ensures if s.cached.Some? then Drive(s, t, 1) == Goto(s, t, Got(s.cached.value))
            else Drive(s, t, 5) == Goto(s, t, Got(|s.built|)).(built := s.built + [Adapter(|s.updates|, true)],
                                                              cached := Some(|s.built|))
  {
    var locked := s.(lock := Some(t));
    if s.cached.Some? {
      OneStep(s, s, t, 0, Goto(s, t, Got(s.cached.value)));
    } else {
      var n, built := |s.built|, s.built + [Adapter(|s.updates|, false)];
      var connected := s.built + [Adapter(|s.updates|, true)];
      assert built[n := Adapter(|s.updates|, true)] == connected;
      OneStep(s, s, t, 0, Goto(s, t, GetWaiting));
      OneStep(s, Goto(s, t, GetWaiting), t, 1, Goto(locked, t, GetLocked));
      OneStep(s, Goto(locked, t, GetLocked), t, 2, Goto(locked, t, GetBuilding));
      OneStep(s, Goto(locked, t, GetBuilding), t, 3, Goto(locked.(built := built), t, GetConnecting(n)));
      OneStep(s, Goto(locked.(built := built), t, GetConnecting(n)), t, 4,
              Goto(s, t, Got(n)).(built := connected, cached := Some(n)));
    }
  }

  /** An update with nothing in its way: a new adapter of the new configuration takes the place of the cached one; with
      an empty cache nothing is built. */
  lemma UpdateAlone(s: State, t: nat, v: nat)
    requires t in s.tasks && s.tasks[t] == Writing(v) && s.lock.None?
    ensures if s.cached.None? then Drive(s, t, 3) == Goto(s, t, Updated(v))
            else Drive(s, t, 5) == Goto(s, t, Updated(v)).(built := s.built + [Adapter(|s.updates|, true)],
                                                           cached := Some(|s.built|))
  {
    var here := Goto(s, t, SwapLocked(v)).(lock := Some(t));
    OneStep(s, s, t, 0, Goto(s, t, SwapWaiting(v)));
    OneStep(s, Goto(s, t, SwapWaiting(v)), t, 1, here);
    if s.cached.None? {
      OneStep(s, here, t, 2, Goto(s, t, Updated(v)));
    } else {
      ReconnectAlone(here, t, v);
      IterateOn(Going(t), s, 2, 3);
    }
  }

  lemma ReconnectAlone(s: State, t: nat, v: nat)
    requires t in s.tasks && s.tasks[t] == SwapLocked(v) && s.cached.Some?
    ensures Drive(s, t, 3) == Goto(s, t, Updated(v)).(built := s.built + [Adapter(|s.updates|, true)],
                                                      cached := Some(|s.built|), lock := None)
  {
    var n, built := |s.built|, s.built + [Adapter(|s.updates|, false)];
    assert built[n := Adapter(|s.updates|, true)] == s.built + [Adapter(|s.updates|, true)];
    OneStep(s, s, t, 0, Goto(s, t, SwapBuilding(v)));
    OneStep(s, Goto(s, t, SwapBuilding(v)), t, 1, Goto(s.(built := built), t, SwapConnecting(v, n)));
    OneStep(s, Goto(s.(built := built), t, SwapConnecting(v, n)), t, 2,
            Goto(s, t, Updated(v)).(built := s.built + [Adapter(|s.updates|, true)], cached := Some(n), lock := None));
  }

  /** One more `Continue`. */
  lemma OneStep(s: State, here: State, t: nat, k: nat, there: State)
    requires Drive(s, t, k) == here && Step(here, Continue(t, true)) == there
    ensures Drive(s, t, k + 1) == there
  {
    IterateNext(Going(t), s, k, here, there);
  }

  /** What fails: a row write that fails leaves everything alone, a build or connection that fails is reported, and
      either way the lock is free again and the cache as it was. */
  lemma FailureAlone(s: State, t: nat)
    requires t in s.tasks
    ensures var s' := Step(s, Continue(t, false));
            match s.tasks[t]
            case GetBuilding | GetConnecting(_) => s' == Goto(s, t, GetFailed).(lock := None)
            case Writing(v) => s' == Goto(s, t, Interrupted(v))
            case SwapBuilding(v) => s' == Goto(s, t, ReconnectFailed(v)).(lock := None)
            case SwapConnecting(v, _) => s' == Goto(s, t, ReconnectFailed(v)).(lock := None)
            case _ => s'.cached == s.cached && s'.built == s.built
  {
  }

  /** Cancelling whatever awaits something ends it at once; it holds no lock afterwards, and the cache, the adapters and
      the others are as they were. */
  lemma CancellationEnds(s: State, t: nat)
    requires Inv(s) && t in s.tasks
    requires s.tasks[t] in {GetWaiting, PeekWaiting} || s.tasks[t].GetConnecting? || s.tasks[t].Writing?
             || s.tasks[t].SwapWaiting? || s.tasks[t].SwapConnecting?
    ensures var s' := Step(s, Abort(t));
            && s'.tasks == s.tasks[t := if s.tasks[t].Writing? || s.tasks[t].SwapWaiting? || s.tasks[t].SwapConnecting?
                                        then Interrupted(s.tasks[t].v) else GetFailed]
            && s'.lock == (if s.lock == Some(t) then None else s.lock)
            && s'.cached == s.cached && s'.built == s.built && s'.updates == s.updates
  {
    assert TaskOk(s, t);
  }
}
