/** What the broker cache keeps in every run, whatever the interleaving (account/service.py). */
module BrokerCacheProofs {
  import opened Collections
  import opened BrokerCache

  // ---------------------------------------------------------------- the invariant

  predicate UnderLock(pc: Pc)
  {
    pc.GetLocked? || pc.GetBuilding? || pc.GetConnecting? || pc.SwapLocked? || pc.SwapBuilding?
    || pc.SwapConnecting? || pc.PeekLocked?
  }

  predicate Connecting(pc: Pc) { pc.GetConnecting? || pc.SwapConnecting? }

  predicate Updating(pc: Pc)
  {
    pc.Writing? || pc.SwapWaiting? || pc.SwapLocked? || pc.SwapBuilding? || pc.SwapConnecting?
    || pc.Updated? || pc.ReconnectFailed? || pc.Interrupted?
  }

  predicate Live(s: State, a: nat) { a < |s.built| && s.built[a].connected }

  /** The configuration that is being connected, if any: only the holder of the lock connects. */
  function UnderWay(s: State): Option<nat>
  {
    if s.lock.None? || s.lock.value !in s.tasks then None
    else
      var pc := s.tasks[s.lock.value];
      if Connecting(pc) && pc.a < |s.built| then Some(s.built[pc.a].version) else None
  }

  /** An update that is through is part of whatever is cached or being connected. */
  ghost predicate TaskOk(s: State, t: nat)
    requires t in s.tasks
  {
    var pc := s.tasks[t];
    && (UnderLock(pc) <==> s.lock == Some(t))
    && (Updating(pc) ==> 1 <= pc.v <= |s.updates| && s.updates[pc.v - 1] == t)
    && (Connecting(pc) ==> pc.a < |s.built| && s.built[pc.a].version <= |s.updates|)
    && (pc.SwapConnecting? ==> pc.v <= s.built[pc.a].version)
    && (pc.Got? ==> Live(s, pc.a))
    && (pc.Peeked? && pc.found.Some? ==> Live(s, pc.found.value))
    && (pc.Updated? && s.cached.Some? && s.cached.value < |s.built| ==> pc.v <= s.built[s.cached.value].version)
    && (pc.Updated? && UnderWay(s).Some? ==> pc.v <= UnderWay(s).value)
  }

  ghost predicate UpdateOk(s: State, v: nat)
    requires 1 <= v <= |s.updates|
  {
    var t := s.updates[v - 1];
    t in s.tasks && Updating(s.tasks[t]) && s.tasks[t].v == v
  }

  ghost predicate Inv(s: State)
  {
    && (s.lock.Some? ==> s.lock.value in s.tasks)
    && (s.cached.Some? ==> Live(s, s.cached.value) && s.built[s.cached.value].version <= |s.updates|)
    && (forall t {:trigger TaskOk(s, t)} :: t in s.tasks ==> TaskOk(s, t))
    && (forall v {:trigger UpdateOk(s, v)} :: 1 <= v <= |s.updates| ==> UpdateOk(s, v))
  }

  /** Everything but coroutine `t` stays as it was; adapters are only added or connected. */
  ghost predicate Extends(s: State, s': State, t: nat)
  {
    && s'.tasks.Keys == s.tasks.Keys + {t}
    && (forall u :: u in s.tasks && u != t ==> s'.tasks[u] == s.tasks[u])
    && |s.built| <= |s'.built|
    && (forall a :: 0 <= a < |s.built| ==>
          s'.built[a].version == s.built[a].version && (s.built[a].connected ==> s'.built[a].connected))
    && s.updates <= s'.updates
  }

  /** What is left to show of a move of `t`. */
  lemma Assemble(s: State, s': State, t: nat)
    requires Inv(s) && Extends(s, s', t) && t in s'.tasks && TaskOk(s', t)
    requires s'.lock == s.lock || s'.lock == Some(t) || (s.lock == Some(t) && s'.lock == None)
    requires s'.lock == s.lock || s.lock.None? || s.lock == Some(t)
    requires s'.cached.Some? ==> Live(s', s'.cached.value) && s'.built[s'.cached.value].version <= |s'.updates|
    requires forall u {:trigger TaskOk(s, u)} :: u in s.tasks && u != t && s.tasks[u].Updated? && s'.cached.Some? ==>
               s.tasks[u].v <= s'.built[s'.cached.value].version
    requires UnderWay(s').Some? ==> UnderWay(s') == UnderWay(s) || UnderWay(s').value == |s'.updates|
    requires forall v {:trigger UpdateOk(s', v)} :: 1 <= v <= |s'.updates| && s'.updates[v - 1] == t ==> UpdateOk(s', v)
    requires s'.updates == s.updates || s'.updates == s.updates + [t]
    ensures Inv(s')
  {
    forall u | u in s'.tasks ensures TaskOk(s', u) {
      if u != t { assert TaskOk(s, u); }
    }
    forall v | 1 <= v <= |s'.updates| ensures UpdateOk(s', v) {
      if s'.updates[v - 1] != t { assert UpdateOk(s, v); }
    }
  }

  /** A move that builds, connects and caches nothing. */
  lemma QuietKeeps(s: State, s': State, t: nat)
    requires Inv(s) && t in s.tasks && Extends(s, s', t) && TaskOk(s', t)
    requires s'.built == s.built && s'.cached == s.cached && s'.updates == s.updates
    requires s'.lock == s.lock || (s.lock.None? && s'.lock == Some(t)) || (s.lock == Some(t) && s'.lock.None?)
    requires !Connecting(s'.tasks[t]) && (s'.tasks[t].Updated? ==> UnderLock(s.tasks[t]) || s.tasks[t] == s'.tasks[t])
    requires Updating(s.tasks[t]) ==> Updating(s'.tasks[t]) && s'.tasks[t].v == s.tasks[t].v
    ensures Inv(s')
  {
    assert TaskOk(s, t);
    forall v | 1 <= v <= |s'.updates| && s'.updates[v - 1] == t ensures UpdateOk(s', v) {
      assert UpdateOk(s, v);
    }
    forall u | u in s.tasks && u != t && s.tasks[u].Updated? && s'.cached.Some?
      ensures s.tasks[u].v <= s'.built[s'.cached.value].version
    {
      assert TaskOk(s, u);
    }
    Assemble(s, s', t);
  }

  /** Moving on without the lock. */
  lemma MoveKeeps(s: State, t: nat, pc: Pc)
    requires Inv(s) && t in s.tasks && !UnderLock(s.tasks[t]) && !UnderLock(pc) && !pc.Updated?
    requires pc.Got? ==> Live(s, pc.a)
    requires pc.Peeked? && pc.found.Some? ==> Live(s, pc.found.value)
    requires if Updating(s.tasks[t]) then Updating(pc) && pc.v == s.tasks[t].v else !Updating(pc)
    ensures Inv(Goto(s, t, pc))
  {
    assert TaskOk(s, t);
    QuietKeeps(s, Goto(s, t, pc), t);
  }

  lemma AcquireKeeps(s: State, t: nat, pc: Pc)
    requires Inv(s) && t in s.tasks && !UnderLock(s.tasks[t]) && UnderLock(pc) && !Connecting(pc)
    requires if Updating(s.tasks[t]) then Updating(pc) && pc.v == s.tasks[t].v else !Updating(pc)
    ensures Inv(Acquire(s, t, pc))
  {
    assert TaskOk(s, t);
    if s.lock.None? { QuietKeeps(s, Acquire(s, t, pc), t); }
  }

  /** Moving on under the lock. */
  lemma AdvanceKeeps(s: State, t: nat, pc: Pc)
    requires Inv(s) && t in s.tasks && UnderLock(s.tasks[t]) && UnderLock(pc) && !Connecting(pc)
    requires if Updating(s.tasks[t]) then Updating(pc) && pc.v == s.tasks[t].v else !Updating(pc)
    ensures Inv(Goto(s, t, pc))
  {
    assert TaskOk(s, t);
    QuietKeeps(s, Goto(s, t, pc), t);
  }

  lemma LeaveKeeps(s: State, t: nat, pc: Pc)
    requires Inv(s) && t in s.tasks && UnderLock(s.tasks[t]) && !UnderLock(pc) && (pc.Updated? ==> s.cached.None?)
    requires pc.Got? ==> Live(s, pc.a)
    requires pc.Peeked? && pc.found.Some? ==> Live(s, pc.found.value)
    requires if Updating(s.tasks[t]) then Updating(pc) && pc.v == s.tasks[t].v else !Updating(pc)
    ensures Inv(Leave(s, t, pc))
  {
    assert TaskOk(s, t);
    QuietKeeps(s, Leave(s, t, pc), t);
  }

  lemma BuildKeeps(s: State, t: nat, pc: Pc)
    requires Inv(s) && t in s.tasks && UnderLock(s.tasks[t]) && Connecting(pc) && pc.a == |s.built|
    requires if Updating(s.tasks[t]) then Updating(pc) && pc.v == s.tasks[t].v else !Updating(pc)
    ensures Inv(Goto(Built(s), t, pc))
  {
    var s' := Goto(Built(s), t, pc);
    assert TaskOk(s, t);
    forall v | 1 <= v <= |s'.updates| && s'.updates[v - 1] == t ensures UpdateOk(s', v) {
      assert UpdateOk(s, v);
    }
    forall u | u in s.tasks && u != t && s.tasks[u].Updated? && s'.cached.Some?
      ensures s.tasks[u].v <= s'.built[s'.cached.value].version
    {
      assert TaskOk(s, u);
    }
    Assemble(s, s', t);
  }

  lemma ConnectKeeps(s: State, t: nat, pc: Pc)
    requires Inv(s) && t in s.tasks && Connecting(s.tasks[t]) && s.tasks[t].a < |s.built|
    requires if Updating(s.tasks[t]) then pc == Updated(s.tasks[t].v) else pc == Got(s.tasks[t].a)
    requires Updating(s.tasks[t]) ==> s.tasks[t].v <= s.built[s.tasks[t].a].version
    ensures Inv(Leave(Connected(s, s.tasks[t].a), t, pc))
  {
    var a := s.tasks[t].a;
    var s' := Leave(Connected(s, a), t, pc);
    assert TaskOk(s, t);
    forall v | 1 <= v <= |s'.updates| && s'.updates[v - 1] == t ensures UpdateOk(s', v) {
      assert UpdateOk(s, v);
    }
    forall u | u in s.tasks && u != t && s.tasks[u].Updated? && s'.cached.Some?
      ensures s.tasks[u].v <= s'.built[s'.cached.value].version
    {
      assert TaskOk(s, u);
    }
    Assemble(s, s', t);
  }

  lemma NewcomerHasNoUpdate(s: State, t: nat)
    requires Inv(s) && t !in s.tasks
    ensures t !in s.updates
  {
    forall i | 0 <= i < |s.updates| ensures s.updates[i] != t {
      assert UpdateOk(s, i + 1);
    }
  }

  lemma {:induction false} SpawnKeeps(s: State, t: nat, pc: Pc)
    requires Inv(s) && t !in s.tasks && (pc.GetFast? || pc.PeekWaiting?)
    ensures Inv(Goto(s, t, pc))
  {
    var s' := Goto(s, t, pc);
    NewcomerHasNoUpdate(s, t);
    forall u | u in s.tasks && u != t && s.tasks[u].Updated? && s'.cached.Some?
      ensures s.tasks[u].v <= s'.built[s'.cached.value].version
    {
      assert TaskOk(s, u);
    }
    Assemble(s, s', t);
  }

  lemma {:induction false} UpdateKeeps(s: State, t: nat)
    requires Inv(s) && t !in s.tasks
    ensures Inv(Step(s, Update(t)))
  {
    var s' := Step(s, Update(t));
    NewcomerHasNoUpdate(s, t);
    forall u | u in s.tasks && u != t && s.tasks[u].Updated? && s'.cached.Some?
      ensures s.tasks[u].v <= s'.built[s'.cached.value].version
    {
      assert TaskOk(s, u);
    }
    Assemble(s, s', t);
  }

  lemma {:induction false} ProceedKeeps(s: State, t: nat, ok: bool)
    requires Inv(s) && t in s.tasks
    ensures Inv(Proceed(s, t, ok))
  {
    assert TaskOk(s, t);
    match s.tasks[t]
    case GetFast => MoveKeeps(s, t, if s.cached.Some? then Got(s.cached.value) else GetWaiting);
    case GetWaiting => AcquireKeeps(s, t, GetLocked);
    case GetLocked =>
      if s.cached.Some? { LeaveKeeps(s, t, Got(s.cached.value)); } else { AdvanceKeeps(s, t, GetBuilding); }
    case GetBuilding =>
      if ok { BuildKeeps(s, t, GetConnecting(|s.built|)); } else { LeaveKeeps(s, t, GetFailed); }
    case GetConnecting(a) => if ok { ConnectKeeps(s, t, Got(a)); } else { LeaveKeeps(s, t, GetFailed); }
    case Writing(v) => MoveKeeps(s, t, if ok then SwapWaiting(v) else Interrupted(v));
    case SwapWaiting(v) => AcquireKeeps(s, t, SwapLocked(v));
    case SwapLocked(v) =>
      if s.cached.None? { LeaveKeeps(s, t, Updated(v)); } else { AdvanceKeeps(s, t, SwapBuilding(v)); }
    case SwapBuilding(v) =>
      if ok { BuildKeeps(s, t, SwapConnecting(v, |s.built|)); } else { LeaveKeeps(s, t, ReconnectFailed(v)); }
    case SwapConnecting(v, a) =>
      if ok { ConnectKeeps(s, t, Updated(v)); } else { LeaveKeeps(s, t, ReconnectFailed(v)); }
    case PeekWaiting => AcquireKeeps(s, t, PeekLocked);
    case PeekLocked => LeaveKeeps(s, t, Peeked(s.cached));
    case Got(_) | GetFailed | Updated(_) | ReconnectFailed(_) | Interrupted(_) | Peeked(_) =>
  }

  lemma {:induction false} CancelKeeps(s: State, t: nat)
    requires Inv(s) && t in s.tasks
    ensures Inv(Cancel(s, t))
  {
    match s.tasks[t]
    case GetWaiting | PeekWaiting => MoveKeeps(s, t, GetFailed);
    case GetConnecting(_) => LeaveKeeps(s, t, GetFailed);
    case Writing(v) => MoveKeeps(s, t, Interrupted(v));
    case SwapWaiting(v) => MoveKeeps(s, t, Interrupted(v));
    case SwapConnecting(v, _) => LeaveKeeps(s, t, Interrupted(v));
    case _ =>
  }

  lemma {:induction false} StepKeeps(s: State, m: Move)
    requires Inv(s)
    ensures Inv(Step(s, m))
  {
    match m
    case Get(t) => if t !in s.tasks { SpawnKeeps(s, t, GetFast); }
    case Update(t) => if t !in s.tasks { UpdateKeeps(s, t); }
    case Peek(t) => if t !in s.tasks { SpawnKeeps(s, t, PeekWaiting); }
    case Continue(t, ok) => if t in s.tasks { ProceedKeeps(s, t, ok); }
    case Abort(t) => if t in s.tasks { CancelKeeps(s, t); }
  }

  lemma {:induction false} RunKeeps(moves: seq<Move>)
    ensures Inv(Run(moves))
  {
    if moves != [] {
      RunKeeps(moves[..|moves| - 1]);
      StepKeeps(Run(moves[..|moves| - 1]), moves[|moves| - 1]);
    }
  }

  // ---------------------------------------------------------------- what every run guarantees

  /** Only connected adapters are cached or handed out. */
  lemma {:induction false} OnlyConnectedAreShared(moves: seq<Move>, t: nat)
    ensures var s := Run(moves);
            && (s.cached.Some? ==> Live(s, s.cached.value))
            && (t in s.tasks && s.tasks[t].Got? ==> Live(s, s.tasks[t].a))
            && (t in s.tasks && s.tasks[t].Peeked? && s.tasks[t].found.Some? ==> Live(s, s.tasks[t].found.value))
  {
    RunKeeps(moves);
    var s := Run(moves);
    if t in s.tasks { assert TaskOk(s, t); }
  }

  predicate Busy(pc: Pc) { Connecting(pc) || pc.GetBuilding? || pc.SwapBuilding? || pc.PeekLocked? }

  /** At most one coroutine builds or connects, and nobody does while `get_cached_broker` reads the cache. */
  lemma {:induction false} OneBuilds(moves: seq<Move>, t: nat, u: nat)
    ensures var s := Run(moves);
            t in s.tasks && u in s.tasks && Busy(s.tasks[t]) && Busy(s.tasks[u]) ==> t == u
  {
    RunKeeps(moves);
    var s := Run(moves);
    if t in s.tasks && u in s.tasks { assert TaskOk(s, t) && TaskOk(s, u); }
  }

  /** An update that is still writing its row or reconnecting. */
  predicate Pending(pc: Pc) { Updating(pc) && !pc.Updated? && !pc.ReconnectFailed? && !pc.Interrupted? }

  /** Every configuration newer than the cached adapter belongs to an update that is still reconnecting, or
      that reported a failed reconnect, or that never got through its row write or its wait. */
  lemma {:induction false} StaleHasACause(moves: seq<Move>, v: nat)
    ensures var s := Run(moves);
            s.cached.Some? && 1 <= v <= |s.updates| ==>
              s.cached.value < |s.built| && s.updates[v - 1] in s.tasks
              && (s.built[s.cached.value].version < v ==>
                    Pending(s.tasks[s.updates[v - 1]])
                    || s.tasks[s.updates[v - 1]] in {ReconnectFailed(v), Interrupted(v)})
  {
    RunKeeps(moves);
    var s := Run(moves);
    if s.cached.Some? && 1 <= v <= |s.updates| { assert UpdateOk(s, v) && TaskOk(s, s.updates[v - 1]); }
  }

  /** When no update is pending and none went wrong, the cache holds the current configuration. */
  lemma {:induction false} QuiescentIsCurrent(moves: seq<Move>)
    ensures var s := Run(moves);
            s.cached.Some? && (forall t :: t in s.tasks && Updating(s.tasks[t]) ==> s.tasks[t].Updated?) ==>
              s.cached.value < |s.built| && s.built[s.cached.value].version == |s.updates|
  {
    RunKeeps(moves);
    var s := Run(moves);
    if s.cached.Some? && |s.updates| > 0 { StaleHasACause(moves, |s.updates|); }
  }
}
