/** The cached broker adapter of one account under concurrent use: getting it lazily, replacing it after a
    configuration update, peeking at it. Accounts share nothing, so one is modelled; every await is a point
    where any other coroutine may run (account/service.py). */
module BrokerCache {
  import opened Collections

  /** An adapter remembers the configuration it was built from; version `v` is the `v`-th update. */
  datatype Adapter = Adapter(version: nat, connected: bool)

  datatype Pc =
    // get_broker
    | GetFast | GetWaiting | GetLocked | GetBuilding | GetConnecting(a: nat) | Got(a: nat) | GetFailed
    // update, whose fields are already assigned, then _reconnect_broker
    | Writing(v: nat) | SwapWaiting(v: nat) | SwapLocked(v: nat) | SwapBuilding(v: nat)
    | SwapConnecting(v: nat, a: nat) | Updated(v: nat) | ReconnectFailed(v: nat) | Interrupted(v: nat)
    // get_cached_broker
    | PeekWaiting | PeekLocked | Peeked(found: Option<nat>)

  datatype State = State(
    built: seq<Adapter>,      // every adapter ever built
    cached: Option<nat>,      // which of them is in the cache
    lock: Option<nat>,
    tasks: map<nat, Pc>,
    updates: seq<nat>)        // the coroutine of each configuration version

  /** `ok` tells whether the pending row write, build or connect succeeds. `Abort` is a cancellation. */
  datatype Move = Get(t: nat) | Update(t: nat) | Peek(t: nat) | Continue(t: nat, ok: bool) | Abort(t: nat)

  function Goto(s: State, t: nat, pc: Pc): State { s.(tasks := s.tasks[t := pc]) }

  /** Leave the lock. */
  function Leave(s: State, t: nat, pc: Pc): State { Goto(s, t, pc).(lock := None) }

  function Acquire(s: State, t: nat, pc: Pc): State
  {
    if s.lock.Some? then s else Goto(s, t, pc).(lock := Some(t))
  }

  /** Build from the account object as it is now. */
  function Built(s: State): State { s.(built := s.built + [Adapter(|s.updates|, false)]) }

  function Connected(s: State, a: nat): State
    requires a < |s.built|
  {
    s.(built := s.built[a := s.built[a].(connected := true)], cached := Some(a))
  }

  function Proceed(s: State, t: nat, ok: bool): State
    requires t in s.tasks
  {
    match s.tasks[t]
    case GetFast => if s.cached.Some? then Goto(s, t, Got(s.cached.value)) else Goto(s, t, GetWaiting)
    case GetWaiting => Acquire(s, t, GetLocked)
    case GetLocked => if s.cached.Some? then Leave(s, t, Got(s.cached.value)) else Goto(s, t, GetBuilding)
    case GetBuilding => if ok then Goto(Built(s), t, GetConnecting(|s.built|)) else Leave(s, t, GetFailed)
    case GetConnecting(a) =>
      if ok && a < |s.built| then Leave(Connected(s, a), t, Got(a)) else Leave(s, t, GetFailed)
    case Writing(v) => if ok then Goto(s, t, SwapWaiting(v)) else Goto(s, t, Interrupted(v))
    case SwapWaiting(v) => Acquire(s, t, SwapLocked(v))
    case SwapLocked(v) => if s.cached.None? then Leave(s, t, Updated(v)) else Goto(s, t, SwapBuilding(v))
    case SwapBuilding(v) =>
      if ok then Goto(Built(s), t, SwapConnecting(v, |s.built|)) else Leave(s, t, ReconnectFailed(v))
    case SwapConnecting(v, a) =>
      if ok && a < |s.built| then Leave(Connected(s, a), t, Updated(v)) else Leave(s, t, ReconnectFailed(v))
    case PeekWaiting => Acquire(s, t, PeekLocked)
    case PeekLocked => Leave(s, t, Peeked(s.cached))
    case Got(_) | GetFailed | Updated(_) | ReconnectFailed(_) | Interrupted(_) | Peeked(_) => s
  }

  /** A cancelled coroutine leaves whatever it awaits: the lock, the row write or the connection. */
  function Cancel(s: State, t: nat): State
    requires t in s.tasks
  {
    match s.tasks[t]
    case GetWaiting | PeekWaiting => Goto(s, t, GetFailed)
    case GetConnecting(_) => Leave(s, t, GetFailed)
    case Writing(v) => Goto(s, t, Interrupted(v))
    case SwapWaiting(v) => Goto(s, t, Interrupted(v))
    case SwapConnecting(v, _) => Leave(s, t, Interrupted(v))
    case _ => s
  }

  function Step(s: State, m: Move): State
  {
    match m
    case Get(t) => if t in s.tasks then s else Goto(s, t, GetFast)
    case Update(t) =>
      if t in s.tasks then s else Goto(s.(updates := s.updates + [t]), t, Writing(|s.updates| + 1))
    case Peek(t) => if t in s.tasks then s else Goto(s, t, PeekWaiting)
    case Continue(t, ok) => if t in s.tasks then Proceed(s, t, ok) else s
    case Abort(t) => if t in s.tasks then Cancel(s, t) else s
  }

  function Run(moves: seq<Move>): State
  {
    if moves == [] then State([], None, None, map[], [])
    else Step(Run(moves[..|moves| - 1]), moves[|moves| - 1])
  }
}
