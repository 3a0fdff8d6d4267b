/** Issuing OAuth access tokens: one shared cache, one lock and one cooldown per app key, any number of
    adapters and concurrent calls, interleaved at every statement (kis.py). */
module TokenProtocol {
  import opened Collections

  const COOLDOWN := 60.0
  const MARGIN := 300.0
  const LIFETIME := 86400.0

  /** The cache key: the app key, its secret, and paper or live. */
  datatype Fingerprint = Fingerprint(appKey: string, appSecret: string, paper: bool)

  /** A token as the server issued it: to whom, and until when it is valid. */
  datatype Token = Token(owner: Fingerprint, serial: nat, expires: real)

  datatype Pc =
    | Entry                              // about to look at the adapter's own token
    | FastCache | FastCooldown           // outside the lock
    | Waiting                            // for the lock of the app key
    | CacheAgain | CooldownAgain         // under the lock
    | Posting                            // about to send the request
    | Issuing(n: nat)                    // request `n` of the log is in flight
    | Received(n: nat, token: Token)     // answered, not yet stored
    | Raising                            // leaving the lock with an exception
    | Returned | Failed

  datatype Task = Task(adapter: nat, pc: Pc)

  datatype Ending = Stored(at: real, token: Token) | Limited(at: real) | Dropped(at: real)

  /** A request for a token: by which coroutine, for which fingerprint, when it started and how it ended. */
  datatype Request = Request(task: nat, owner: Fingerprint, start: real, ending: Option<Ending>)

  datatype State = State(
    now: real,
    cache: map<Fingerprint, Token>,
    cooldowns: map<string, real>,
    locks: map<string, nat>,
    adapters: map<nat, Token>,
    tasks: map<nat, Task>,
    log: seq<Request>)

  /** What the token endpoint answers: a token, the rate-limit code EGW00133, or any other error. */
  datatype Reply = Granted(serial: nat) | RateLimited | Refused

  /** `direct` calls come from connecting and skip the look at the adapter's own token. */
  datatype Move =
    | Tick(d: real)
    | Call(t: nat, adapter: nat, direct: bool)
    | Continue(t: nat)
    | Answer(t: nat, reply: Reply)
    | Abort(t: nat)

  /** The configuration of each adapter. */
  type Adapters = nat -> Fingerprint

  predicate Fresh(token: Token, now: real) { now < token.expires - MARGIN }

  predicate CacheFresh(s: State, f: Fingerprint) { f in s.cache && Fresh(s.cache[f], s.now) }

  predicate Cooling(s: State, appKey: string) { appKey in s.cooldowns && s.now < s.cooldowns[appKey] }

  function Goto(s: State, t: nat, pc: Pc): State
    requires t in s.tasks
  {
    s.(tasks := s.tasks[t := s.tasks[t].(pc := pc)])
  }

  function Hydrated(s: State, t: nat, token: Token): State
    requires t in s.tasks
  {
    s.(adapters := s.adapters[s.tasks[t].adapter := token])
  }

  function Unlocked(s: State, appKey: string): State { s.(locks := s.locks - {appKey}) }

  function Ended(s: State, n: nat, e: Ending): State
    requires n < |s.log|
  {
    s.(log := s.log[n := s.log[n].(ending := Some(e))])
  }

  function Proceed(c: Adapters, s: State, t: nat): State
    requires t in s.tasks
  {
    var a := s.tasks[t].adapter;
    var f := c(a);
    match s.tasks[t].pc
    case Entry =>
      if a in s.adapters && Fresh(s.adapters[a], s.now) then Goto(s, t, Returned) else Goto(s, t, FastCache)
    case FastCache =>
      if CacheFresh(s, f) then Goto(Hydrated(s, t, s.cache[f]), t, Returned) else Goto(s, t, FastCooldown)
    case FastCooldown =>
      if Cooling(s, f.appKey) then Goto(s, t, Failed) else Goto(s, t, Waiting)
    case Waiting =>
      if f.appKey in s.locks then s else Goto(s.(locks := s.locks[f.appKey := t]), t, CacheAgain)
    case CacheAgain =>
      if CacheFresh(s, f) then Goto(Unlocked(Hydrated(s, t, s.cache[f]), f.appKey), t, Returned)
      else Goto(s, t, CooldownAgain)
    case CooldownAgain =>
      if Cooling(s, f.appKey) then Goto(s, t, Raising) else Goto(s, t, Posting)
    case Posting =>
      Goto(s.(log := s.log + [Request(t, f, s.now, None)]), t, Issuing(|s.log|))
    case Received(n, token) =>
      if n < |s.log| then
        var stored := Ended(s.(cache := s.cache[f := token]), n, Stored(s.now, token));
        Goto(Unlocked(Hydrated(stored, t, token), f.appKey), t, Returned)
      else s
    case Raising => Goto(Unlocked(s, f.appKey), t, Failed)
    case Issuing(_) | Returned | Failed => s
  }

  function Answered(c: Adapters, s: State, t: nat, n: nat, reply: Reply): State
    requires t in s.tasks && n < |s.log|
  {
    var f := c(s.tasks[t].adapter);
    match reply
    case Granted(serial) => Goto(s, t, Received(n, Token(f, serial, s.now + LIFETIME)))
    case RateLimited =>
      Goto(Ended(s.(cooldowns := s.cooldowns[f.appKey := s.now + COOLDOWN]), n, Limited(s.now)), t, Raising)
    case Refused => Goto(Ended(s, n, Dropped(s.now)), t, Raising)
  }

  /** One move of the system; a move that does not apply changes nothing. */
  function Step(c: Adapters, s: State, m: Move): State
  {
    match m
    case Tick(d) => if d >= 0.0 then s.(now := s.now + d) else s
    case Call(t, a, direct) =>
      if t in s.tasks then s else s.(tasks := s.tasks[t := Task(a, if direct then FastCache else Entry)])
    case Continue(t) => if t in s.tasks then Proceed(c, s, t) else s
    case Answer(t, reply) =>
      if t in s.tasks && s.tasks[t].pc.Issuing? && s.tasks[t].pc.n < |s.log|
      then Answered(c, s, t, s.tasks[t].pc.n, reply) else s
    case Abort(t) =>
      if t !in s.tasks then s
      else
        match s.tasks[t].pc
        case Waiting => Goto(s, t, Failed)
        case Issuing(n) => if n < |s.log| then Goto(Ended(s, n, Dropped(s.now)), t, Raising) else s
        case Received(n, _) => if n < |s.log| then Goto(Ended(s, n, Dropped(s.now)), t, Raising) else s
        case _ => s
  }

  function Run(c: Adapters, start: real, moves: seq<Move>): State
  {
    if moves == [] then State(start, map[], map[], map[], map[], map[], [])
    else Step(c, Run(c, start, moves[..|moves| - 1]), moves[|moves| - 1])
  }

  // ---------------------------------------------------------------- the invariant

  predicate UnderLock(pc: Pc)
  {
    pc.CacheAgain? || pc.CooldownAgain? || pc.Posting? || pc.Issuing? || pc.Received? || pc.Raising?
  }

  predicate InFlight(pc: Pc, n: nat) { (pc.Issuing? || pc.Received?) && pc.n == n }

  function KeyOf(c: Adapters, s: State, t: nat): string
    requires t in s.tasks
  {
    c(s.tasks[t].adapter).appKey
  }

  /** The lock of an app key is held by the one coroutine that is between acquiring and releasing it. */
  ghost predicate LockOk(c: Adapters, s: State, t: nat)
    requires t in s.tasks
  {
    UnderLock(s.tasks[t].pc) <==> KeyOf(c, s, t) in s.locks && s.locks[KeyOf(c, s, t)] == t
  }

  /** The cached token of `f`, if any, does not outlive `until`. */
  predicate CachedUntil(s: State, f: Fingerprint, until: real) { f in s.cache ==> s.cache[f].expires <= until }

  /** What a coroutine may rely on at its program counter. */
  ghost predicate TaskOk(c: Adapters, s: State, t: nat)
    requires t in s.tasks
  {
    var f, pc := c(s.tasks[t].adapter), s.tasks[t].pc;
    && (pc.CooldownAgain? || pc.Posting? ==> !CacheFresh(s, f))
    && (pc.Posting? ==> !Cooling(s, f.appKey))
    && (pc.Issuing? || pc.Received? ==>
          pc.n < |s.log| && s.log[pc.n] == Request(t, f, s.log[pc.n].start, None) && s.log[pc.n].start <= s.now)
    && (pc.Issuing? ==> CachedUntil(s, f, s.log[pc.n].start + MARGIN))
    && (pc.Received? ==> CachedUntil(s, f, pc.token.expires) && pc.token.owner == f)
    && (pc.Returned? ==> s.tasks[t].adapter in s.adapters)
  }

  /** What is known of a request: an open one belongs to the coroutine that is waiting for it, a rate-limited one
      is still in the cooldown table, a stored token is in the cache or replaced by a longer one. */
  ghost predicate RequestOk(c: Adapters, s: State, r: Request, n: nat)
  {
    && r.start <= s.now
    && match r.ending
       case None => r.task in s.tasks && InFlight(s.tasks[r.task].pc, n) && c(s.tasks[r.task].adapter) == r.owner
       case Some(Stored(at, token)) =>
         r.start <= at <= s.now && r.owner in s.cache && token.expires <= s.cache[r.owner].expires
       case Some(Limited(at)) =>
         r.start <= at <= s.now && r.owner.appKey in s.cooldowns && at + COOLDOWN <= s.cooldowns[r.owner.appKey]
       case Some(Dropped(at)) => r.start <= at <= s.now
  }

  /** `next` for the same app key starts after `r` ended, after the cooldown if `r` was rate limited, and for
      the same fingerprint not before the token of `r` is within the margin of its expiry. */
  ghost predicate Apart(r: Request, next: Request)
  {
    r.owner.appKey == next.owner.appKey ==>
      match r.ending
      case None => false
      case Some(Stored(at, token)) =>
        at <= next.start && (r.owner == next.owner ==> token.expires - MARGIN <= next.start)
      case Some(Limited(at)) => at + COOLDOWN <= next.start
      case Some(Dropped(at)) => at <= next.start
  }

  ghost predicate Spaced(log: seq<Request>)
  {
    forall i, j {:trigger Apart(log[i], log[j])} :: 0 <= i < j < |log| ==> Apart(log[i], log[j])
  }

  ghost predicate TokensOwn(c: Adapters, s: State)
  {
    && (forall f :: f in s.cache ==> s.cache[f].owner == f)
    && (forall a :: a in s.adapters ==> s.adapters[a].owner == c(a))
  }

  ghost predicate Inv(c: Adapters, s: State)
  {
    && (forall k :: k in s.locks ==> s.locks[k] in s.tasks)
    && (forall t {:trigger LockOk(c, s, t)} :: t in s.tasks ==> LockOk(c, s, t))
    && (forall t {:trigger TaskOk(c, s, t)} :: t in s.tasks ==> TaskOk(c, s, t))
    && (forall n {:trigger RequestOk(c, s, s.log[n], n)} :: 0 <= n < |s.log| ==> RequestOk(c, s, s.log[n], n))
    && Spaced(s.log)
    && TokensOwn(c, s)
  }

  lemma TickKeeps(c: Adapters, s: State, d: real)
    requires Inv(c, s) && d >= 0.0
    ensures Inv(c, s.(now := s.now + d))
  {
    var s' := s.(now := s.now + d);
    forall t | t in s'.tasks ensures LockOk(c, s', t) && TaskOk(c, s', t) {
      assert LockOk(c, s, t) && TaskOk(c, s, t);
    }
    forall n | 0 <= n < |s'.log| ensures RequestOk(c, s', s'.log[n], n) {
      assert RequestOk(c, s, s.log[n], n);
    }
  }

  /** Two coroutines of one app key are never both under its lock. */
  lemma OneUnderLock(c: Adapters, s: State, t: nat, u: nat)
    requires Inv(c, s) && t in s.tasks && u in s.tasks
    requires KeyOf(c, s, t) == KeyOf(c, s, u) && UnderLock(s.tasks[t].pc) && UnderLock(s.tasks[u].pc)
    ensures t == u
  {
    assert LockOk(c, s, t) && LockOk(c, s, u);
  }

  /** A move of `t` that touches only what the lock of its app key guards keeps every other coroutine's facts. */
  ghost predicate Touches(c: Adapters, s: State, s': State, t: nat)
    requires t in s.tasks
  {
    var f := c(s.tasks[t].adapter);
    && s'.now == s.now && s'.tasks.Keys == s.tasks.Keys
    && s'.tasks[t].adapter == s.tasks[t].adapter
    && (forall u :: u in s.tasks && u != t ==> s'.tasks[u] == s.tasks[u])
    && s.cache - {f} == s'.cache - {f}
    && s.cooldowns - {f.appKey} == s'.cooldowns - {f.appKey}
    && s.locks - {f.appKey} == s'.locks - {f.appKey}
    && |s.log| <= |s'.log|
    && (forall n :: 0 <= n < |s.log| && !InFlight(s.tasks[t].pc, n) ==> s'.log[n] == s.log[n])
    && s.adapters.Keys <= s'.adapters.Keys
  }

  lemma OtherTask(c: Adapters, s: State, s': State, t: nat, u: nat)
    requires Inv(c, s) && t in s.tasks && u in s.tasks && u != t && Touches(c, s, s', t)
    requires UnderLock(s.tasks[t].pc) || (s'.cache == s.cache && s'.cooldowns == s.cooldowns && s'.log == s.log)
    requires UnderLock(s.tasks[t].pc) || s'.locks == s.locks || KeyOf(c, s, t) !in s.locks
    requires KeyOf(c, s, t) in s'.locks ==> s'.locks[KeyOf(c, s, t)] == t || s'.locks == s.locks
    ensures LockOk(c, s', u) && TaskOk(c, s', u)
  {
    assert LockOk(c, s, u) && TaskOk(c, s, u) && LockOk(c, s, t) && TaskOk(c, s, t);
    var f, g := c(s.tasks[t].adapter), c(s.tasks[u].adapter);
    if f.appKey == g.appKey {
    } else {
      assert g in s.cache <==> g in s.cache - {f};
      assert g in s'.cache <==> g in s'.cache - {f};
      assert g.appKey in s.cooldowns <==> g.appKey in s.cooldowns - {f.appKey};
      assert g.appKey in s'.cooldowns <==> g.appKey in s'.cooldowns - {f.appKey};
      assert g.appKey in s.locks <==> g.appKey in s.locks - {f.appKey};
      assert g.appKey in s'.locks <==> g.appKey in s'.locks - {f.appKey};
    }
  }

  lemma OwnersStay(c: Adapters, s: State, s': State, t: nat)
    requires Inv(c, s) && t in s.tasks && Touches(c, s, s', t)
    requires KeyOf(c, s, t) in s'.locks ==> s'.locks[KeyOf(c, s, t)] == t || s'.locks == s.locks
    ensures forall k :: k in s'.locks ==> s'.locks[k] in s'.tasks
  {
    var key := KeyOf(c, s, t);
    forall k | k in s'.locks ensures s'.locks[k] in s'.tasks {
      if k != key { assert k in s'.locks - {key} && k in s.locks - {key}; }
    }
  }

  /** A move that leaves the log, the cache and the cooldowns alone. */
  lemma QuietKeeps(c: Adapters, s: State, s': State, t: nat)
    requires Inv(c, s) && t in s.tasks && Touches(c, s, s', t)
    requires s'.cache == s.cache && s'.cooldowns == s.cooldowns && s'.log == s.log
    requires UnderLock(s.tasks[t].pc) || s'.locks == s.locks || KeyOf(c, s, t) !in s.locks
    requires KeyOf(c, s, t) in s'.locks ==> s'.locks[KeyOf(c, s, t)] == t || s'.locks == s.locks
    requires forall n :: InFlight(s.tasks[t].pc, n) ==> InFlight(s'.tasks[t].pc, n)
    requires LockOk(c, s', t) && TaskOk(c, s', t) && TokensOwn(c, s')
    ensures Inv(c, s')
  {
    OwnersStay(c, s, s', t);
    forall u | u in s'.tasks ensures LockOk(c, s', u) && TaskOk(c, s', u) {
      if u != t { OtherTask(c, s, s', t, u); }
    }
    forall n | 0 <= n < |s'.log| ensures RequestOk(c, s', s'.log[n], n) {
      assert RequestOk(c, s, s.log[n], n);
    }
  }

  predicate Outside(pc: Pc) { pc.Entry? || pc.FastCache? || pc.FastCooldown? || pc.Waiting? || pc.Failed? }

  lemma MoveOutsideKeeps(c: Adapters, s: State, t: nat, pc: Pc)
    requires Inv(c, s) && t in s.tasks && Outside(s.tasks[t].pc)
    requires Outside(pc) || (pc.Returned? && s.tasks[t].adapter in s.adapters)
    ensures Inv(c, Goto(s, t, pc))
  {
    assert LockOk(c, s, t);
    QuietKeeps(c, s, Goto(s, t, pc), t);
  }

  lemma HydrateKeeps(c: Adapters, s: State, t: nat)
    requires Inv(c, s) && t in s.tasks && Outside(s.tasks[t].pc) && CacheFresh(s, c(s.tasks[t].adapter))
    ensures Inv(c, Goto(Hydrated(s, t, s.cache[c(s.tasks[t].adapter)]), t, Returned))
  {
    assert LockOk(c, s, t);
    QuietKeeps(c, s, Goto(Hydrated(s, t, s.cache[c(s.tasks[t].adapter)]), t, Returned), t);
  }

  /** Before the lock: the adapter's own token, the cache and the cooldown. */
  lemma FastStepKeeps(c: Adapters, s: State, t: nat)
    requires Inv(c, s) && t in s.tasks
    requires s.tasks[t].pc.Entry? || s.tasks[t].pc.FastCache? || s.tasks[t].pc.FastCooldown?
    ensures Inv(c, Proceed(c, s, t))
  {
    var a := s.tasks[t].adapter;
    var f := c(a);
    match s.tasks[t].pc {
      case Entry =>
        MoveOutsideKeeps(c, s, t, if a in s.adapters && Fresh(s.adapters[a], s.now) then Returned else FastCache);
      case FastCache =>
        if CacheFresh(s, f) { HydrateKeeps(c, s, t); } else { MoveOutsideKeeps(c, s, t, FastCooldown); }
      case _ =>
        MoveOutsideKeeps(c, s, t, if Cooling(s, f.appKey) then Failed else Waiting);
    }
  }

  lemma AcquireKeeps(c: Adapters, s: State, t: nat)
    requires Inv(c, s) && t in s.tasks && s.tasks[t].pc.Waiting? && KeyOf(c, s, t) !in s.locks
    ensures Inv(c, Proceed(c, s, t))
  {
    QuietKeeps(c, s, Proceed(c, s, t), t);
  }

  lemma CheckStepKeeps(c: Adapters, s: State, t: nat)
    requires Inv(c, s) && t in s.tasks && (s.tasks[t].pc.CacheAgain? || s.tasks[t].pc.CooldownAgain?)
    ensures Inv(c, Proceed(c, s, t))
  {
    assert LockOk(c, s, t) && TaskOk(c, s, t);
    QuietKeeps(c, s, Proceed(c, s, t), t);
  }

  lemma ReleaseKeeps(c: Adapters, s: State, t: nat)
    requires Inv(c, s) && t in s.tasks && s.tasks[t].pc.Raising?
    ensures Inv(c, Proceed(c, s, t))
  {
    assert LockOk(c, s, t);
    QuietKeeps(c, s, Proceed(c, s, t), t);
  }

  lemma PostingKeeps(c: Adapters, s: State, t: nat)
    requires Inv(c, s) && t in s.tasks && s.tasks[t].pc.Posting?
    ensures Inv(c, Proceed(c, s, t))
  {
    var s' := Proceed(c, s, t);
    var f := c(s.tasks[t].adapter);
    assert LockOk(c, s, t) && TaskOk(c, s, t);
    forall u | u in s'.tasks ensures LockOk(c, s', u) && TaskOk(c, s', u) {
      if u != t { OtherTask(c, s, s', t, u); }
    }
    forall n | 0 <= n < |s'.log| ensures RequestOk(c, s', s'.log[n], n) {
      if n < |s.log| { assert RequestOk(c, s, s.log[n], n); }
    }
    var next := s'.log[|s.log|];
    forall i | 0 <= i < |s.log| ensures Apart(s'.log[i], next) {
      StartIsApart(c, s, t, i, next);
    }
    assert forall i :: 0 <= i < |s.log| ==> s'.log[i] == s.log[i];
  }

  /** When a coroutine is about to send its request, every earlier request of its app key is over and far enough. */
  lemma StartIsApart(c: Adapters, s: State, t: nat, i: nat, next: Request)
    requires Inv(c, s) && t in s.tasks && s.tasks[t].pc.Posting? && i < |s.log|
    requires next.owner == c(s.tasks[t].adapter) && next.start == s.now
    ensures Apart(s.log[i], next)
  {
    assert TaskOk(c, s, t) && RequestOk(c, s, s.log[i], i);
    if s.log[i].ending.None? && s.log[i].owner.appKey == next.owner.appKey {
      OneUnderLock(c, s, t, s.log[i].task);
    }
  }

  lemma GrantKeeps(c: Adapters, s: State, t: nat, n: nat, serial: nat)
    requires Inv(c, s) && t in s.tasks && s.tasks[t].pc == Issuing(n) && n < |s.log|
    ensures Inv(c, Answered(c, s, t, n, Granted(serial)))
  {
    assert LockOk(c, s, t) && TaskOk(c, s, t);
    QuietKeeps(c, s, Answered(c, s, t, n, Granted(serial)), t);
  }

  /** Ending request `n` of coroutine `t`: the cache and the cooldown of its key may only have grown. */
  lemma EndKeeps(c: Adapters, s: State, s': State, t: nat, n: nat, e: Ending)
    requires Inv(c, s) && t in s.tasks && InFlight(s.tasks[t].pc, n) && n < |s.log| && Touches(c, s, s', t)
    requires s'.log == Ended(s, n, e).log
    requires KeyOf(c, s, t) in s'.locks ==> s'.locks[KeyOf(c, s, t)] == t
    requires LockOk(c, s', t) && TaskOk(c, s', t) && TokensOwn(c, s')
    requires RequestOk(c, s', s'.log[n], n)
    requires var f := c(s.tasks[t].adapter);
             && (f in s.cache ==> f in s'.cache && s.cache[f].expires <= s'.cache[f].expires)
             && (f.appKey in s.cooldowns ==>
                   f.appKey in s'.cooldowns
                   && (s'.cooldowns[f.appKey] == s.cooldowns[f.appKey] || s'.cooldowns[f.appKey] == s.now + COOLDOWN))
    ensures Inv(c, s')
  {
    assert LockOk(c, s, t);
    OwnersStay(c, s, s', t);
    forall u | u in s'.tasks ensures LockOk(c, s', u) && TaskOk(c, s', u) {
      if u != t { OtherTask(c, s, s', t, u); }
    }
    forall k | 0 <= k < |s'.log| ensures RequestOk(c, s', s'.log[k], k) {
      if k != n { OtherRequest(c, s, s', t, n, k); }
    }
    EndKeepsSpaced(c, s, t, n, e);
  }

  lemma EndKeepsSpaced(c: Adapters, s: State, t: nat, n: nat, e: Ending)
    requires Inv(c, s) && t in s.tasks && InFlight(s.tasks[t].pc, n) && n < |s.log|
    ensures Spaced(Ended(s, n, e).log)
  {
    assert TaskOk(c, s, t);
    var log := Ended(s, n, e).log;
    forall i, j | 0 <= i < j < |log| ensures Apart(log[i], log[j]) {
      assert Apart(s.log[i], s.log[j]);
    }
  }

  lemma OtherRequest(c: Adapters, s: State, s': State, t: nat, n: nat, k: nat)
    requires Inv(c, s) && t in s.tasks && InFlight(s.tasks[t].pc, n) && Touches(c, s, s', t)
    requires k < |s.log| && k != n
    requires var f := c(s.tasks[t].adapter);
             && (f in s.cache ==> f in s'.cache && s.cache[f].expires <= s'.cache[f].expires)
             && (f.appKey in s.cooldowns ==>
                   f.appKey in s'.cooldowns
                   && (s'.cooldowns[f.appKey] == s.cooldowns[f.appKey] || s'.cooldowns[f.appKey] == s.now + COOLDOWN))
    ensures RequestOk(c, s', s'.log[k], k)
  {
    assert RequestOk(c, s, s.log[k], k);
    var f, r := c(s.tasks[t].adapter), s.log[k];
    assert r.owner != f && r.owner in s.cache ==> r.owner in s.cache - {f} && r.owner in s'.cache - {f};
    assert r.owner.appKey != f.appKey && r.owner.appKey in s.cooldowns ==>
        r.owner.appKey in s.cooldowns - {f.appKey} && r.owner.appKey in s'.cooldowns - {f.appKey};
  }

  lemma DropKeeps(c: Adapters, s: State, t: nat, n: nat)
    requires Inv(c, s) && t in s.tasks && InFlight(s.tasks[t].pc, n) && n < |s.log|
    ensures Inv(c, Goto(Ended(s, n, Dropped(s.now)), t, Raising))
  {
    assert LockOk(c, s, t) && TaskOk(c, s, t);
    EndKeeps(c, s, Goto(Ended(s, n, Dropped(s.now)), t, Raising), t, n, Dropped(s.now));
  }

  lemma RateLimitKeeps(c: Adapters, s: State, t: nat, n: nat)
    requires Inv(c, s) && t in s.tasks && s.tasks[t].pc == Issuing(n) && n < |s.log|
    ensures Inv(c, Answered(c, s, t, n, RateLimited))
  {
    assert LockOk(c, s, t) && TaskOk(c, s, t);
    EndKeeps(c, s, Answered(c, s, t, n, RateLimited), t, n, Limited(s.now));
  }

  lemma StoreKeeps(c: Adapters, s: State, t: nat)
    requires Inv(c, s) && t in s.tasks && s.tasks[t].pc.Received?
    ensures Inv(c, Proceed(c, s, t))
  {
    assert LockOk(c, s, t) && TaskOk(c, s, t);
    var pc := s.tasks[t].pc;
    EndKeeps(c, s, Proceed(c, s, t), t, pc.n, Stored(s.now, pc.token));
  }

  lemma CallKeeps(c: Adapters, s: State, t: nat, a: nat, pc: Pc)
    requires Inv(c, s) && t !in s.tasks && (pc.Entry? || pc.FastCache?)
    ensures Inv(c, s.(tasks := s.tasks[t := Task(a, pc)]))
  {
    var s' := s.(tasks := s.tasks[t := Task(a, pc)]);
    forall u | u in s'.tasks ensures LockOk(c, s', u) && TaskOk(c, s', u) {
      if u != t { assert LockOk(c, s, u) && TaskOk(c, s, u); }
    }
    forall n | 0 <= n < |s'.log| ensures RequestOk(c, s', s'.log[n], n) {
      assert RequestOk(c, s, s.log[n], n);
    }
  }

  lemma {:induction false} ProceedKeeps(c: Adapters, s: State, t: nat)
    requires Inv(c, s) && t in s.tasks
    ensures Inv(c, Proceed(c, s, t))
  {
    match s.tasks[t].pc
    case Entry | FastCache | FastCooldown => FastStepKeeps(c, s, t);
    case Waiting => if KeyOf(c, s, t) !in s.locks { AcquireKeeps(c, s, t); }
    case CacheAgain | CooldownAgain => CheckStepKeeps(c, s, t);
    case Posting => PostingKeeps(c, s, t);
    case Received(_, _) => StoreKeeps(c, s, t);
    case Raising => ReleaseKeeps(c, s, t);
    case Issuing(_) | Returned | Failed =>
  }

  lemma AnswerKeeps(c: Adapters, s: State, t: nat, n: nat, reply: Reply)
    requires Inv(c, s) && t in s.tasks && s.tasks[t].pc == Issuing(n) && n < |s.log|
    ensures Inv(c, Answered(c, s, t, n, reply))
  {
    match reply
    case Granted(serial) => GrantKeeps(c, s, t, n, serial);
    case RateLimited => RateLimitKeeps(c, s, t, n);
    case Refused => DropKeeps(c, s, t, n);
  }

  lemma AbortKeeps(c: Adapters, s: State, t: nat)
    requires Inv(c, s)
    ensures Inv(c, Step(c, s, Abort(t)))
  {
    if t in s.tasks {
      match s.tasks[t].pc
      case Waiting => MoveOutsideKeeps(c, s, t, Failed);
      case Issuing(n) => if n < |s.log| { DropKeeps(c, s, t, n); }
      case Received(n, _) => if n < |s.log| { DropKeeps(c, s, t, n); }
      case _ =>
    }
  }

  lemma {:induction false} StepKeeps(c: Adapters, s: State, m: Move)
    requires Inv(c, s)
    ensures Inv(c, Step(c, s, m))
  {
    match m
    case Tick(d) => if d >= 0.0 { TickKeeps(c, s, d); }
    case Call(t, a, direct) => if t !in s.tasks { CallKeeps(c, s, t, a, if direct then FastCache else Entry); }
    case Continue(t) => if t in s.tasks { ProceedKeeps(c, s, t); }
    case Answer(t, reply) =>
      if t in s.tasks && s.tasks[t].pc.Issuing? && s.tasks[t].pc.n < |s.log| {
        AnswerKeeps(c, s, t, s.tasks[t].pc.n, reply);
      }
    case Abort(t) => AbortKeeps(c, s, t);
  }

  lemma {:induction false} RunKeeps(c: Adapters, start: real, moves: seq<Move>)
    ensures Inv(c, Run(c, start, moves))
  {
    if moves != [] {
      RunKeeps(c, start, moves[..|moves| - 1]);
      StepKeeps(c, Run(c, start, moves[..|moves| - 1]), moves[|moves| - 1]);
    }
  }

  // ---------------------------------------------------------------- what every run guarantees

  ghost predicate Flying(s: State, n: nat) { n < |s.log| && s.log[n].ending.None? }

  /** Whatever the interleaving, at most one request per app key is in flight, across all adapters. */
  lemma {:induction false} OneInFlight(c: Adapters, start: real, moves: seq<Move>, m: nat, n: nat)
    ensures var s := Run(c, start, moves);
            Flying(s, m) && Flying(s, n) && s.log[m].owner.appKey == s.log[n].owner.appKey ==> m == n
  {
    RunKeeps(c, start, moves);
    var s := Run(c, start, moves);
    if Flying(s, m) && Flying(s, n) {
      if m < n { SpacedMeansAlone(s, m, n); }
      if n < m { SpacedMeansAlone(s, n, m); }
    }
  }

  lemma SpacedMeansAlone(s: State, m: nat, n: nat)
    requires Spaced(s.log) && m < n && Flying(s, m) && Flying(s, n)
    ensures s.log[m].owner.appKey != s.log[n].owner.appKey
  {
    assert Apart(s.log[m], s.log[n]);
  }

  lemma OnlyPostingStarts(c: Adapters, s: State, m: Move)
    ensures |Step(c, s, m).log| > |s.log| ==> m.Continue? && m.t in s.tasks && s.tasks[m.t].pc.Posting?
  {
    if m.Continue? && m.t in s.tasks && s.tasks[m.t].pc.Received? && s.tasks[m.t].pc.n < |s.log| {
      assert |Step(c, s, m).log| == |s.log|;
    }
  }

  /** No request starts while its app key is cooling down or its fingerprint has a fresh cached token. */
  lemma {:induction false} StartsOnlyWhenAllowed(c: Adapters, start: real, moves: seq<Move>, m: Move)
    ensures var s := Run(c, start, moves);
            var s' := Step(c, s, m);
            |s'.log| > |s.log| ==>
              && !Cooling(s, s'.log[|s.log|].owner.appKey) && !CacheFresh(s, s'.log[|s.log|].owner)
  {
    RunKeeps(c, start, moves);
    var s := Run(c, start, moves);
    OnlyPostingStarts(c, s, m);
    if m.Continue? && m.t in s.tasks && s.tasks[m.t].pc.Posting? { assert TaskOk(c, s, m.t); }
  }

  /** Over the whole run: two requests of one app key never overlap, the second comes at least 60 seconds
      after a rate-limited first, and for one fingerprint not before the first's stored token is within
      five minutes of expiring. */
  lemma {:induction false} RequestsAreSpaced(c: Adapters, start: real, moves: seq<Move>)
    ensures Spaced(Run(c, start, moves).log)
  {
    RunKeeps(c, start, moves);
  }

  /** A call that returned normally has left its adapter with a token issued for the adapter's fingerprint. */
  lemma {:induction false} ReturnsWithOwnToken(c: Adapters, start: real, moves: seq<Move>, t: nat)
    ensures var s := Run(c, start, moves);
            t in s.tasks && s.tasks[t].pc.Returned? ==>
              s.tasks[t].adapter in s.adapters && s.adapters[s.tasks[t].adapter].owner == c(s.tasks[t].adapter)
  {
    RunKeeps(c, start, moves);
    var s := Run(c, start, moves);
    if t in s.tasks { assert TaskOk(c, s, t); }
  }
}
