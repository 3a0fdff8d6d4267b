/** What a single token call does: when it may return, why it may fail, and its whole effect when nothing else
    moves (kis.py). */
module TokenCalls {
  import opened Collections
  import opened TokenProtocol

  // ---------------------------------------------------------------- every step of every run

  /** The coroutine that a move moves. */
  function Mover(m: Move): Option<nat> { if m.Tick? then None else Some(m.t) }

  lemma OthersStay(c: Adapters, s: State, m: Move, t: nat)
    requires Mover(m) != Some(t)
    ensures t in Step(c, s, m).tasks <==> t in s.tasks
    ensures t in s.tasks ==> Step(c, s, m).tasks[t] == s.tasks[t]
  {
    match m
    case Continue(u) => if u in s.tasks { ProceedMovesOne(c, s, u, t); }
    case _ =>
  }

  lemma ProceedMovesOne(c: Adapters, s: State, u: nat, t: nat)
    requires u in s.tasks && u != t
    ensures t in Proceed(c, s, u).tasks <==> t in s.tasks
    ensures t in s.tasks ==> Proceed(c, s, u).tasks[t] == s.tasks[t]
  {
    var pc := ProceedGoes(c, s, u);
  }

  /** A coroutine that goes on only moves its own program counter. */
  lemma ProceedGoes(c: Adapters, s: State, t: nat) returns (pc: Pc)
    requires t in s.tasks
    ensures Proceed(c, s, t).tasks == s.tasks[t := s.tasks[t].(pc := pc)]
    ensures var key := c(s.tasks[t].adapter).appKey;
            Failing(pc) && !Failing(s.tasks[t].pc) ==> key in s.cooldowns && s.now < s.cooldowns[key]
  {
    var f := c(s.tasks[t].adapter);
    pc := match s.tasks[t].pc
      case Entry =>
        if s.tasks[t].adapter in s.adapters && Fresh(s.adapters[s.tasks[t].adapter], s.now) then Returned else FastCache
      case FastCache => if CacheFresh(s, f) then Returned else FastCooldown
      case FastCooldown => if Cooling(s, f.appKey) then Failed else Waiting
      case Waiting => if f.appKey in s.locks then Waiting else CacheAgain
      case CacheAgain => if CacheFresh(s, f) then Returned else CooldownAgain
      case CooldownAgain => if Cooling(s, f.appKey) then Raising else Posting
      case Posting => Issuing(|s.log|)
      case Received(n, token) => if n < |s.log| then Returned else Received(n, token)
      case Raising => Failed
      case other => other;
    assert s.tasks[t := s.tasks[t]] == s.tasks;
  }

  /** More than five minutes left. */
  predicate LongValid(token: Token, now: real) { now < token.expires - 300.0 }

  /** The token that the request of coroutine `t` was granted, stored in this step. */
  ghost predicate JustStored(s: State, s': State, t: nat, token: Token)
  {
    && t in s.tasks && s.tasks[t].pc.Received? && s.tasks[t].pc.n < |s'.log|
    && s'.log[s.tasks[t].pc.n].task == t && s'.log[s.tasks[t].pc.n].ending == Some(Stored(s'.now, token))
  }

  lemma ProceedReturns(c: Adapters, s: State, t: nat)
    requires Inv(c, s) && t in s.tasks && !s.tasks[t].pc.Returned?
    ensures var s' := Proceed(c, s, t);
            var a := s.tasks[t].adapter;
            t in s'.tasks && s'.tasks[t].adapter == a && s'.now == s.now
            && (s'.tasks[t].pc.Returned? ==>
                  a in s'.adapters && (LongValid(s'.adapters[a], s.now) || JustStored(s, s', t, s'.adapters[a])))
  {
    assert TaskOk(c, s, t);
    match s.tasks[t].pc
    case Received(n, token) => StoreReturns(c, s, t, n, token);
    case _ =>
  }

  lemma StoreReturns(c: Adapters, s: State, t: nat, n: nat, token: Token)
    requires Inv(c, s) && t in s.tasks && s.tasks[t].pc == Received(n, token)
    ensures var s' := Proceed(c, s, t);
            var a := s.tasks[t].adapter;
            && t in s'.tasks && s'.tasks[t].adapter == a && s'.now == s.now && a in s'.adapters
            && s'.adapters[a] == token && JustStored(s, s', t, token)
  {
    assert TaskOk(c, s, t);
  }

  lemma StepReturns(c: Adapters, s: State, m: Move, t: nat)
    requires Inv(c, s) && t in Step(c, s, m).tasks && Step(c, s, m).tasks[t].pc.Returned?
    requires t !in s.tasks || !s.tasks[t].pc.Returned?
    ensures var s' := Step(c, s, m);
            var a := s'.tasks[t].adapter;
            a in s'.adapters && (LongValid(s'.adapters[a], s'.now) || JustStored(s, s', t, s'.adapters[a]))
  {
    if Mover(m) != Some(t) {
      OthersStay(c, s, m, t);
    } else if m.Continue? {
      ProceedReturns(c, s, t);
    } else {
      OnlyGoingOnReturns(c, s, m, t);
    }
  }

  lemma OnlyGoingOnReturns(c: Adapters, s: State, m: Move, t: nat)
    requires Mover(m) == Some(t) && !m.Continue? && (t in s.tasks ==> !s.tasks[t].pc.Returned?)
    ensures t in Step(c, s, m).tasks ==> !Step(c, s, m).tasks[t].pc.Returned?
  {
  }

  /** Over every run: when a call returns, its adapter has a token of its own that is more than five minutes from
      expiring, or the one that this very call's request was granted and that it stores in the same step. */
  lemma {:induction false} ReturnsFresh(c: Adapters, start: real, moves: seq<Move>, m: Move, t: nat)
    ensures var s := Run(c, start, moves);
            var s' := Step(c, s, m);
            t in s'.tasks && s'.tasks[t].pc.Returned? && (t !in s.tasks || !s.tasks[t].pc.Returned?) ==>
              var a := s'.tasks[t].adapter;
              && a in s'.adapters && s'.adapters[a].owner == c(a)
              && (s'.now < s'.adapters[a].expires - 300.0 || JustStored(s, s', t, s'.adapters[a]))
  {
    RunKeeps(c, start, moves);
    var s := Run(c, start, moves);
    var s' := Step(c, s, m);
    if t in s'.tasks && s'.tasks[t].pc.Returned? && (t !in s.tasks || !s.tasks[t].pc.Returned?) {
      StepKeeps(c, s, m);
      StepReturns(c, s, m, t);
    }
  }

  predicate Failing(pc: Pc) { pc.Failed? || pc.Raising? }

  lemma ProceedFails(c: Adapters, s: State, t: nat)
    requires t in s.tasks && !Failing(s.tasks[t].pc)
    ensures t in Proceed(c, s, t).tasks
    ensures var key := c(s.tasks[t].adapter).appKey;
            Failing(Proceed(c, s, t).tasks[t].pc) ==> key in s.cooldowns && s.now < s.cooldowns[key]
  {
    var pc := ProceedGoes(c, s, t);
  }

  /** A call fails only because its app key is cooling down, because the server refused it, or because it was
      aborted. */
  lemma FailsForAReason(c: Adapters, s: State, m: Move, t: nat)
    requires t in Step(c, s, m).tasks && Failing(Step(c, s, m).tasks[t].pc)
    requires t !in s.tasks || !Failing(s.tasks[t].pc)
    ensures t in s.tasks
    ensures var key := c(s.tasks[t].adapter).appKey;
            || (m == Continue(t) && key in s.cooldowns && s.now < s.cooldowns[key])
            || (m.Answer? && m.t == t && !m.reply.Granted?)
            || m == Abort(t)
  {
    if Mover(m) != Some(t) {
      OthersStay(c, s, m, t);
    } else if m.Continue? {
      ProceedFails(c, s, t);
    }
  }

  /** Only the rate-limit answer starts a cooldown, of 60 seconds and for its own app key; nothing prolongs one. */
  lemma CooldownsFollow(c: Adapters, s: State, m: Move)
    ensures Step(c, s, m).cooldowns ==
            if m.Answer? && m.reply.RateLimited? && m.t in s.tasks && s.tasks[m.t].pc.Issuing?
               && s.tasks[m.t].pc.n < |s.log|
            then s.cooldowns[c(s.tasks[m.t].adapter).appKey := s.now + 60.0]
            else s.cooldowns
  {
    match m
    case Continue(t) => if t in s.tasks { ProceedCools(c, s, t); }
    case _ =>
  }

  lemma ProceedCools(c: Adapters, s: State, t: nat)
    requires t in s.tasks
    ensures Proceed(c, s, t).cooldowns == s.cooldowns
  {
    match s.tasks[t].pc
    case Entry =>
    case FastCache =>
    case FastCooldown =>
    case Received(n, _) => if n < |s.log| { assert Proceed(c, s, t).cooldowns == s.cooldowns; }
    case _ =>
  }

  /** The shared cache changes only when a granted token is stored, under the fingerprint it was issued to. */
  lemma CacheFollows(c: Adapters, s: State, m: Move)
    ensures Step(c, s, m).cache ==
            if m.Continue? && m.t in s.tasks && s.tasks[m.t].pc.Received? && s.tasks[m.t].pc.n < |s.log|
            then s.cache[c(s.tasks[m.t].adapter) := s.tasks[m.t].pc.token]
            else s.cache
  {
    match m
    case Continue(t) => if t in s.tasks { ProceedCaches(c, s, t); }
    case _ =>
  }

  lemma ProceedCaches(c: Adapters, s: State, t: nat)
    requires t in s.tasks
    ensures Proceed(c, s, t).cache ==
            if s.tasks[t].pc.Received? && s.tasks[t].pc.n < |s.log|
            then s.cache[c(s.tasks[t].adapter) := s.tasks[t].pc.token] else s.cache
  {
    match s.tasks[t].pc
    case Entry =>
    case FastCache =>
    case FastCooldown =>
    case Waiting =>
    case CacheAgain =>
    case Received(_, _) =>
    case _ =>
  }

  // ---------------------------------------------------------------- one call alone

  /** The coroutine goes on. */
  function Going(c: Adapters, t: nat): State -> State { s => Step(c, s, Continue(t)) }

  /** The coroutine goes on `k` times. */
  function Drive(c: Adapters, s: State, t: nat, k: nat): State { Iterate(Going(c, t), s, k) }

  /** Everything is as before but the coroutine's own place. */
  function At(s: State, t: nat, pc: Pc): State
    requires t in s.tasks
  {
    s.(tasks := s.tasks[t := s.tasks[t].(pc := pc)])
  }

  /** A call with nothing in its way: the adapter's own token if it is valid for long enough, else the shared one,
      else an error without a request while the app key cools down, else a request under the lock. */
  lemma CallAlone(c: Adapters, s: State, t: nat)
    requires t in s.tasks && s.tasks[t].pc.Entry?
    ensures var a := s.tasks[t].adapter;
            if a in s.adapters && LongValid(s.adapters[a], s.now) then Drive(c, s, t, 1) == At(s, t, Returned)
            else Drive(c, s, t, 1) == At(s, t, FastCache)
  {
    OneStep(c, s, s, t, 0, Step(c, s, Continue(t)));
  }

  /** The same from the shared cache on, where calls that connect an adapter start. */
  lemma AuthenticateAlone(c: Adapters, s: State, t: nat)
    requires t in s.tasks && s.tasks[t].pc.FastCache?
    ensures var a, f := s.tasks[t].adapter, c(s.tasks[t].adapter);
            if f in s.cache && LongValid(s.cache[f], s.now)
            then Drive(c, s, t, 1) == At(s, t, Returned).(adapters := s.adapters[a := s.cache[f]])
            else if f.appKey in s.cooldowns && s.now < s.cooldowns[f.appKey] then Drive(c, s, t, 2) == At(s, t, Failed)
            else
              && Drive(c, s, t, 2) == At(s, t, Waiting)
              && (f.appKey in s.locks ==> Drive(c, s, t, 3) == At(s, t, Waiting))
              && (f.appKey !in s.locks ==>
                    Drive(c, s, t, 6) == At(s, t, Issuing(|s.log|)).(locks := s.locks[f.appKey := t],
                                                                     log := s.log + [Request(t, f, s.now, None)]))
  {
    var f := c(s.tasks[t].adapter);
    var looked := Step(c, s, Continue(t));
    OneStep(c, s, s, t, 0, looked);
    OneStep(c, s, looked, t, 1, Step(c, looked, Continue(t)));
    if !CacheFresh(s, f) && !Cooling(s, f.appKey) {
      var waiting := At(s, t, Waiting);
      if f.appKey in s.locks { OneStep(c, s, waiting, t, 2, waiting); } else { RequestAlone(c, s, t); }
    }
  }

  lemma RequestAlone(c: Adapters, s: State, t: nat)
    requires t in s.tasks && s.tasks[t].pc.FastCache? && c(s.tasks[t].adapter).appKey !in s.locks
    requires !CacheFresh(s, c(s.tasks[t].adapter)) && !Cooling(s, c(s.tasks[t].adapter).appKey)
    ensures var f := c(s.tasks[t].adapter);
            Drive(c, s, t, 6) == At(s, t, Issuing(|s.log|)).(locks := s.locks[f.appKey := t],
                                                             log := s.log + [Request(t, f, s.now, None)])
  {
    GoesToTheLock(c, s, t);
    LockAndSend(c, At(s, t, Waiting), t);
    IterateOn(Going(c, t), s, 2, 4);
    var end := Drive(c, At(s, t, Waiting), t, 4);
    assert end.tasks == At(s, t, Issuing(|s.log|)).tasks;
  }

  lemma GoesToTheLock(c: Adapters, s: State, t: nat)
    requires t in s.tasks && s.tasks[t].pc.FastCache?
    requires !CacheFresh(s, c(s.tasks[t].adapter)) && !Cooling(s, c(s.tasks[t].adapter).appKey)
    ensures Drive(c, s, t, 2) == At(s, t, Waiting)
  {
    OneStep(c, s, s, t, 0, At(s, t, FastCooldown));
    OneStep(c, s, At(s, t, FastCooldown), t, 1, At(s, t, Waiting));
  }

  lemma LockAndSend(c: Adapters, s: State, t: nat)
    requires t in s.tasks && s.tasks[t].pc.Waiting? && c(s.tasks[t].adapter).appKey !in s.locks
    requires !CacheFresh(s, c(s.tasks[t].adapter)) && !Cooling(s, c(s.tasks[t].adapter).appKey)
    ensures var f := c(s.tasks[t].adapter);
            Drive(c, s, t, 4) == At(s, t, Issuing(|s.log|)).(locks := s.locks[f.appKey := t],
                                                             log := s.log + [Request(t, f, s.now, None)])
  {
    var f := c(s.tasks[t].adapter);
    var locked := s.(locks := s.locks[f.appKey := t]);
    OneStep(c, s, s, t, 0, At(locked, t, CacheAgain));
    OneStep(c, s, At(locked, t, CacheAgain), t, 1, At(locked, t, CooldownAgain));
    OneStep(c, s, At(locked, t, CooldownAgain), t, 2, At(locked, t, Posting));
    Sends(c, At(locked, t, Posting), t);
    OneStep(c, s, At(locked, t, Posting), t, 3,
            At(locked, t, Issuing(|s.log|)).(log := s.log + [Request(t, f, s.now, None)]));
  }

  lemma Sends(c: Adapters, s: State, t: nat)
    requires t in s.tasks && s.tasks[t].pc.Posting?
    ensures Step(c, s, Continue(t))
         == At(s, t, Issuing(|s.log|)).(log := s.log + [Request(t, c(s.tasks[t].adapter), s.now, None)])
  {
  }

  /** One more `Continue`. */
  lemma OneStep(c: Adapters, s: State, here: State, t: nat, k: nat, there: State)
    requires Drive(c, s, t, k) == here && Step(c, here, Continue(t)) == there
    ensures Drive(c, s, t, k + 1) == there
  {
    IterateNext(Going(c, t), s, k, here, there);
  }

  /** How a request under way ends: a token of 24 hours for the adapter and the cache, or a cooldown of 60 seconds,
      or just an error; the lock is released every time. */
  lemma AnswerAlone(c: Adapters, s: State, t: nat, n: nat, reply: Reply)
    requires t in s.tasks && s.tasks[t].pc == Issuing(n) && n < |s.log|
    ensures var a, f := s.tasks[t].adapter, c(s.tasks[t].adapter);
            var end := Step(c, Step(c, s, Answer(t, reply)), Continue(t));
            && end.locks == s.locks - {f.appKey} && end.now == s.now
            && match reply
               case Granted(serial) =>
                 var token := Token(f, serial, s.now + 86400.0);
                 && end.tasks == At(s, t, Returned).tasks && end.cooldowns == s.cooldowns
                 && end.adapters == s.adapters[a := token] && end.cache == s.cache[f := token]
                 && end.log == s.log[n := s.log[n].(ending := Some(Stored(s.now, token)))]
               case RateLimited =>
                 && end.tasks == At(s, t, Failed).tasks && end.cooldowns == s.cooldowns[f.appKey := s.now + 60.0]
                 && end.adapters == s.adapters && end.cache == s.cache
                 && end.log == s.log[n := s.log[n].(ending := Some(Limited(s.now)))]
               case Refused =>
                 && end.tasks == At(s, t, Failed).tasks && end.cooldowns == s.cooldowns
                 && end.adapters == s.adapters && end.cache == s.cache
                 && end.log == s.log[n := s.log[n].(ending := Some(Dropped(s.now)))]
  {
  }

  /** A call cancelled while it waits, for the lock or for the answer, fails; it leaves the lock free if it held it, and
      neither a token nor a cooldown behind. */
  lemma CancellationEnds(c: Adapters, s: State, t: nat)
    requires Inv(c, s) && t in s.tasks && (s.tasks[t].pc.Waiting? || s.tasks[t].pc.Issuing? || s.tasks[t].pc.Received?)
    ensures var f, end := c(s.tasks[t].adapter), Step(c, Step(c, s, Abort(t)), Continue(t));
            && end.tasks == At(s, t, Failed).tasks
            && end.locks == (if s.tasks[t].pc.Waiting? then s.locks else s.locks - {f.appKey})
            && end.cache == s.cache && end.adapters == s.adapters && end.cooldowns == s.cooldowns && end.now == s.now
            && (s.tasks[t].pc.Waiting? ==> end.log == s.log)
            && (!s.tasks[t].pc.Waiting? ==>
                  var n := s.tasks[t].pc.n;
                  n < |s.log| && end.log == s.log[n := s.log[n].(ending := Some(Dropped(s.now)))])
  {
    assert TaskOk(c, s, t);
    var pc := s.tasks[t].pc;
    if pc.Waiting? {
      assert Step(c, s, Abort(t)) == At(s, t, Failed);
      assert Step(c, At(s, t, Failed), Continue(t)) == At(s, t, Failed);
    } else {
      var dropped := s.(log := s.log[pc.n := s.log[pc.n].(ending := Some(Dropped(s.now)))]);
      assert Step(c, s, Abort(t)) == At(dropped, t, Raising);
      LeavesTheLock(c, dropped, t);
    }
  }

  lemma LeavesTheLock(c: Adapters, s: State, t: nat)
    requires t in s.tasks
    ensures Step(c, At(s, t, Raising), Continue(t))
         == At(s, t, Failed).(locks := s.locks - {c(s.tasks[t].adapter).appKey})
  {
    assert At(At(s, t, Raising), t, Failed) == At(s, t, Failed);
  }
}
