/** The adapter-wide circuit breaker and the retry loop that reports to it (circuit_breaker.py, kis.py). */
module CircuitBreakers {

  datatype CircuitState = Closed | Open | HalfOpen

  /** What the breaker remembers between calls. */
  datatype Memory = Memory(state: CircuitState, failures: nat, lastFailure: real)

  datatype Settings = Settings(threshold: int, recovery: real)

  /** The state a caller sees: an open breaker reads as half open once the recovery time has passed. */
  function Effective(s: Settings, m: Memory, now: real): CircuitState
  {
    if m.state == Open && now - m.lastFailure >= s.recovery then HalfOpen else m.state
  }

  function Seen(s: Settings, m: Memory, now: real): Memory { m.(state := Effective(s, m, now)) }

  function Success(m: Memory): Memory { m.(state := Closed, failures := 0) }

  function Failure(s: Settings, m: Memory, now: real): Memory
  {
    var failures := m.failures + 1;
    var opens := m.state == HalfOpen || (m.state == Closed && failures >= s.threshold);
    Memory(if opens then Open else m.state, failures, now)
  }

  /** The clock is a parameter; publishing the transition events is not modelled. */
  class CircuitBreaker {
    const settings: Settings
    var state: CircuitState
    var failureCount: nat
    var lastFailureTime: real

    constructor (settings: Settings)
      ensures this.settings == settings && Value() == Memory(Closed, 0, 0.0)
    {
      this.settings := settings;
      state, failureCount, lastFailureTime := Closed, 0, 0.0;
    }

    function Value(): Memory
      reads this
    {
      Memory(state, failureCount, lastFailureTime)
    }

    method State(now: real) returns (current: CircuitState)
      modifies this
      ensures Value() == Seen(settings, old(Value()), now)
      ensures current == Effective(settings, old(Value()), now)
    {
      if state == Open {
        var elapsed := now - lastFailureTime;
        if elapsed >= settings.recovery { state := HalfOpen; }
      }
      current := state;
    }

    method Check(now: real) returns (blocked: bool)
      modifies this
      ensures Value() == Seen(settings, old(Value()), now)
      ensures blocked == (Effective(settings, old(Value()), now) == Open)
    {
      var current := State(now);
      blocked := current == Open;
    }

    method RecordSuccess()
      modifies this
      ensures Value() == Success(old(Value()))
    {
      if state != Closed { state := Closed; }
      failureCount := 0;
    }

    method RecordFailure(now: real)
      modifies this
      ensures Value() == Failure(settings, old(Value()), now)
    {
      failureCount := failureCount + 1;
      lastFailureTime := now;
      if state == HalfOpen {
        state := Open;
      } else if state == Closed && failureCount >= settings.threshold {
        state := Open;
      }
    }
  }

  // ---------------------------------------------------------------- calls

  datatype Failing =
    | CircuitOpen | Authentication | Timeout | Network | RateLimit | Api(retryable: bool) | Unknown

  /** (retryable, counted by the breaker). */
  function Classify(e: Failing): (bool, bool)
  {
    match e
    case CircuitOpen | Authentication | Unknown => (false, false)
    case Timeout | Network | RateLimit => (true, true)
    case Api(retryable) => (retryable, retryable)
  }

  function ToApiError(e: Failing): Failing
  {
    if e in {Timeout, Network} then Api(true) else e
  }

  predicate Counts(exempt: bool, e: Failing) { Classify(e).1 && !(exempt && e == Timeout) }

  type CallId = nat

  /** What a call does to the breaker, in the order the event loop runs it. */
  datatype Event =
    | Checked(call: CallId, at: real)
    | Succeeded(call: CallId, at: real)
    | Failed(call: CallId, at: real, exempt: bool, error: Failing)

  type Log = seq<Event>

  function Step(s: Settings, m: Memory, e: Event): Memory
  {
    match e
    case Checked(_, at) => Seen(s, m, at)
    case Succeeded(_, _) => Success(m)
    case Failed(_, at, exempt, error) => if Counts(exempt, error) then Failure(s, m, at) else m
  }

  function Replay(s: Settings, m: Memory, log: Log): Memory
  {
    if log == [] then m else Step(s, Replay(s, m, log[..|log| - 1]), log[|log| - 1])
  }

  datatype Attempt = Answered(at: real) | Raised(at: real, error: Failing)
  datatype Result = Blocked | Answer(attempt: nat) | Error(error: Failing)

  predicate Retryable(a: Attempt) { a.Raised? && Classify(a.error).0 }

  function EventOf(call: CallId, exempt: bool, a: Attempt): Event
  {
    match a
    case Answered(at) => Succeeded(call, at)
    case Raised(at, error) => Failed(call, at, exempt, error)
  }

  /** The attempts a call makes from the `i`-th on, as breaker events. */
  function AttemptLog(call: CallId, exempt: bool, maxRetries: nat, send: nat -> Attempt, i: nat): Log
    decreases maxRetries + 1 - i
  {
    if i > maxRetries then []
    else if Retryable(send(i)) then
      [EventOf(call, exempt, send(i))] + AttemptLog(call, exempt, maxRetries, send, i + 1)
    else [EventOf(call, exempt, send(i))]
  }

  lemma {:induction false} ReplayConcat(s: Settings, m: Memory, a: Log, b: Log)
    ensures Replay(s, m, a + b) == Replay(s, Replay(s, m, a), b)
  {
    if b == [] {
      assert a + b == a;
    } else {
      ReplayConcat(s, m, a, b[..|b| - 1]);
      assert (a + b)[..|a + b| - 1] == a + b[..|b| - 1];
    }
  }

  lemma ReplayOne(s: Settings, m: Memory, e: Event)
    ensures Replay(s, m, [e]) == Step(s, m, e)
  {
    assert [e][..0] == [];
    assert Replay(s, m, []) == m;
  }

  /** The first attempt that answers or fails for good decides; otherwise the last failure, as an API error. */
  ghost predicate Decides(result: Result, maxRetries: nat, send: nat -> Attempt)
  {
    match result
    case Blocked => false
    case Answer(i) => i <= maxRetries && send(i).Answered? && forall k :: 0 <= k < i ==> Retryable(send(k))
    case Error(error) =>
      (exists i :: 0 <= i <= maxRetries && send(i) == Raised(send(i).at, error) && !Retryable(send(i))
                  && forall k :: 0 <= k < i ==> Retryable(send(k)))
      || ((forall k :: 0 <= k <= maxRetries ==> Retryable(send(k))) && error == ToApiError(send(maxRetries).error))
  }

  /** One call with nothing interleaved: it reports its attempts, and nothing when it was blocked. */
  method RequestWithCont(cb: CircuitBreaker, call: CallId, exempt: bool, maxRetries: nat, startedAt: real,
                         send: nat -> Attempt) returns (result: Result)
    modifies cb
    ensures var seen := Seen(cb.settings, old(cb.Value()), startedAt);
            if seen.state == Open then result == Blocked && cb.Value() == seen
            else Decides(result, maxRetries, send)
                 && cb.Value() == Replay(cb.settings, seen, AttemptLog(call, exempt, maxRetries, send, 0))
  {
    var blocked := cb.Check(startedAt);
    if blocked { return Blocked; }
    ghost var all := Replay(cb.settings, cb.Value(), AttemptLog(call, exempt, maxRetries, send, 0));
    var lastError := Unknown;
    for attempt := 0 to maxRetries + 1
      invariant all == Replay(cb.settings, cb.Value(), AttemptLog(call, exempt, maxRetries, send, attempt))
      invariant forall k :: 0 <= k < attempt ==> Retryable(send(k))
      invariant attempt > 0 ==> lastError == ToApiError(send(attempt - 1).error)
    {
      AttemptLogStep(cb.settings, cb.Value(), call, exempt, maxRetries, send, attempt);
      match send(attempt) {
        case Answered(at) =>
          cb.RecordSuccess();
          return Answer(attempt);
        case Raised(at, error) =>
          var (retryable, recordFailure) := Classify(error);
          if !retryable { return Error(error); }
          lastError := ToApiError(error);
          if recordFailure && !(exempt && error == Timeout) {
            cb.RecordFailure(at);
          }
      }
    }
    return Error(lastError);
  }

  lemma AttemptLogStep(s: Settings, m: Memory, call: CallId, exempt: bool, maxRetries: nat, send: nat -> Attempt,
                       i: nat)
    requires i <= maxRetries
    ensures Replay(s, m, AttemptLog(call, exempt, maxRetries, send, i))
            == var next := Step(s, m, EventOf(call, exempt, send(i)));
               if Retryable(send(i)) then Replay(s, next, AttemptLog(call, exempt, maxRetries, send, i + 1)) else next
  {
    var e := EventOf(call, exempt, send(i));
    ReplayOne(s, m, e);
    if Retryable(send(i)) {
      ReplayConcat(s, m, [e], AttemptLog(call, exempt, maxRetries, send, i + 1));
    }
  }

  /** An attempt is followed by another exactly if it raised a timeout, a network error, a rate limit or an API error
      marked retryable, and attempts are left; each is reported once, in order. */
  lemma {:induction false} AttemptsMade(call: CallId, exempt: bool, maxRetries: nat, send: nat -> Attempt, i: nat)
    requires i <= maxRetries
    ensures var log := AttemptLog(call, exempt, maxRetries, send, i); var last := i + |log| - 1;
            && i <= last <= maxRetries
            && (forall k :: 0 <= k < |log| ==> log[k] == EventOf(call, exempt, send(i + k)))
            && (forall k :: i <= k < last ==> Transient(send(k)))
            && (last == maxRetries || !Transient(send(last)))
    decreases maxRetries + 1 - i
  {
    TransientIsRetried(send(i));
    if Transient(send(i)) && i < maxRetries {
      AttemptsMade(call, exempt, maxRetries, send, i + 1);
      var rest := AttemptLog(call, exempt, maxRetries, send, i + 1);
      var log := [EventOf(call, exempt, send(i))] + rest;
      forall k | 0 <= k < |log| ensures log[k] == EventOf(call, exempt, send(i + k)) {
        if k > 0 { assert log[k] == rest[k - 1] && i + k == i + 1 + (k - 1); }
      }
    } else if i == maxRetries {
      assert AttemptLog(call, exempt, maxRetries, send, i + 1) == [];
    }
  }

  /** Worth another attempt. */
  predicate Transient(a: Attempt)
  {
    a.Raised? && (a.error == Timeout || a.error == Network || a.error == RateLimit || a.error == Api(true))
  }

  lemma TransientIsRetried(a: Attempt)
    ensures Retryable(a) <==> Transient(a)
  {
  }

  /** The outcome is the answer or the error of the last attempt made; a timeout or a network error comes out as a
      retryable API error. */
  lemma OutcomeIs(result: Result, call: CallId, exempt: bool, maxRetries: nat, send: nat -> Attempt)
    requires Decides(result, maxRetries, send)
    ensures var last := |AttemptLog(call, exempt, maxRetries, send, 0)| - 1;
            && 0 <= last
            && result == match send(last)
                         case Answered(_) => Answer(last)
                         case Raised(_, error) =>
                           Error(if error == Timeout || error == Network then Api(true) else error)
  {
    AttemptsMade(call, exempt, maxRetries, send, 0);
    var last := |AttemptLog(call, exempt, maxRetries, send, 0)| - 1;
    forall k ensures Retryable(send(k)) <==> Transient(send(k)) { TransientIsRetried(send(k)); }
  }

  /** A failure counts if it is a timeout of a call that is not exempt, a network error, a rate limit or an API error
      marked retryable; any other leaves the breaker alone. One that counts opens it when it was half open or the
      threshold is reached. */
  lemma FailureCounts(s: Settings, m: Memory, call: CallId, at: real, exempt: bool, error: Failing)
    ensures var next := Step(s, m, Failed(call, at, exempt, error));
            if (error == Timeout && !exempt) || error in {Network, RateLimit, Api(true)} then
              && next.failures == m.failures + 1 && next.lastFailure == at
              && next.state == if m.state == Closed && m.failures + 1 < s.threshold then Closed else Open
            else next == m
  {
  }

  // ---------------------------------------------------------------- erasing exempt timeouts

  /** An exempt call whose every attempt timed out leaves only checks and uncounted timeouts. */
  ghost predicate TimedOutOnly(log: Log, c: CallId)
  {
    forall i :: 0 <= i < |log| && log[i].call == c ==>
      log[i].Checked? || (log[i].Failed? && log[i].exempt && log[i].error == Timeout)
  }

  function Erase(log: Log, gone: set<CallId>): Log
  {
    if log == [] then []
    else
      var rest := Erase(log[..|log| - 1], gone);
      if log[|log| - 1].call in gone then rest else rest + [log[|log| - 1]]
  }

  /** The answers of the checks: which call asked, and whether it was turned away. */
  function Checks(s: Settings, m: Memory, log: Log): seq<(CallId, bool)>
  {
    if log == [] then []
    else
      var init, e := log[..|log| - 1], log[|log| - 1];
      if e.Checked? then Checks(s, m, init) + [(e.call, Effective(s, Replay(s, m, init), e.at) == Open)]
      else Checks(s, m, init)
  }

  function Kept(checks: seq<(CallId, bool)>, gone: set<CallId>): seq<(CallId, bool)>
  {
    if checks == [] then []
    else
      var rest := Kept(checks[..|checks| - 1], gone);
      if checks[|checks| - 1].0 in gone then rest else rest + [checks[|checks| - 1]]
  }

  /** `time.monotonic()` never goes back. */
  ghost predicate Timed(log: Log) { forall i, j :: 0 <= i < j < |log| ==> log[i].at <= log[j].at }

  ghost predicate Over(log: Log, now: real) { forall i :: 0 <= i < |log| ==> log[i].at <= now }

  /** Indistinguishable from `now` on: same count, same last failure, same effective state. */
  predicate Same(s: Settings, a: Memory, b: Memory, now: real)
  {
    && a.failures == b.failures && a.lastFailure == b.lastFailure
    && Effective(s, a, now) == Effective(s, b, now)
  }

  lemma SameLasts(s: Settings, a: Memory, b: Memory, now: real, later: real)
    requires Same(s, a, b, now) && now <= later
    ensures Same(s, a, b, later)
  {
  }

  lemma {:induction false} SameStep(s: Settings, a: Memory, b: Memory, e: Event)
    requires Same(s, a, b, e.at)
    ensures Same(s, Step(s, a, e), Step(s, b, e), e.at)
  {
  }

  lemma KeptConcat(checks: seq<(CallId, bool)>, one: (CallId, bool), gone: set<CallId>)
    ensures Kept(checks + [one], gone) == if one.0 in gone then Kept(checks, gone) else Kept(checks, gone) + [one]
  {
    assert (checks + [one])[..|checks|] == checks;
  }

  /** Erasing calls that only timed out, from any interleaving, changes neither what any later check
      answers to the other calls nor the breaker as seen at any later moment. */
  lemma {:induction false} TimeoutErasure(s: Settings, m: Memory, log: Log, gone: set<CallId>, now: real)
    requires Timed(log) && Over(log, now)
    requires forall c :: c in gone ==> TimedOutOnly(log, c)
    ensures Same(s, Replay(s, m, log), Replay(s, m, Erase(log, gone)), now)
    ensures Checks(s, m, Erase(log, gone)) == Kept(Checks(s, m, log), gone)
  {
    if log != [] {
      var init, e := log[..|log| - 1], log[|log| - 1];
      assert forall c :: c in gone ==> TimedOutOnly(init, c);
      TimeoutErasure(s, m, init, gone, e.at);
      var left, right := Replay(s, m, init), Replay(s, m, Erase(init, gone));
      if e.call in gone {
        assert TimedOutOnly(log, e.call);
      } else {
        SameStep(s, left, right, e);
        assert Erase(log, gone)[..|Erase(init, gone)|] == Erase(init, gone);
      }
      SameLasts(s, Replay(s, m, log), Replay(s, m, Erase(log, gone)), e.at, now);
      if e.Checked? {
        KeptConcat(Checks(s, m, init), (e.call, Effective(s, left, e.at) == Open), gone);
      }
    }
  }

  /** A call that is exempt and times out on every attempt leaves such a log. */
  lemma {:induction false} ExemptTimeoutsAreErasable(call: CallId, maxRetries: nat, send: nat -> Attempt, i: nat)
    requires forall k :: i <= k <= maxRetries ==> send(k).Raised? && send(k).error == Timeout
    ensures TimedOutOnly(AttemptLog(call, true, maxRetries, send, i), call)
    decreases maxRetries + 1 - i
  {
    if i <= maxRetries { ExemptTimeoutsAreErasable(call, maxRetries, send, i + 1); }
  }

  // ---------------------------------------------------------------- when calls are blocked

  /** Counted failures since the last success. */
  function Streak(log: Log): nat
  {
    if log == [] then 0
    else
      var e := log[|log| - 1];
      if e.Succeeded? then 0
      else Streak(log[..|log| - 1]) + if e.Failed? && Counts(e.exempt, e.error) then 1 else 0
  }

  /** When the last counted failure happened. */
  function LastCounted(log: Log): real
  {
    if log == [] then 0.0
    else
      var e := log[|log| - 1];
      if e.Failed? && Counts(e.exempt, e.error) then e.at else LastCounted(log[..|log| - 1])
  }

  predicate Full(s: Settings, streak: nat) { streak >= 1 && streak >= s.threshold }

  /** Over every interleaving, a caller sees the breaker closed exactly while the streak of failures is short
      of the threshold; a full streak blocks every check until the recovery time after its last failure. */
  lemma {:induction false} BlocksOnFullStreak(s: Settings, log: Log, now: real)
    requires Timed(log) && Over(log, now)
    ensures var m := Replay(s, Memory(Closed, 0, 0.0), log);
            && m.failures == Streak(log) && m.lastFailure == LastCounted(log)
            && (Effective(s, m, now) == Closed <==> !Full(s, Streak(log)))
            && (Effective(s, m, now) == Open <==> Full(s, Streak(log)) && now - LastCounted(log) < s.recovery)
  {
    if log != [] { BlocksOnFullStreak(s, log[..|log| - 1], log[|log| - 1].at); }
  }
}
