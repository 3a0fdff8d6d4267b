/** In which order a step attempts its signals, and why it stops. */
module FollowUpQueue {
  import opened Backtest

  /** The strategy's replies to the fills observed from index `from` on, in the order of the fills. */
  function Replies(decide: seq<Observed> -> seq<Signal>, log: seq<Observed>, from: nat): seq<Signal>
    requires from <= |log|
    decreases |log|
  {
    if from == |log| then []
    else
      var earlier := Replies(decide, log[..|log| - 1], from);
      if log[|log| - 1].FillSeen? then earlier + decide(log) else earlier
  }

  lemma {:induction false} RepliesSplit(decide: seq<Observed> -> seq<Signal>, log: seq<Observed>, from: nat, mid: nat)
    requires from <= mid <= |log|
    ensures Replies(decide, log, from) == Replies(decide, log[..mid], from) + Replies(decide, log, mid)
    decreases |log|
  {
    if mid == |log| {
      assert log[..mid] == log;
    } else {
      RepliesSplit(decide, log[..|log| - 1], from, mid);
      assert log[..|log| - 1][..mid] == log[..mid];
    }
  }

  /** The signals phase 2 takes off the queue. */
  function Attempts(env: Env, st: State, ts: int, queue: seq<Signal>, fills: nat): seq<Signal>
    requires fills <= MAX_FOLLOW_UP_FILLS
    decreases MAX_FOLLOW_UP_FILLS - fills, |queue|
  {
    if queue == [] || fills >= MAX_FOLLOW_UP_FILLS then []
    else
      var head := Attempt(env, st, ts, queue[0]);
      [queue[0]]
      + Attempts(env, head.st, ts, queue[1..] + head.replies, if head.filled then fills + 1 else fills)
  }

  ghost predicate Grown(a: State, b: State)
  {
    a.log <= b.log && a.trades <= b.trades
  }

  lemma AttemptGrows(env: Env, st: State, ts: int, sig: Signal)
    ensures var a := Attempt(env, st, ts, sig);
            && Grown(st, a.st)
            && |a.st.trades| == |st.trades| + (if a.filled then 1 else 0)
            && |a.st.log| == |st.log| + (if a.filled then 1 else 0)
            && a.replies == Replies(env.decide, a.st.log, |st.log|)
  {
    var a := Attempt(env, st, ts, sig);
    if a.filled {
      assert a.st.log[..|a.st.log| - 1] == st.log;
      assert Replies(env.decide, st.log, |st.log|) == [];
    }
  }

  lemma {:induction false} SignalsGrow(env: Env, st: State, ts: int, signals: seq<Signal>)
    ensures var p := StepSignals(env, st, ts, signals);
            && Grown(st, p.st)
            && |p.st.trades| - |st.trades| == |p.st.log| - |st.log| <= |signals|
            && p.queue == Replies(env.decide, p.st.log, |st.log|)
  {
    if signals != [] {
      var before := StepSignals(env, st, ts, signals[..|signals| - 1]).st;
      SignalsGrow(env, st, ts, signals[..|signals| - 1]);
      AttemptGrows(env, before, ts, signals[|signals| - 1]);
      var after := StepSignals(env, st, ts, signals).st;
      RepliesSplit(env.decide, after.log, |st.log|, |before.log|);
      assert after.log[..|before.log|] == before.log;
    }
  }

  /** Attempting one list after another is attempting their concatenation. */
  lemma {:induction false} SignalsConcat(env: Env, st: State, ts: int, a: seq<Signal>, b: seq<Signal>)
    ensures StepSignals(env, st, ts, a + b).st == StepSignals(env, StepSignals(env, st, ts, a).st, ts, b).st
  {
    if b == [] {
      assert a + b == a;
    } else {
      SignalsConcat(env, st, ts, a, b[..|b| - 1]);
      assert (a + b)[..|a + b| - 1] == a + b[..|b| - 1];
    }
  }

  lemma SignalsOfOne(env: Env, st: State, ts: int, sig: Signal)
    ensures StepSignals(env, st, ts, [sig]) == Phase(Attempt(env, st, ts, sig).st, Attempt(env, st, ts, sig).replies)
  {
    assert [sig][..0] == [];
  }

  lemma Requeue(head: Signal, tail: seq<Signal>, replies: seq<Signal>, later: seq<Signal>,
                tried: seq<Signal>, rest: seq<Signal>)
    requires tail + replies + later == tried + rest
    ensures [head] + tail + (replies + later) == [head] + tried + rest
  {
    assert [head] + tail + (replies + later) == [head] + (tail + replies + later);
    assert [head] + tried + rest == [head] + (tried + rest);
  }

  /** Phase 2 attempts its signals one after the other; they are a first-in-first-out prefix of the queue and
      all later replies, and it stops only when nothing is left or exactly the cap has been filled. */
  lemma {:induction false} FollowUpsFifo(env: Env, st: State, ts: int, queue: seq<Signal>, fills: nat)
    requires fills <= MAX_FOLLOW_UP_FILLS
    ensures var out := FollowUps(env, st, ts, queue, fills); var tried := Attempts(env, st, ts, queue, fills);
            && out.st == StepSignals(env, st, ts, tried).st
            && Grown(st, out.st)
            && queue + Replies(env.decide, out.st.log, |st.log|) == tried + out.queue
            && fills + (|out.st.trades| - |st.trades|) <= 1000
            && (out.queue == [] || fills + (|out.st.trades| - |st.trades|) == 1000)
    decreases MAX_FOLLOW_UP_FILLS - fills, |queue|
  {
    if queue != [] && fills < MAX_FOLLOW_UP_FILLS {
      var head := Attempt(env, st, ts, queue[0]);
      var rest := queue[1..] + head.replies;
      var next := if head.filled then fills + 1 else fills;
      AttemptGrows(env, st, ts, queue[0]);
      FollowUpsFifo(env, head.st, ts, rest, next);
      var out := FollowUps(env, head.st, ts, rest, next);
      var tried := Attempts(env, head.st, ts, rest, next);
      SignalsOfOne(env, st, ts, queue[0]);
      SignalsConcat(env, st, ts, [queue[0]], tried);
      RepliesSplit(env.decide, out.st.log, |st.log|, |head.st.log|);
      assert out.st.log[..|head.st.log|] == head.st.log;
      Requeue(queue[0], queue[1..], head.replies, Replies(env.decide, out.st.log, |head.st.log|), tried, out.queue);
      assert queue == [queue[0]] + queue[1..];
    } else {
      assert queue + Replies(env.decide, st.log, |st.log|) == queue;
    }
  }

  /** A step is the attempt, one after another, of every on_step signal and then of a prefix of the replies in
      the order they were given; the prefix is all of them unless exactly 1000 follow-ups were filled. */
  lemma {:induction false} StepOrder(env: Env, st: State, ts: int)
    ensures var seen := Observe(env, st, ts); var signals := env.decide(seen.log);
            var first := StepSignals(env, seen, ts, signals); var out := Trading(env, st, ts);
            var tried := Attempts(env, first.st, ts, first.queue, 0);
            && out == StepSignals(env, seen, ts, signals + tried).st
            && Grown(seen, out)
            && tried <= Replies(env.decide, out.log, |seen.log|)
            && |out.trades| - |first.st.trades| <= 1000
            && (tried == Replies(env.decide, out.log, |seen.log|)
                || |out.trades| - |first.st.trades| == 1000)
  {
    var seen := Observe(env, st, ts);
    var signals := env.decide(seen.log);
    var first := StepSignals(env, seen, ts, signals);
    var done := FollowUps(env, first.st, ts, first.queue, 0);
    var tried := Attempts(env, first.st, ts, first.queue, 0);
    SignalsGrow(env, seen, ts, signals);
    FollowUpsFifo(env, first.st, ts, first.queue, 0);
    SignalsConcat(env, seen, ts, signals, tried);
    RepliesSplit(env.decide, done.st.log, |seen.log|, |first.st.log|);
    assert done.st.log[..|first.st.log|] == first.st.log;
    assert Replies(env.decide, done.st.log, |seen.log|) == tried + done.queue;
  }
}
