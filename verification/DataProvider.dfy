/** The backtest data provider: cached price frames replayed along one merged timeline (data_provider.py). */
module DataProviders {
  import opened Collections

  datatype Row = Row(ts: int, open: real, high: real, low: real, close: real, volume: real)
  datatype Key = Key(symbol: string, timeframe: string)
  type Frame = seq<Row>
  type Cache = map<Key, Frame>

  ghost predicate SortedFrame(f: Frame)
  {
    forall i, j :: 0 <= i < j < |f| ==> f[i].ts < f[j].ts
  }

  ghost predicate ValidCache(c: Cache)
  {
    forall k :: k in c ==> SortedFrame(c[k])
  }

  // ---------------------------------------------------------------- frame filters

  /** The rows a caller may see at instant `t`: the filter `timestamp <= t`. */
  function Visible(f: Frame, t: int): Frame
  {
    if f == [] then []
    else if f[0].ts <= t then [f[0]] + Visible(f[1..], t)
    else Visible(f[1..], t)
  }

  /** The rows stamped exactly `t`. */
  function Matching(f: Frame, t: int): Frame
  {
    if f == [] then []
    else if f[0].ts == t then [f[0]] + Matching(f[1..], t)
    else Matching(f[1..], t)
  }

  function Tail(f: Frame, limit: nat): Frame
  {
    if |f| <= limit then f else f[|f| - limit..]
  }

  function LastClose(f: Frame): Option<real>
  {
    if f == [] then None else Some(f[|f| - 1].close)
  }

  /** As-of price: the close of the most recent row not after `t`. */
  function AsOf(f: Frame, t: int): Option<real> { LastClose(Tail(Visible(f, t), 1)) }

  /** Tradable price: the close of a row stamped exactly `t`. */
  function ExactBar(f: Frame, t: int): Option<real> { LastClose(Matching(f, t)) }

  // ---------------------------------------------------------------- the merged timeline

  function Stamps(f: Frame): set<int> { set i | 0 <= i < |f| :: f[i].ts }

  function AllStamps(c: Cache): set<int> { set k, x | k in c && x in Stamps(c[k]) :: x }

  function Timeline(c: Cache): seq<int> { Sorted(AllStamps(c)) }

  function CurrentTs(c: Cache, idx: int): Option<int>
  {
    if idx < 0 || c == map[] || idx >= |Timeline(c)| then None else Some(Timeline(c)[idx])
  }

  lemma InstantExists(c: Cache, idx: nat)
    requires idx < |Timeline(c)|
    ensures CurrentTs(c, idx) == Some(Timeline(c)[idx])
  {
    NoData();
  }

  lemma NoData()
    ensures Timeline(map[]) == []
  {
    assert AllStamps(map[]) == {};
  }

  lemma TimelineAscends(c: Cache, i: nat, j: nat)
    requires i < j < |Timeline(c)|
    ensures Timeline(c)[i] < Timeline(c)[j]
  {
    SortedSpec(AllStamps(c));
  }

  // ---------------------------------------------------------------- properties of the filters

  lemma {:induction false} FilterMembers(f: Frame, t: int)
    ensures forall r :: r in Visible(f, t) <==> r in f && r.ts <= t
    ensures forall r :: r in Matching(f, t) <==> r in f && r.ts == t
  {
    if f != [] {
      FilterMembers(f[1..], t);
      assert f == [f[0]] + f[1..];
    }
  }

  /** What is visible is a prefix: the rows up to the instant and none after. */
  lemma {:induction false} VisibleIsPrefix(f: Frame, t: int)
    requires SortedFrame(f)
    ensures var n := |Visible(f, t)|;
            && n <= |f| && Visible(f, t) == f[..n]
            && (forall i :: 0 <= i < n ==> f[i].ts <= t) && (forall i :: n <= i < |f| ==> t < f[i].ts)
  {
    if f != [] {
      VisibleIsPrefix(f[1..], t);
      if f[0].ts > t {
        NothingBefore(f[1..], t);
      } else {
        var n := |Visible(f, t)|;
        assert f[..n] == [f[0]] + f[1..][..n - 1];
        assert forall i :: 1 <= i < |f| ==> f[i] == f[1..][i - 1];
      }
    }
  }

  /** `tail(limit)`: as many of the last rows as there are, up to the limit. */
  lemma TailIsLast(f: Frame, limit: nat)
    ensures |Tail(f, limit)| == if |f| < limit then |f| else limit
    ensures Tail(f, limit) == f[|f| - |Tail(f, limit)|..]
  {
  }

  /** What is visible at `u` can be read off what is visible at any later `t`. */
  lemma {:induction false} VisibleTwice(f: Frame, u: int, t: int)
    requires u <= t
    ensures Visible(Visible(f, t), u) == Visible(f, u)
    ensures Matching(Visible(f, t), u) == Matching(f, u)
  {
    if f != [] {
      VisibleTwice(f[1..], u, t);
      if f[0].ts <= t {
        assert Visible(f, t)[1..] == Visible(f[1..], t);
      }
    }
  }

  lemma {:induction false} MatchingIsRow(f: Frame, t: int, n: nat)
    requires SortedFrame(f) && n < |f| && f[n].ts == t
    ensures Matching(f, t) == [f[n]]
    ensures Visible(f, t) != [] && Visible(f, t)[|Visible(f, t)| - 1] == f[n]
  {
    if n == 0 {
      NothingBefore(f[1..], t);
    } else {
      assert f[0].ts < f[n].ts;
      MatchingIsRow(f[1..], t, n - 1);
    }
  }

  lemma {:induction false} NothingBefore(f: Frame, t: int)
    requires forall r :: r in f ==> t < r.ts
    ensures Visible(f, t) == [] && Matching(f, t) == []
  {
    FilterMembers(f, t);
    if Visible(f, t) != [] { assert Visible(f, t)[0] in Visible(f, t); }
    if Matching(f, t) != [] { assert Matching(f, t)[0] in Matching(f, t); }
  }

  /** When a bar exists at `t`, the price an order fills at and the price a holding is marked at coincide. */
  lemma BarIsAsOf(f: Frame, t: int)
    requires SortedFrame(f) && ExactBar(f, t).Some?
    ensures AsOf(f, t) == ExactBar(f, t)
  {
    var m := Matching(f, t);
    FilterMembers(f, t);
    assert m[|m| - 1] in m;
    var n :| 0 <= n < |f| && f[n] == m[|m| - 1];
    MatchingIsRow(f, t, n);
  }

  ghost predicate SameUpTo(a: Cache, b: Cache, t: int)
  {
    a.Keys == b.Keys && forall k :: k in a ==> Visible(a[k], t) == Visible(b[k], t)
  }

  lemma StampsUpTo(a: Cache, b: Cache, t: int)
    requires SameUpTo(a, b, t)
    ensures UpTo(AllStamps(a), t) == UpTo(AllStamps(b), t)
  {
    forall x | x <= t ensures x in AllStamps(a) <==> x in AllStamps(b) {
      StampVisible(a, b, t, x);
      StampVisible(b, a, t, x);
    }
  }

  lemma StampVisible(a: Cache, b: Cache, t: int, x: int)
    requires SameUpTo(a, b, t) && x <= t
    ensures x in AllStamps(a) ==> x in AllStamps(b)
  {
    if x in AllStamps(a) {
      var k :| k in a && x in Stamps(a[k]);
      var i :| 0 <= i < |a[k]| && a[k][i].ts == x;
      FilterMembers(a[k], t);
      FilterMembers(b[k], t);
      assert a[k][i] in Visible(a[k], t);
      var j :| 0 <= j < |b[k]| && b[k][j] == a[k][i];
      assert x in Stamps(b[k]);
    }
  }

  /** How many instants of the timeline are not after `t`. */
  function StepsUpTo(c: Cache, t: int): nat { |UpTo(AllStamps(c), t)| }

  lemma StepsUpToSplit(c: Cache, t: int)
    ensures StepsUpTo(c, t) <= |Timeline(c)|
    ensures forall i :: 0 <= i < StepsUpTo(c, t) ==> Timeline(c)[i] <= t
    ensures forall i :: StepsUpTo(c, t) <= i < |Timeline(c)| ==> t < Timeline(c)[i]
  {
    SortedPrefix(AllStamps(c), t);
  }

  /** Two caches that agree up to `t` step through the same instants up to `t`. */
  lemma TimelinePrefix(a: Cache, b: Cache, t: int)
    requires SameUpTo(a, b, t)
    ensures StepsUpTo(a, t) == StepsUpTo(b, t) <= |Timeline(a)|
    ensures StepsUpTo(b, t) <= |Timeline(b)|
    ensures Timeline(a)[..StepsUpTo(a, t)] == Timeline(b)[..StepsUpTo(a, t)]
  {
    StampsUpTo(a, b, t);
    SortedPrefix(AllStamps(a), t);
    SortedPrefix(AllStamps(b), t);
  }

  lemma SameInstant(a: Cache, b: Cache, t: int, i: nat)
    requires SameUpTo(a, b, t) && i < StepsUpTo(a, t)
    ensures i < |Timeline(a)| && i < |Timeline(b)| && Timeline(a)[i] == Timeline(b)[i] <= t
  {
    TimelinePrefix(a, b, t);
    StepsUpToSplit(a, t);
    assert Timeline(a)[i] == Timeline(a)[..StepsUpTo(a, t)][i] == Timeline(b)[..StepsUpTo(a, t)][i];
  }

  // ---------------------------------------------------------------- loading in the middle of a run

  function LoadAll(store: Key -> Frame, c: Cache, keys: seq<Key>): Cache
    decreases |keys|
  {
    if keys == [] then c else LoadAll(store, c[keys[0] := store(keys[0])], keys[1..])
  }

  ghost predicate LoadedFrom(store: Key -> Frame, c: Cache)
  {
    forall k :: k in c ==> c[k] == store(k)
  }

  lemma LoadMovesClockBack(store: Key -> Frame, c: Cache, key: Key, idx: int)
    requires LoadedFrom(store, c) && CurrentTs(c, idx).Some?
    ensures LoadedFrom(store, c[key := store(key)])
    ensures CurrentTs(c[key := store(key)], idx).Some?
    ensures CurrentTs(c[key := store(key)], idx).value <= CurrentTs(c, idx).value
  {
    var next := c[key := store(key)];
    forall x | x in AllStamps(c) ensures x in AllStamps(next) {
      var k :| k in c && x in Stamps(c[k]);
      assert next[k] == c[k];
    }
    SortedSuperset(AllStamps(c), AllStamps(next), idx);
  }

  lemma {:induction false} LoadsMoveClockBack(store: Key -> Frame, c: Cache, keys: seq<Key>, idx: int)
    requires LoadedFrom(store, c) && CurrentTs(c, idx).Some?
    ensures LoadedFrom(store, LoadAll(store, c, keys))
    ensures CurrentTs(LoadAll(store, c, keys), idx).Some?
    ensures CurrentTs(LoadAll(store, c, keys), idx).value <= CurrentTs(c, idx).value
    decreases |keys|
  {
    if keys != [] {
      LoadMovesClockBack(store, c, keys[0], idx);
      LoadsMoveClockBack(store, c[keys[0] := store(keys[0])], keys[1..], idx);
    }
  }

  /** However many frames are loaded during a step, the clock stays or moves back, and so no row later
      than the instant at which the step started becomes visible. */
  lemma LoadsRevealNothing(store: Key -> Frame, c: Cache, keys: seq<Key>, idx: int, k: Key, r: Row)
    requires LoadedFrom(store, c) && CurrentTs(c, idx).Some?
    requires CurrentTs(LoadAll(store, c, keys), idx).Some? && k in LoadAll(store, c, keys)
    requires r in Visible(LoadAll(store, c, keys)[k], CurrentTs(LoadAll(store, c, keys), idx).value)
    ensures r.ts <= CurrentTs(c, idx).value
  {
    LoadsMoveClockBack(store, c, keys, idx);
    FilterMembers(LoadAll(store, c, keys)[k], CurrentTs(LoadAll(store, c, keys), idx).value);
  }

  // ---------------------------------------------------------------- the class

  class BacktestDataProvider {
    const store: Key -> Frame
    const timeframe: string
    var cache: Cache
    var currentIdx: int
    var timeline: Option<seq<int>>

    ghost predicate Valid()
      reads this
    {
      && -1 <= currentIdx
      && LoadedFrom(store, cache)
      && (timeline.Some? ==> timeline.value == Timeline(cache))
    }

    constructor (store: Key -> Frame, timeframe: string)
      ensures Valid() && cache == map[] && currentIdx == -1
      ensures this.store == store && this.timeframe == timeframe
    {
      this.store, this.timeframe := store, timeframe;
      cache, currentIdx, timeline := map[], -1, None;
    }

    method Load(symbol: string, tf: string) returns (rows: nat)
      requires Valid()
      modifies this
      ensures Valid() && currentIdx == old(currentIdx)
      ensures cache == old(cache)[Key(symbol, tf) := store(Key(symbol, tf))]
      ensures rows == |store(Key(symbol, tf))|
    {
      var df := store(Key(symbol, tf));
      cache := cache[Key(symbol, tf) := df];
      timeline := None;
      rows := |df|;
    }

    method BuildTimeline() returns (line: seq<int>)
      ensures line == Timeline(cache)
    {
      var seen: set<int> := {};
      var keys := cache.Keys;
      while keys != {}
        invariant keys <= cache.Keys
        invariant seen == set k, x | k in cache && k !in keys && x in Stamps(cache[k]) :: x
        decreases |keys|
      {
        var k := PickKey(keys);
        var df := cache[k];
        ghost var before := seen;
        for i := 0 to |df|
          invariant seen == before + set j | 0 <= j < i :: df[j].ts
        {
          seen := seen + {df[i].ts};
        }
        assert seen == before + Stamps(df);
        ghost var rest := keys - {k};
        assert (set q, x | q in cache && q !in rest && x in Stamps(cache[q]) :: x) == before + Stamps(df);
        keys := keys - {k};
      }
      assert seen == AllStamps(cache);
      line := Sorted(seen);
    }

    method EnsureTimeline() returns (line: seq<int>)
      requires Valid()
      modifies this`timeline
      ensures Valid() && line == Timeline(cache)
    {
      if timeline.None? {
        var built := BuildTimeline();
        timeline := Some(built);
      }
      line := timeline.value;
    }

    method GetCurrentTimestamp() returns (t: Option<int>)
      requires Valid()
      modifies this`timeline
      ensures Valid() && t == CurrentTs(cache, currentIdx)
    {
      if currentIdx < 0 { return None; }
      if cache == map[] { return None; }
      var line := EnsureTimeline();
      if currentIdx >= |line| { return None; }
      return Some(line[currentIdx]);
    }

    method Advance() returns (more: bool)
      requires Valid()
      modifies this`currentIdx, this`timeline
      ensures Valid() && currentIdx == old(currentIdx) + 1
      ensures more <==> currentIdx < |Timeline(cache)|
    {
      currentIdx := currentIdx + 1;
      if cache == map[] {
        NoData();
        return false;
      }
      var line := EnsureTimeline();
      more := currentIdx < |line|;
    }

    method GetTotalSteps() returns (n: nat)
      requires Valid()
      modifies this`timeline
      ensures Valid() && n == |Timeline(cache)|
    {
      if cache == map[] {
        NoData();
        return 0;
      }
      var line := EnsureTimeline();
      n := |line|;
    }

    /** Rows up to the current instant. A key that is not cached is loaded first; no row after the
        instant that was current on entry is ever returned. */
    method GetOhlcv(symbol: string, tf: string, limit: nat) returns (rows: Frame)
      requires Valid()
      modifies this
      ensures Valid() && currentIdx == old(currentIdx)
      ensures cache == if Key(symbol, tf) in old(cache) then old(cache)
                       else old(cache)[Key(symbol, tf) := store(Key(symbol, tf))]
      ensures rows == match CurrentTs(cache, currentIdx)
                      case None => []
                      case Some(t) => Tail(Visible(cache[Key(symbol, tf)], t), limit)
      ensures CurrentTs(old(cache), currentIdx).Some? ==>
                forall r :: r in rows ==> r.ts <= CurrentTs(old(cache), currentIdx).value
    {
      var key := Key(symbol, tf);
      ghost var before := cache;
      if key !in cache {
        var _ := Load(symbol, tf);
      }
      if CurrentTs(before, currentIdx).Some? {
        LoadMovesClockBack(store, before, key, currentIdx);
      }
      var now := GetCurrentTimestamp();
      if now.None? || cache[key] == [] {
        assert now.Some? ==> Visible([], now.value) == [];
        return [];
      }
      FilterMembers(cache[key], now.value);
      rows := Tail(Visible(cache[key], now.value), limit);
    }

    /** `None` stands for the raised "no data" error. */
    method GetCurrentPrice(symbol: string) returns (price: Option<real>)
      requires Valid()
      modifies this
      ensures Valid() && currentIdx == old(currentIdx)
      ensures Key(symbol, timeframe) in old(cache) ==> cache == old(cache)
      ensures Key(symbol, timeframe) in cache
      ensures price == match CurrentTs(cache, currentIdx)
                       case None => None
                       case Some(t) => AsOf(cache[Key(symbol, timeframe)], t)
    {
      var df := GetOhlcv(symbol, timeframe, 1);
      price := LastClose(df);
    }

    /** The tradable close of the current instant; without an explicit timeframe, that of the run. */
    method GetCurrentBarPrice(symbol: string, tf: Option<string>) returns (price: Option<real>)
      requires Valid()
      modifies this
      ensures Valid() && currentIdx == old(currentIdx)
      ensures var key := Key(symbol, Chosen(tf));
              && cache == (if key in old(cache) then old(cache) else old(cache)[key := store(key)])
              && price == match CurrentTs(cache, currentIdx)
                          case None => None
                          case Some(t) => ExactBar(cache[key], t)
    {
      var used := Chosen(tf);
      var key := Key(symbol, used);
      if key !in cache {
        var _ := Load(symbol, used);
      }
      var now := GetCurrentTimestamp();
      if now.None? { return None; }
      var df := cache[key];
      if df == [] { return None; }
      price := LastClose(Matching(df, now.value));
    }

    function Chosen(tf: Option<string>): string
    {
      if tf.None? || tf.value == "" then timeframe else tf.value
    }

    /** Back before the first instant, with the loaded frames kept: nothing is visible until the next advance,
        which starts the same timeline over. */
    method Reset()
      requires Valid()
      modifies this`currentIdx, this`timeline
      ensures Valid() && currentIdx == -1 && CurrentTs(cache, currentIdx) == None
      ensures cache == old(cache)
      ensures Timeline(cache) != [] ==> CurrentTs(cache, currentIdx + 1) == Some(Timeline(cache)[0])
    {
      currentIdx, timeline := -1, None;
      if Timeline(cache) != [] { InstantExists(cache, 0); }
    }
  }

  method PickKey(keys: set<Key>) returns (k: Key)
    requires keys != {}
    ensures k in keys
  {
    k :| k in keys;
  }
}
