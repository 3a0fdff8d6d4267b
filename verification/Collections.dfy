/** Insertion-ordered dictionaries, finite sums over maps and ascending enumerations of finite sets. */
module Collections {

  datatype Option<+T> = None | Some(value: T)

  /** A dictionary that remembers in which order its keys were first inserted. */
  datatype Dict<K(==), V> = Dict(keys: seq<K>, entries: map<K, V>)

  function Put<K(==), V>(d: Dict<K, V>, k: K, v: V): Dict<K, V>
  {
    Dict(if k in d.entries then d.keys else d.keys + [k], d.entries[k := v])
  }

  /** Each key is listed once, and only keys are listed. */
  ghost predicate Proper<K(!new), V>(d: Dict<K, V>)
  {
    && (forall k :: k in d.keys <==> k in d.entries)
    && (forall i, j :: 0 <= i < j < |d.keys| ==> d.keys[i] != d.keys[j])
  }

  /** The values in insertion order. */
  ghost function Values<K(!new), V>(d: Dict<K, V>): seq<V>
    requires Proper(d)
  {
    seq(|d.keys|, i requires 0 <= i < |d.keys| => assert d.keys[i] in d.keys; d.entries[d.keys[i]])
  }

  /** The sum of the values of a finite map. */
  ghost function Sum(m: map<string, real>): real
  {
    if m == map[] then 0.0
    else
      var k :| k in m;
      m[k] + Sum(m - {k})
  }

  /** The sum does not depend on which key is taken out first. */
  lemma {:induction false} SumSplit(m: map<string, real>, k: string)
    requires k in m
    ensures Sum(m) == m[k] + Sum(m - {k})
    decreases |m|
  {
    var j :| j in m && Sum(m) == m[j] + Sum(m - {j});
    if j != k {
      SumSplit(m - {j}, k);
      SumSplit(m - {k}, j);
      assert m - {j} - {k} == m - {k} - {j};
    }
  }

  lemma SumInsert(m: map<string, real>, k: string, v: real)
    requires k !in m
    ensures Sum(m[k := v]) == Sum(m) + v
  {
    SumSplit(m[k := v], k);
    assert m[k := v] - {k} == m;
  }

  function At(m: map<string, real>, k: string): real { if k in m then m[k] else 0.0 }

  /** Two maps that differ at `k` only have sums that differ by their values at `k`. */
  lemma SumReplace(a: map<string, real>, b: map<string, real>, k: string)
    requires a - {k} == b - {k}
    ensures Sum(b) - Sum(a) == At(b, k) - At(a, k)
  {
    if k in a { SumSplit(a, k); } else { assert a - {k} == a; }
    if k in b { SumSplit(b, k); } else { assert b - {k} == b; }
  }

  /** The pointwise difference of two maps on the same keys sums to the difference of the sums. */
  lemma {:induction false} SumDifference(a: map<string, real>, b: map<string, real>, d: map<string, real>)
    requires a.Keys == b.Keys == d.Keys
    requires forall k :: k in d ==> d[k] == b[k] - a[k]
    ensures Sum(b) - Sum(a) == Sum(d)
    decreases |a|
  {
    if a != map[] {
      var k :| k in a;
      SumSplit(a, k);
      SumSplit(b, k);
      SumSplit(d, k);
      SumDifference(a - {k}, b - {k}, d - {k});
    } else {
      assert b == map[] && d == map[];
    }
  }

  ghost predicate Ascending(s: seq<int>)
  {
    forall i, j :: 0 <= i < j < |s| ==> s[i] < s[j]
  }

  ghost function Pick<T>(s: set<T>): (x: T)
    requires s != {}
    ensures x in s
  {
    var x :| x in s; x
  }

  lemma {:induction false} MinExists(s: set<int>)
    requires s != {}
    ensures exists m :: m in s && forall x :: x in s ==> m <= x
    decreases |s|
  {
    var y := Pick(s);
    var t := s - {y};
    if t == {} {
      assert forall x :: x in s ==> x in t || x == y;
    } else {
      MinExists(t);
      var m :| m in t && forall x :: x in t ==> m <= x;
      var least := if y < m then y else m;
      assert forall x :: x in s ==> x in t || x == y;
      assert least in s && forall x :: x in s ==> least <= x;
    }
  }

  function Least(s: set<int>): (m: int)
    requires s != {}
    ensures m in s && forall x :: x in s ==> m <= x
  {
    MinExists(s);
    var m :| m in s && forall x :: x in s ==> m <= x;
    m
  }

  /** What `sorted(set)` returns: the elements of `s`, each once, in ascending order. */
  function Sorted(s: set<int>): (r: seq<int>)
    ensures |r| == |s|
    decreases |s|
  {
    if s == {} then []
    else
      var m := Least(s);
      assert |s - {m}| == |s| - 1;
      [m] + Sorted(s - {m})
  }

  lemma {:induction false} SortedSpec(s: set<int>)
    ensures forall x :: x in Sorted(s) <==> x in s
    ensures Ascending(Sorted(s))
    decreases |s|
  {
    if s != {} {
      var m := Least(s);
      var rest := Sorted(s - {m});
      SortedSpec(s - {m});
      assert Sorted(s) == [m] + rest;
      forall i, j | 0 <= i < j < |Sorted(s)| ensures Sorted(s)[i] < Sorted(s)[j] {
        assert rest[j - 1] in rest;
        if i > 0 { assert rest[i - 1] < rest[j - 1]; }
      }
    }
  }

  /** An ascending sequence is determined by its elements. */
  lemma {:induction false} AscendingUnique(a: seq<int>, b: seq<int>)
    requires Ascending(a) && Ascending(b)
    requires forall x :: x in a <==> x in b
    ensures a == b
  {
    if |a| > 0 { assert a[0] in a; assert a[0] in b; }
    if |b| > 0 { assert b[0] in b; assert b[0] in a; }
    if a != [] {
      assert a[0] == b[0];
      forall x ensures x in a[1..] <==> x in b[1..] {
        assert x in a[1..] <==> x in a && x != a[0];
        assert x in b[1..] <==> x in b && x != b[0];
      }
      AscendingUnique(a[1..], b[1..]);
      assert a == [a[0]] + a[1..] && b == [b[0]] + b[1..];
    }
  }

  function UpTo(s: set<int>, t: int): set<int> { set x | x in s && x <= t }

  lemma AscendingConcat(a: seq<int>, b: seq<int>)
    requires Ascending(a) && Ascending(b)
    requires forall x, y :: x in a && y in b ==> x < y
    ensures Ascending(a + b)
  {
    forall i, j | 0 <= i < j < |a + b| ensures (a + b)[i] < (a + b)[j] {
      if i < |a| <= j {
        assert a[i] in a && b[j - |a|] in b;
      }
    }
  }

  lemma SortedSplit(s: set<int>, t: int)
    ensures Sorted(s) == Sorted(UpTo(s, t)) + Sorted(s - UpTo(s, t))
  {
    var below, above := Sorted(UpTo(s, t)), Sorted(s - UpTo(s, t));
    SortedSpec(s);
    SortedSpec(UpTo(s, t));
    SortedSpec(s - UpTo(s, t));
    AscendingConcat(below, above);
    forall x ensures x in Sorted(s) <==> x in below + above {
      assert x in s <==> x in UpTo(s, t) || x in s - UpTo(s, t);
    }
    AscendingUnique(Sorted(s), below + above);
  }

  lemma TwoParts(below: seq<int>, above: seq<int>, t: int)
    requires forall x :: x in below ==> x <= t
    requires forall x :: x in above ==> t < x
    ensures forall i :: 0 <= i < |below| ==> (below + above)[i] <= t
    ensures forall i :: |below| <= i < |below| + |above| ==> t < (below + above)[i]
  {
    forall i | |below| <= i < |below| + |above| ensures t < (below + above)[i] {
      assert (below + above)[i] == above[i - |below|] && above[i - |below|] in above;
    }
    forall i | 0 <= i < |below| ensures (below + above)[i] <= t {
      assert (below + above)[i] == below[i] && below[i] in below;
    }
  }

  /** The elements up to `t` are enumerated first, whatever lies beyond. */
  lemma SortedPrefix(s: set<int>, t: int)
    ensures |UpTo(s, t)| <= |s|
    ensures Sorted(s)[..|UpTo(s, t)|] == Sorted(UpTo(s, t))
    ensures forall i :: 0 <= i < |UpTo(s, t)| ==> Sorted(s)[i] <= t
    ensures forall i :: |UpTo(s, t)| <= i < |s| ==> t < Sorted(s)[i]
  {
    SortedSplit(s, t);
    SubsetSize(UpTo(s, t), s);
    SortedSpec(UpTo(s, t));
    SortedSpec(s - UpTo(s, t));
    TwoParts(Sorted(UpTo(s, t)), Sorted(s - UpTo(s, t)), t);
  }

  /** Enlarging a set can only move the k-th smallest element down. */
  lemma SortedSuperset(a: set<int>, b: set<int>, k: nat)
    requires a <= b && k < |a|
    ensures k < |b| && Sorted(b)[k] <= Sorted(a)[k]
  {
    SubsetSize(a, b);
    var t := Sorted(a)[k];
    SortedPrefix(a, t);
    SortedPrefix(b, t);
    assert UpTo(a, t) <= UpTo(b, t);
    SubsetSize(UpTo(a, t), UpTo(b, t));
    assert k < |UpTo(b, t)|;
  }

  lemma {:induction false} SubsetSize<T>(a: set<T>, b: set<T>)
    requires a <= b
    ensures |a| <= |b|
    decreases |a|
  {
    if a != {} {
      var x :| x in a;
      SubsetSize(a - {x}, b - {x});
    }
  }

  // ---------------------------------------------------------------- iteration

  function Iterate<T>(f: T -> T, x: T, k: nat): T { if k == 0 then x else f(Iterate(f, x, k - 1)) }

  lemma {:induction false} IterateOn<T>(f: T -> T, x: T, j: nat, k: nat)
    ensures Iterate(f, x, j + k) == Iterate(f, Iterate(f, x, j), k)
  {
    if k > 0 { IterateOn(f, x, j, k - 1); }
  }

  /** One more step. */
  lemma IterateNext<T>(f: T -> T, x: T, k: nat, here: T, there: T)
    requires Iterate(f, x, k) == here && f(here) == there
    ensures Iterate(f, x, k + 1) == there
  {
  }
}
