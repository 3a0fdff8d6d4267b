/** The position fallback reads three times and compares: the open orders, the broker's positions, the books. What
    a match means when anything may happen between the reads (fill_scheduler.py). */
module FallbackReads {
  import opened Collections
  import opened FillRecovery
  import opened PollCycle

  /** What really stands at the broker: `q[i]` is filled of order `i`, `outside` was traded by others. */
  datatype Account = Account(table: Table, q: seq<real>, outside: map<string, real>)

  /** The open orders as read first, the account as its positions were read, the records as the books were read,
      and the totals compared. */
  datatype Reads = Reads(open: Table, held: Account, broker: map<string, real>, shown: Table, book: map<string, real>)

  ghost predicate Kept(o: Order, o': Order)
  {
    && (o'.odno, o'.symbol, o'.buy, o'.ordered, o'.day) == (o.odno, o.symbol, o.buy, o.ordered, o.day)
    && o.recorded <= o'.recorded && (Live(o') ==> Live(o))
  }

  /** The table some time later: orders were added, none forgotten, reduced or brought back to life. */
  ghost predicate Later(t: Table, u: Table)
  {
    |t| <= |u| && forall i :: 0 <= i < |t| ==> Kept(t[i], u[i])
  }

  lemma LaterTwice(t: Table, u: Table, v: Table)
    requires Later(t, u) && Later(u, v)
    ensures Later(t, v)
  {
    forall i | 0 <= i < |t| ensures Kept(t[i], v[i]) {
      assert Kept(t[i], u[i]) && Kept(u[i], v[i]);
    }
  }

  ghost predicate ShowsAccount(broker: map<string, real>, held: Account, opening: string -> real)
  {
    |held.q| == |held.table|
    && forall s :: At(broker, s) == opening(s) + Net(held.table, held.q, s) + At(held.outside, s)
  }

  ghost predicate ShowsRecords(book: map<string, real>, t: Table, opening: string -> real)
  {
    forall s :: At(book, s) == opening(s) + Net(t, Recorded(t), s)
  }

  /** Each read was true when it was made, and they were made in this order. */
  ghost predicate InOrder(r: Reads, opening: string -> real)
  {
    && Later(r.open, r.held.table) && Later(r.held.table, r.shown)
    && ShowsAccount(r.broker, r.held, opening) && ShowsRecords(r.book, r.shown, opening)
  }

  // ---------------------------------------------------------------- sums over tables of different moments

  function Minus(a: seq<real>, b: seq<real>): seq<real>
    requires |a| == |b|
  {
    seq(|a|, i requires 0 <= i < |a| => a[i] - b[i])
  }

  lemma {:induction false} NetMinus(t: Table, a: seq<real>, b: seq<real>, symbol: string)
    requires |a| == |b| == |t|
    ensures Net(t, Minus(a, b), symbol) == Net(t, a, symbol) - Net(t, b, symbol)
  {
    if t != [] {
      var n := |t| - 1;
      assert Minus(a, b)[..n] == Minus(a[..n], b[..n]);
      NetMinus(t[..n], a[..n], b[..n], symbol);
    }
  }

  /** Nothing was filled of orders not yet submitted. */
  function Padded(q: seq<real>, n: nat): seq<real>
    requires |q| <= n
  {
    seq(n, i requires 0 <= i < n => if i < |q| then q[i] else 0.0)
  }

  lemma {:induction false} NetLater(t: Table, u: Table, q: seq<real>, symbol: string)
    requires Later(t, u) && |q| == |t|
    ensures Net(u, Padded(q, |u|), symbol) == Net(t, q, symbol)
    decreases |u|
  {
    if u != [] {
      var n := |u| - 1;
      if |t| == |u| {
        assert Padded(q, |u|)[..n] == Padded(q[..n], n);
        assert Kept(t[n], u[n]);
        assert Later(t[..n], u[..n]);
        NetLater(t[..n], u[..n], q[..n], symbol);
      } else {
        assert Padded(q, |u|)[..n] == Padded(q, n);
        assert Later(t, u[..n]);
        NetLater(t, u[..n], q, symbol);
      }
    }
  }

  lemma {:induction false} NetWithout(t: Table, a: seq<real>, i: nat)
    requires |a| == |t| && i < |t| && t[i].buy
    ensures Net(t, a, t[i].symbol) == a[i] + Net(t, a[i := 0.0], t[i].symbol)
  {
    var n := |t| - 1;
    if i < n {
      assert a[i := 0.0][..n] == a[..n][i := 0.0];
      NetWithout(t[..n], a[..n], i);
    } else {
      assert a[i := 0.0][..n] == a[..n];
    }
  }

  lemma {:induction false} NetNotPositive(t: Table, a: seq<real>, symbol: string)
    requires |a| == |t|
    requires forall j :: 0 <= j < |t| && t[j].symbol == symbol ==> if t[j].buy then a[j] <= 0.0 else a[j] >= 0.0
    ensures Net(t, a, symbol) <= 0.0
  {
    if t != [] {
      var n := |t| - 1;
      assert forall j :: 0 <= j < n ==> t[..n][j] == t[j] && a[..n][j] == a[j];
      NetNotPositive(t[..n], a[..n], symbol);
    }
  }

  // ---------------------------------------------------------------- what a match means

  /** Per order, what the positions held of it and the books did not show: positive for a fill not recorded by the
      time the books were read, negative for one made and recorded between the two reads. */
  function Unshown(r: Reads): seq<real>
    requires |r.held.q| <= |r.shown|
  {
    Minus(Padded(r.held.q, |r.shown|), Recorded(r.shown))
  }

  /** What the other orders of the symbol and the trades outside contribute to the excess. */
  function Stray(r: Reads, i: nat): real
    requires |r.held.q| <= |r.shown| && i < |r.open| <= |r.shown|
  {
    Net(r.shown, Unshown(r)[i := 0.0], r.open[i].symbol) + At(r.held.outside, r.open[i].symbol)
  }

  /** When the fallback fires, the quantity ordered is what was filled of the order when the positions were read, less
      what the books already showed of it, plus what strayed in from elsewhere. */
  lemma FiringExplained(r: Reads, i: nat, opening: string -> real)
    requires InOrder(r, opening) && Fires(r.open, i, r.broker, r.book)
    ensures r.open[i].ordered == r.held.q[i] - r.shown[i].recorded + Stray(r, i)
  {
    var s := r.open[i].symbol;
    LaterTwice(r.open, r.held.table, r.shown);
    assert Kept(r.open[i], r.shown[i]);
    NetLater(r.held.table, r.shown, r.held.q, s);
    NetMinus(r.shown, Padded(r.held.q, |r.shown|), Recorded(r.shown), s);
    NetWithout(r.shown, Unshown(r), i);
    assert At(r.broker, s) == opening(s) + Net(r.held.table, r.held.q, s) + At(r.held.outside, s);
    assert At(r.book, s) == opening(s) + Net(r.shown, Recorded(r.shown), s);
  }

  /** What strayed in is made up for: by what the books already showed of the order, and by what has been filled of
      it since the positions were read. */
  predicate MadeUp(r: Reads, i: nat, filled: real)
    requires i < |r.held.q| <= |r.shown| && i < |r.open| <= |r.shown|
  {
    Stray(r, i) == r.shown[i].recorded + (filled - r.held.q[i])
  }

  /** A firing is right about an order of which `filled` is filled by now exactly if what strayed into the comparison
      is made up for. */
  lemma FiringIff(r: Reads, i: nat, opening: string -> real, filled: real)
    requires InOrder(r, opening) && Fires(r.open, i, r.broker, r.book)
    ensures filled == r.open[i].ordered <==> MadeUp(r, i, filled)
  {
    FiringExplained(r, i, opening);
  }

  lemma {:induction false} TwoLiveBuys(t: Table, i: nat, j: nat)
    requires i < j < |t| && t[i].symbol == t[j].symbol && t[i].buy && t[j].buy && Live(t[i]) && Live(t[j])
    ensures LiveBuys(t, t[i].symbol) >= 2
  {
    var n := |t| - 1;
    if j < n { TwoLiveBuys(t[..n], i, j); } else { OneLiveBuy(t[..n], t[i].symbol, i); }
  }

  /** Where it can stray from: another buy of the symbol was either finished when the open orders were read, or
      submitted afterwards. */
  lemma OtherBuys(r: Reads, i: nat, j: nat)
    requires Fires(r.open, i, r.broker, r.book) && j < |r.shown| && j != i && Later(r.open, r.shown)
    requires r.shown[j].buy && r.shown[j].symbol == r.open[i].symbol
    ensures j >= |r.open| || !Live(r.open[j])
  {
    if j < |r.open| && Live(r.open[j]) {
      assert Kept(r.open[j], r.shown[j]);
      TwoLiveBuys(r.open, if i < j then i else j, if i < j then j else i);
    }
  }

  /** Order by order: of no other buy did the positions hold more than the books showed, of no sell did the books show
      more than the positions lacked, and nobody outside bought on balance. Sells not yet recorded are allowed. */
  ghost predicate Undisturbed(r: Reads, i: nat)
    requires |r.held.q| <= |r.shown| && i < |r.open|
  {
    && (forall j :: 0 <= j < |r.shown| && j != i && r.shown[j].symbol == r.open[i].symbol ==>
          if r.shown[j].buy then Unshown(r)[j] <= 0.0 else Unshown(r)[j] >= 0.0)
    && At(r.held.outside, r.open[i].symbol) <= 0.0
  }

  /** Undisturbed, a firing is right about the moment of the positions, and what strayed in is nothing. */
  lemma UndisturbedIsRight(r: Reads, i: nat, opening: string -> real)
    requires InOrder(r, opening) && Fires(r.open, i, r.broker, r.book) && Undisturbed(r, i)
    requires r.held.q[i] <= r.open[i].ordered && r.shown[i].recorded >= 0.0
    ensures r.held.q[i] == r.open[i].ordered && r.shown[i].recorded == 0.0 && Stray(r, i) == 0.0
  {
    FiringExplained(r, i, opening);
    NetNotPositive(r.shown, Unshown(r)[i := 0.0], r.open[i].symbol);
  }
}
