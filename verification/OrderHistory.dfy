/** The broker's order ledger: fetched page by page, folded per order and applied to the recorded fills
    (kis.py, fill_scheduler.py). */
module OrderHistory {
  import opened Collections
  import opened Strings

  const MAX_PAGES := 100

  datatype Row = Row(odno: string, ordDt: string, pdno: string, sllBuyDvsn: string,
                     ordQty: real, totCcldQty: real, totCcldAmt: real, avgPrvs: real, ordUnpr: real)

  // ---------------------------------------------------------------- fetching

  datatype Page = Page(rows: seq<Row>, trCont: string, fk: string, nk: string)

  /** What the broker answers to a cursor and a continuation header; None when the request raised. */
  type Server = (string, string, string) -> Option<Page>

  predicate HasNext(p: Page)
  {
    p.trCont in {"F", "M"} && !(Strip(p.fk) == "" && Strip(p.nk) == "")
  }

  function Prepend(rows: seq<Row>, rest: Option<seq<Row>>): Option<seq<Row>>
  {
    if rest.None? then None else Some(rows + rest.value)
  }

  function Walk(server: Server, budget: nat, fk: string, nk: string, cont: string): Option<seq<Row>>
  {
    if budget == 0 then Some([])
    else
      var answer := server(fk, nk, cont);
      if answer.None? then None
      else if !HasNext(answer.value) then Some(answer.value.rows)
      else Prepend(answer.value.rows, Walk(server, budget - 1, Strip(answer.value.fk), Strip(answer.value.nk), "N"))
  }

  method RequestPaginated(server: Server, cap: nat := MAX_PAGES) returns (result: Option<seq<Row>>)
    ensures result == Walk(server, cap, "", "", "")
  {
    var rows: seq<Row> := [];
    var fk, nk, cont := "", "", "";
    assert Walk(server, cap, fk, nk, cont) == Prepend(rows, Walk(server, cap, fk, nk, cont)) by {
      PrependNothing(Walk(server, cap, fk, nk, cont));
    }
    for page := 0 to cap
      invariant Walk(server, cap, "", "", "") == Prepend(rows, Walk(server, cap - page, fk, nk, cont))
    {
      var answer := server(fk, nk, cont);
      if answer.None? { return None; }
      ghost var before := rows;
      rows := rows + answer.value.rows;
      if answer.value.trCont !in {"F", "M"} { return Some(rows); }
      var nextFk, nextNk := Strip(answer.value.fk), Strip(answer.value.nk);
      if nextFk == "" && nextNk == "" { return Some(rows); }
      ghost var rest := Walk(server, cap - page - 1, nextFk, nextNk, "N");
      assert rest.Some? ==> before + (answer.value.rows + rest.value) == rows + rest.value;
      fk, nk, cont := nextFk, nextNk, "N";
    }
    assert rows + [] == rows;
    return Some(rows);
  }

  lemma PrependNothing(rest: Option<seq<Row>>)
    ensures Prepend([], rest) == rest
  {
    if rest.Some? { assert [] + rest.value == rest.value; }
  }

  function Flatten(pages: seq<seq<Row>>): seq<Row>
  {
    if pages == [] then [] else pages[0] + Flatten(pages[1..])
  }

  /** The server holds `pages`, reached one after the other through `cursors`. */
  ghost predicate Serves(server: Server, pages: seq<seq<Row>>, cursors: seq<(string, string)>)
  {
    && |pages| == |cursors| > 0 && cursors[0] == ("", "")
    && (forall i :: 0 <= i < |pages| ==> ServesPage(server, pages, cursors, i))
  }

  ghost predicate ServesPage(server: Server, pages: seq<seq<Row>>, cursors: seq<(string, string)>, i: nat)
    requires |pages| == |cursors| && i < |pages|
  {
    var answer := server(cursors[i].0, cursors[i].1, if i == 0 then "" else "N");
    && answer.Some? && answer.value.rows == pages[i]
    && if i < |pages| - 1
       then answer.value.trCont in {"F", "M"} && cursors[i + 1] != ("", "")
            && (Strip(answer.value.fk), Strip(answer.value.nk)) == cursors[i + 1]
       else answer.value.trCont !in {"F", "M"} || (Strip(answer.value.fk) == "" && Strip(answer.value.nk) == "")
  }

  function Min(a: nat, b: nat): nat { if a <= b then a else b }

  lemma {:induction false} WalkCollects(server: Server, pages: seq<seq<Row>>, cursors: seq<(string, string)>,
                                        i: nat, budget: nat)
    requires Serves(server, pages, cursors) && i < |pages|
    ensures Walk(server, budget, cursors[i].0, cursors[i].1, if i == 0 then "" else "N")
            == Some(Flatten(pages[i..Min(i + budget, |pages|)]))
    decreases budget
  {
    if budget > 0 {
      assert ServesPage(server, pages, cursors, i);
      var window := pages[i..Min(i + budget, |pages|)];
      assert window[0] == pages[i];
      if i < |pages| - 1 {
        WalkCollects(server, pages, cursors, i + 1, budget - 1);
        assert window[1..] == pages[i + 1..Min(i + budget, |pages|)];
      } else {
        assert window[1..] == [];
        assert pages[i] + [] == pages[i];
      }
    }
  }

  lemma {:induction false} FlattenSplit(pages: seq<seq<Row>>, n: nat)
    requires n <= |pages|
    ensures Flatten(pages) == Flatten(pages[..n]) + Flatten(pages[n..])
  {
    if n == 0 {
      assert pages[..0] == [] && pages[0..] == pages;
    } else {
      FlattenSplit(pages[1..], n - 1);
      assert pages[..n][1..] == pages[1..][..n - 1] && pages[n..] == pages[1..][n - 1..];
    }
  }

  /** The walk collects every page, up to the cap: nothing is missing exactly if the rest holds no row. */
  lemma {:induction false} PagedFetchIsWhole(server: Server, pages: seq<seq<Row>>, cursors: seq<(string, string)>,
                                             cap: nat)
    requires Serves(server, pages, cursors)
    ensures Walk(server, cap, "", "", "") == Some(Flatten(pages[..Min(cap, |pages|)]))
    ensures Walk(server, cap, "", "", "") == Some(Flatten(pages))
            <==> Flatten(pages[Min(cap, |pages|)..]) == []
  {
    var n := Min(cap, |pages|);
    WalkCollects(server, pages, cursors, 0, cap);
    assert pages[0..n] == pages[..n];
    FlattenSplit(pages, n);
    NothingAdded(Flatten(pages[..n]), Flatten(pages[n..]));
  }

  lemma NothingAdded(a: seq<Row>, b: seq<Row>)
    ensures a == a + b <==> b == []
  {
    assert |a + b| == |a| + |b|;
  }

  // ---------------------------------------------------------------- folding

  type Key = (string, string)

  datatype Entry = Entry(orderId: string, symbol: string, buy: bool, quantity: real, filled: real, price: real,
                         anyFill: bool, timestamp: string)

  function KeyOf(r: Row): Key { (r.odno, r.ordDt) }

  function FillPrice(r: Row): real
  {
    if r.totCcldQty > 0.0 && r.totCcldAmt > 0.0 then r.totCcldAmt / r.totCcldQty
    else if r.avgPrvs > 0.0 then r.avgPrvs
    else r.ordUnpr
  }

  function EntryOf(r: Row): Entry
  {
    Entry(r.odno, r.pdno, r.sllBuyDvsn == "02", r.ordQty, r.totCcldQty, FillPrice(r), r.totCcldQty > 0.0, r.ordDt)
  }

  function Fold(rows: seq<Row>): Dict<Key, Entry>
  {
    if rows == [] then Dict([], map[])
    else
      var d := Fold(rows[..|rows| - 1]);
      var r := rows[|rows| - 1];
      if r.odno == "" || (KeyOf(r) in d.entries && r.totCcldQty < d.entries[KeyOf(r)].filled) then d
      else Put(d, KeyOf(r), EntryOf(r))
  }

  lemma {:induction false} FoldProper(rows: seq<Row>)
    ensures Proper(Fold(rows))
  {
    if rows != [] { FoldProper(rows[..|rows| - 1]); }
  }

  ghost function FoldedList(rows: seq<Row>): seq<Entry>
  {
    FoldProper(rows);
    Values(Fold(rows))
  }

  method FoldOrderHistory(rows: seq<Row>) returns (r: seq<Entry>)
    ensures r == FoldedList(rows)
  {
    var keys: seq<Key> := [];
    var folded: map<Key, Entry> := map[];
    for i := 0 to |rows|
      invariant Dict(keys, folded) == Fold(rows[..i])
    {
      assert rows[..i + 1][..i] == rows[..i];
      var item := rows[i];
      if item.odno != "" {
        var key := (item.odno, item.ordDt);
        if key !in folded || item.totCcldQty >= folded[key].filled {
          if key !in folded { keys := keys + [key]; }
          folded := folded[key := EntryOf(item)];
        }
      }
    }
    assert rows[..|rows|] == rows;
    FoldProper(rows);
    r := [];
    for i := 0 to |keys|
      invariant r == FoldedList(rows)[..i]
    {
      assert keys[i] in keys;
      r := r + [folded[keys[i]]];
    }
  }

  /** The adapter's answer: up to 100 pages, folded; nothing when a request raised. */
  method GetOrderHistory(server: Server) returns (r: Option<seq<Entry>>)
    ensures var rows := Walk(server, 100, "", "", "");
            r == if rows.None? then None else Some(FoldedList(rows.value))
  {
    var rows := RequestPaginated(server);
    if rows.None? { return None; }
    var folded := FoldOrderHistory(rows.value);
    return Some(folded);
  }

  /** Row `j` has the largest quantity of its key, and every later row of the key has strictly less. */
  ghost predicate IsPeak(rows: seq<Row>, j: int, k: Key)
  {
    && 0 <= j < |rows| && KeyOf(rows[j]) == k
    && (forall i :: 0 <= i < |rows| && KeyOf(rows[i]) == k ==> rows[i].totCcldQty <= rows[j].totCcldQty)
    && (forall i :: j < i < |rows| && KeyOf(rows[i]) == k ==> rows[i].totCcldQty < rows[j].totCcldQty)
  }

  /** The folded entry is the projection of the last row with the largest quantity of its (odno, day). */
  lemma {:induction false} FoldKeepsPeak(rows: seq<Row>, k: Key) returns (j: nat)
    requires k in Fold(rows).entries
    ensures k.0 != "" && IsPeak(rows, j, k) && Fold(rows).entries[k] == EntryOf(rows[j])
  {
    var last := |rows| - 1;
    var init := rows[..last];
    var r := rows[last];
    if KeyOf(r) != k || k !in Fold(init).entries {
      if k in Fold(init).entries {
        j := FoldKeepsPeak(init, k);
        assert forall i :: 0 <= i < last ==> rows[i] == init[i];
      } else {
        j := last;
        NoEntryNoRow(init, k);
      }
    } else {
      j := FoldKeepsPeak(init, k);
      assert forall i :: 0 <= i < last ==> rows[i] == init[i];
      if r.totCcldQty >= init[j].totCcldQty { j := last; }
    }
  }

  lemma {:induction false} NoEntryNoRow(rows: seq<Row>, k: Key)
    requires k.0 != "" && k !in Fold(rows).entries
    ensures forall i :: 0 <= i < |rows| ==> KeyOf(rows[i]) != k
  {
    if rows != [] {
      var init := rows[..|rows| - 1];
      NoEntryNoRow(init, k);
      assert forall i :: 0 <= i < |rows| - 1 ==> rows[i] == init[i];
    }
  }

  /** An entry tells of its row: a buy exactly if its code is "02", filled in part or in full exactly if its quantity is
      positive, at the amount paid per unit, else the average price, else the price ordered at. */
  lemma EntryTells(rows: seq<Row>, k: Key) returns (j: nat)
    requires k in Fold(rows).entries
    ensures IsPeak(rows, j, k)
    ensures var e, r := Fold(rows).entries[k], rows[j];
            && (e.orderId, e.timestamp) == k && e.symbol == r.pdno && (e.buy <==> r.sllBuyDvsn == "02")
            && e.quantity == r.ordQty && e.filled == r.totCcldQty && (e.anyFill <==> r.totCcldQty > 0.0)
    ensures var e, r := Fold(rows).entries[k], rows[j];
            && (r.totCcldQty > 0.0 && r.totCcldAmt > 0.0 ==> e.price * r.totCcldQty == r.totCcldAmt)
            && (!(r.totCcldQty > 0.0 && r.totCcldAmt > 0.0) && r.avgPrvs > 0.0 ==> e.price == r.avgPrvs)
            && (!(r.totCcldQty > 0.0 && r.totCcldAmt > 0.0) && r.avgPrvs <= 0.0 ==> e.price == r.ordUnpr)
  {
    j := FoldKeepsPeak(rows, k);
  }

  ghost predicate SameRows(a: seq<Row>, b: seq<Row>)
  {
    forall r :: r in a <==> r in b
  }

  /** Reordering or repeating rows changes neither which orders are listed nor their quantities. */
  lemma FoldIgnoresOrder(a: seq<Row>, b: seq<Row>, k: Key)
    requires SameRows(a, b)
    ensures k in Fold(a).entries <==> k in Fold(b).entries
    ensures k in Fold(a).entries ==> Fold(a).entries[k].filled == Fold(b).entries[k].filled
  {
    if k in Fold(a).entries { FoldBelow(a, b, k); }
    if k in Fold(b).entries { FoldBelow(b, a, k); }
  }

  lemma FoldBelow(a: seq<Row>, b: seq<Row>, k: Key)
    requires SameRows(a, b) && k in Fold(a).entries
    ensures k in Fold(b).entries && Fold(a).entries[k].filled <= Fold(b).entries[k].filled
  {
    var j := FoldKeepsPeak(a, k);
    assert a[j] in b;
    var i :| 0 <= i < |b| && b[i] == a[j];
    if k !in Fold(b).entries { NoEntryNoRow(b, k); }
    var m := FoldKeepsPeak(b, k);
  }

  // ---------------------------------------------------------------- applying

  datatype Observation = Observation(key: Key, quantity: real)

  /** The poller skips rows without an order number or without any fill. */
  predicate Relevant(o: Observation) { o.key.0 != "" && o.quantity > 0.0 }

  /** `recorded := max(recorded, observed)` on tracked orders. */
  function Apply(recorded: map<Key, real>, o: Observation): map<Key, real>
  {
    if Relevant(o) && o.key in recorded && recorded[o.key] < o.quantity then recorded[o.key := o.quantity]
    else recorded
  }

  function ApplyAll(recorded: map<Key, real>, seen: seq<Observation>): map<Key, real>
  {
    if seen == [] then recorded
    else Apply(ApplyAll(recorded, seen[..|seen| - 1]), seen[|seen| - 1])
  }

  ghost predicate Concerns(o: Observation, k: Key) { o.key.0 != "" && o.quantity > 0.0 && o.key == k }

  /** `v` is the largest of the recorded quantity and everything observed of `k`. */
  ghost predicate IsLargest(was: real, seen: seq<Observation>, k: Key, v: real)
  {
    && was <= v && (forall i :: 0 <= i < |seen| && Concerns(seen[i], k) ==> seen[i].quantity <= v)
    && (v == was || exists i :: 0 <= i < |seen| && Concerns(seen[i], k) && seen[i].quantity == v)
  }

  lemma {:induction false} AppliedIsLargest(recorded: map<Key, real>, seen: seq<Observation>, k: Key)
    requires k in recorded
    ensures ApplyAll(recorded, seen).Keys == recorded.Keys
    ensures IsLargest(recorded[k], seen, k, ApplyAll(recorded, seen)[k])
  {
    if seen != [] {
      var init := seen[..|seen| - 1];
      AppliedIsLargest(recorded, init, k);
      var was, v := ApplyAll(recorded, init)[k], ApplyAll(recorded, seen)[k];
      if v == was && was != recorded[k] {
        var i :| 0 <= i < |init| && Concerns(init[i], k) && init[i].quantity == was;
        assert seen[i] == init[i];
      }
      forall i | 0 <= i < |seen| && Concerns(seen[i], k) ensures seen[i].quantity <= v {
        if i < |init| { assert seen[i] == init[i]; }
      }
    }
  }

  lemma {:induction false} ApplyKeepsOrders(recorded: map<Key, real>, seen: seq<Observation>)
    ensures ApplyAll(recorded, seen).Keys == recorded.Keys
  {
    if seen != [] { ApplyKeepsOrders(recorded, seen[..|seen| - 1]); }
  }

  /** `day` is how the poller reads a row's date. */
  ghost function OfRows(rows: seq<Row>, day: string -> string): seq<Observation>
  {
    seq(|rows|, i requires 0 <= i < |rows| => Observation((rows[i].odno, day(rows[i].ordDt)), rows[i].totCcldQty))
  }

  ghost function OfEntries(list: seq<Entry>, day: string -> string): seq<Observation>
  {
    seq(|list|, i requires 0 <= i < |list| => Observation((list[i].orderId, day(list[i].timestamp)), list[i].filled))
  }

  lemma EntryComesFromRow(rows: seq<Row>, i: nat) returns (j: nat)
    requires i < |FoldedList(rows)|
    ensures j < |rows| && FoldedList(rows)[i] == EntryOf(rows[j])
  {
    FoldProper(rows);
    var d := Fold(rows);
    assert d.keys[i] in d.keys;
    j := FoldKeepsPeak(rows, d.keys[i]);
  }

  lemma RowIsCovered(rows: seq<Row>, j: nat) returns (i: nat)
    requires j < |rows| && rows[j].odno != ""
    ensures i < |FoldedList(rows)|
    ensures FoldedList(rows)[i].orderId == rows[j].odno && FoldedList(rows)[i].timestamp == rows[j].ordDt
    ensures rows[j].totCcldQty <= FoldedList(rows)[i].filled
  {
    FoldProper(rows);
    var d, k := Fold(rows), KeyOf(rows[j]);
    if k !in d.entries { NoEntryNoRow(rows, k); }
    var m := FoldKeepsPeak(rows, k);
    i :| 0 <= i < |d.keys| && d.keys[i] == k;
  }

  lemma SameLargest(recorded: map<Key, real>, rows: seq<Row>, day: string -> string, k: Key, v: real, w: real)
    requires k in recorded
    requires IsLargest(recorded[k], OfEntries(FoldedList(rows), day), k, v)
    requires IsLargest(recorded[k], OfRows(rows, day), k, w)
    ensures v == w
  {
    var entries, raw := OfEntries(FoldedList(rows), day), OfRows(rows, day);
    if v != recorded[k] {
      var i :| 0 <= i < |entries| && Concerns(entries[i], k) && entries[i].quantity == v;
      var j := EntryComesFromRow(rows, i);
      assert raw[j] == entries[i];
    }
    if w != recorded[k] {
      var j :| 0 <= j < |raw| && Concerns(raw[j], k) && raw[j].quantity == w;
      var i := RowIsCovered(rows, j);
      assert entries[i].key == raw[j].key;
    }
  }

  /** Applying the folded list records what applying every raw row would. */
  lemma {:induction false} FoldThenApply(recorded: map<Key, real>, rows: seq<Row>, day: string -> string)
    ensures ApplyAll(recorded, OfEntries(FoldedList(rows), day)) == ApplyAll(recorded, OfRows(rows, day))
  {
    var folded, raw := OfEntries(FoldedList(rows), day), OfRows(rows, day);
    ApplyKeepsOrders(recorded, folded);
    ApplyKeepsOrders(recorded, raw);
    forall k | k in recorded ensures ApplyAll(recorded, folded)[k] == ApplyAll(recorded, raw)[k] {
      AppliedIsLargest(recorded, folded, k);
      AppliedIsLargest(recorded, raw, k);
      SameLargest(recorded, rows, day, k, ApplyAll(recorded, folded)[k], ApplyAll(recorded, raw)[k]);
    }
  }

  /** However a ledger is cut into at most `cap` pages, its rows in whatever order, applying what the
      adapter returns records for each order the largest quantity the ledger ever showed. */
  lemma {:induction false} HistoryEndToEnd(server: Server, pages: seq<seq<Row>>, cursors: seq<(string, string)>,
                                           cap: nat, whole: seq<Row>, recorded: map<Key, real>,
                                           day: string -> string, k: Key)
    requires Serves(server, pages, cursors) && |pages| <= cap && SameRows(Flatten(pages), whole)
    requires k in recorded
    ensures var rows := Walk(server, cap, "", "", "");
            rows.Some? && k in ApplyAll(recorded, OfEntries(FoldedList(rows.value), day))
            && IsLargest(recorded[k], OfRows(whole, day), k,
                         ApplyAll(recorded, OfEntries(FoldedList(rows.value), day))[k])
  {
    PagedFetchIsWhole(server, pages, cursors, cap);
    assert pages[..|pages|] == pages;
    var rows := Flatten(pages);
    FoldThenApply(recorded, rows, day);
    var raw, all := OfRows(rows, day), OfRows(whole, day);
    AppliedIsLargest(recorded, raw, k);
    var v := ApplyAll(recorded, raw)[k];
    if v != recorded[k] {
      var i :| 0 <= i < |raw| && Concerns(raw[i], k) && raw[i].quantity == v;
      assert rows[i] in whole;
      var j :| 0 <= j < |whole| && whole[j] == rows[i];
      assert all[j] == raw[i];
    }
    forall j | 0 <= j < |all| && Concerns(all[j], k) ensures all[j].quantity <= v {
      assert whole[j] in rows;
      var i :| 0 <= i < |rows| && rows[i] == whole[j];
      assert raw[i] == all[j];
    }
  }
}
