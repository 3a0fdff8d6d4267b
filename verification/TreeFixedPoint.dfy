/** Ordering siblings by the previous document, and why generating again from a generated document
    reproduces it (scripts/generate_project_structure.py). */
module TreeFixedPoint {
  import opened Strings
  import opened TreeDoc
  import opened TreePaths
  import opened TreeRoundTrip

  /** `str.lower` and the built-in descriptions. */
  datatype Settings = Settings(lower: string -> string, descriptions: map<string, string>)

  datatype SortKey = SortKey(rank: nat, kind: nat, name: string)

  predicate KeyLess(a: SortKey, b: SortKey)
  {
    a.rank < b.rank
    || (a.rank == b.rank && (a.kind < b.kind || (a.kind == b.kind && Less(a.name, b.name))))
  }

  /** Where siblings are sorted: below which directories, by which known order. */
  datatype Place = Place(base: string, above: seq<string>, order: map<string, nat>)

  function Rank(p: Place, n: Node): nat
  {
    var path := Path(p.base, p.above + [n.name]);
    if path in p.order then p.order[path] else |p.order| + 1
  }

  /** The known order first, then directories before files, then names without regard to case. */
  function KeyOf(x: Settings, p: Place, n: Node): SortKey
  {
    SortKey(Rank(p, n), if n.isDir then 0 else 1, x.lower(n.name))
  }

  function Insert(x: Settings, p: Place, n: Node, sorted: seq<Node>): seq<Node>
  {
    if sorted == [] || KeyLess(KeyOf(x, p, n), KeyOf(x, p, sorted[0])) then [n] + sorted
    else [sorted[0]] + Insert(x, p, n, sorted[1..])
  }

  /** A stable sort by key. */
  function SortChildren(x: Settings, p: Place, ns: seq<Node>): seq<Node>
  {
    if ns == [] then [] else Insert(x, p, ns[|ns| - 1], SortChildren(x, p, ns[..|ns| - 1]))
  }

  /** The tree in display order. */
  function Arrange(x: Settings, p: Place, n: Node): Node
    decreases n, 2
  {
    if n.isDir then n.(children := Arranged(x, p.(above := p.above + [n.name]), n.children)) else n
  }

  function Arranged(x: Settings, p: Place, ns: seq<Node>): seq<Node>
    decreases ns, 1
  {
    SortChildren(x, p, ArrangeEach(x, p, ns))
  }

  function ArrangeEach(x: Settings, p: Place, ns: seq<Node>): seq<Node>
    decreases ns, 0
  {
    if ns == [] then [] else [Arrange(x, p, ns[0])] + ArrangeEach(x, p, ns[1..])
  }

  // ---------------------------------------------------------------- sorting

  lemma {:induction false} InsertPermutes(x: Settings, p: Place, n: Node, sorted: seq<Node>)
    ensures multiset(Insert(x, p, n, sorted)) == multiset(sorted) + multiset{n}
  {
    if !(sorted == [] || KeyLess(KeyOf(x, p, n), KeyOf(x, p, sorted[0]))) {
      InsertPermutes(x, p, n, sorted[1..]);
      assert sorted == [sorted[0]] + sorted[1..];
    }
  }

  lemma {:induction false} SortPermutes(x: Settings, p: Place, ns: seq<Node>)
    ensures multiset(SortChildren(x, p, ns)) == multiset(ns)
  {
    if ns != [] {
      SortPermutes(x, p, ns[..|ns| - 1]);
      InsertPermutes(x, p, ns[|ns| - 1], SortChildren(x, p, ns[..|ns| - 1]));
      assert ns == ns[..|ns| - 1] + [ns[|ns| - 1]];
    }
  }

  ghost predicate ByRank(p: Place, ns: seq<Node>)
  {
    forall i, j :: 0 <= i < j < |ns| ==> Rank(p, ns[i]) <= Rank(p, ns[j])
  }

  lemma {:induction false} InsertByRank(x: Settings, p: Place, n: Node, sorted: seq<Node>)
    requires ByRank(p, sorted)
    ensures ByRank(p, Insert(x, p, n, sorted))
    ensures var r := Insert(x, p, n, sorted);
            r != [] && (r[0] == n || (sorted != [] && r[0] == sorted[0]))
  {
    if !(sorted == [] || KeyLess(KeyOf(x, p, n), KeyOf(x, p, sorted[0]))) {
      InsertByRank(x, p, n, sorted[1..]);
      var rest := Insert(x, p, n, sorted[1..]);
      forall j | 0 <= j < |rest| ensures Rank(p, sorted[0]) <= Rank(p, rest[j]) {
        assert Rank(p, rest[0]) <= Rank(p, rest[j]);
      }
    }
  }

  lemma {:induction false} SortByRank(x: Settings, p: Place, ns: seq<Node>)
    ensures ByRank(p, SortChildren(x, p, ns))
  {
    if ns != [] {
      SortByRank(x, p, ns[..|ns| - 1]);
      InsertByRank(x, p, ns[|ns| - 1], SortChildren(x, p, ns[..|ns| - 1]));
    }
  }

  ghost predicate StrictlyByRank(p: Place, ns: seq<Node>)
  {
    forall i, j :: 0 <= i < j < |ns| ==> Rank(p, ns[i]) < Rank(p, ns[j])
  }

  lemma SameFirst(p: Place, a: seq<Node>, b: seq<Node>)
    requires multiset(a) == multiset(b) && ByRank(p, b) && StrictlyByRank(p, a) && a != []
    ensures b != [] && a[0] == b[0]
  {
    assert a[0] in multiset(a);
    var i :| 0 <= i < |b| && b[i] == a[0];
    assert b[0] in multiset(b);
    var j :| 0 <= j < |a| && a[j] == b[0];
    assert i == 0 || Rank(p, b[0]) <= Rank(p, b[i]);
    assert j == 0 || Rank(p, a[0]) < Rank(p, a[j]);
  }

  lemma SameTail(a: seq<Node>, b: seq<Node>)
    requires a != [] && b != [] && a[0] == b[0] && multiset(a) == multiset(b)
    ensures multiset(a[1..]) == multiset(b[1..])
  {
    assert a == [a[0]] + a[1..] && b == [b[0]] + b[1..];
    assert multiset(a[1..]) == multiset(a) - multiset{a[0]};
    assert multiset(b[1..]) == multiset(b) - multiset{b[0]};
  }

  /** Only one arrangement of the same nodes has strictly increasing ranks. */
  lemma {:induction false} RankDetermines(p: Place, a: seq<Node>, b: seq<Node>)
    requires multiset(a) == multiset(b) && ByRank(p, b) && StrictlyByRank(p, a)
    ensures a == b
  {
    if a == [] {
      assert |multiset(b)| == 0;
    } else {
      SameFirst(p, a, b);
      SameTail(a, b);
      RankDetermines(p, a[1..], b[1..]);
      assert a == [a[0]] + a[1..] && b == [b[0]] + b[1..];
    }
  }

  // ---------------------------------------------------------------- ranks from a document

  ghost predicate Consecutive(order: map<string, nat>, listed: seq<Listed>, from: int)
  {
    forall k :: 0 <= k < |listed| ==> listed[k].path in order && order[listed[k].path] == from + k
  }

  lemma ConsecutiveParts(order: map<string, nat>, base: string, a: seq<Entry>, b: seq<Entry>, from: int)
    requires Consecutive(order, List(base, a + b), from)
    ensures Consecutive(order, List(base, a), from) && Consecutive(order, List(base, b), from + |a|)
  {
    assert forall k :: 0 <= k < |a| ==> List(base, a + b)[k] == List(base, a)[k];
    assert forall k :: 0 <= k < |b| ==> List(base, a + b)[|a| + k] == List(base, b)[k];
  }

  lemma HeadRank(order: map<string, nat>, n: Node, base: string, above: seq<string>, c: Comments, from: int)
    requires Consecutive(order, List(base, Entries(n, base, above, c)), from)
    ensures Rank(Place(base, above, order), n) == from
  {
    assert List(base, Entries(n, base, above, c))[0].path == Path(base, above + [n.name]);
  }

  /** Siblings of a printed tree have increasing ranks. */
  lemma {:induction false} SiblingsAscend(order: map<string, nat>, ns: seq<Node>, base: string, above: seq<string>,
                                          c: Comments, from: int)
    requires Consecutive(order, List(base, EntriesOfAll(ns, base, above, c)), from)
    ensures var p := Place(base, above, order);
            && (forall i :: 0 <= i < |ns| ==> from <= Rank(p, ns[i]))
            && StrictlyByRank(p, ns)
  {
    if ns != [] {
      var first := Entries(ns[0], base, above, c);
      ConsecutiveParts(order, base, first, EntriesOfAll(ns[1..], base, above, c), from);
      HeadRank(order, ns[0], base, above, c, from);
      SiblingsAscend(order, ns[1..], base, above, c, from + |first|);
      assert forall i :: 1 <= i < |ns| ==> ns[i] == ns[1..][i - 1];
    }
  }

  lemma {:induction false} SiblingConsecutive(order: map<string, nat>, ns: seq<Node>, base: string, above: seq<string>,
                                              c: Comments, from: int, i: nat) returns (at: int)
    requires Consecutive(order, List(base, EntriesOfAll(ns, base, above, c)), from) && i < |ns|
    ensures Consecutive(order, List(base, Entries(ns[i], base, above, c)), at)
  {
    var first := Entries(ns[0], base, above, c);
    ConsecutiveParts(order, base, first, EntriesOfAll(ns[1..], base, above, c), from);
    if i == 0 {
      at := from;
    } else {
      at := SiblingConsecutive(order, ns[1..], base, above, c, from + |first|, i - 1);
    }
  }

  // ---------------------------------------------------------------- arranging again

  /** `n`, as it was arranged and printed at `p`, is listed consecutively in the new order. */
  ghost predicate Printed(x: Settings, p: Place, n: Node, c: Comments, order: map<string, nat>)
  {
    exists from :: Consecutive(order, List(p.base, Entries(Arrange(x, p, n), p.base, p.above, c)), from)
  }

  lemma {:induction false} ArrangeEachIndex(x: Settings, p: Place, ns: seq<Node>)
    ensures |ArrangeEach(x, p, ns)| == |ns|
    ensures forall i :: 0 <= i < |ns| ==> ArrangeEach(x, p, ns)[i] == Arrange(x, p, ns[i])
  {
    if ns != [] { ArrangeEachIndex(x, p, ns[1..]); }
  }

  lemma EachIsPrinted(x: Settings, p: Place, ns: seq<Node>, c: Comments, order: map<string, nat>, from: int)
    requires Consecutive(order, List(p.base, EntriesOfAll(Arranged(x, p, ns), p.base, p.above, c)), from)
    ensures forall i :: 0 <= i < |ns| ==> Printed(x, p, ns[i], c, order)
  {
    var each, sorted := ArrangeEach(x, p, ns), Arranged(x, p, ns);
    ArrangeEachIndex(x, p, ns);
    SortPermutes(x, p, each);
    forall i | 0 <= i < |ns| ensures Printed(x, p, ns[i], c, order) {
      assert each[i] in multiset(each);
      assert each[i] in multiset(sorted);
      var k :| 0 <= k < |sorted| && sorted[k] == each[i];
      var at := SiblingConsecutive(order, sorted, p.base, p.above, c, from, k);
    }
  }

  /** The order read back from a printed tree arranges the tree as it was printed. */
  lemma {:induction false} ArrangeAgain(x: Settings, p: Place, n: Node, c: Comments, order: map<string, nat>)
    requires Printed(x, p, n, c, order)
    ensures Arrange(x, p.(order := order), n) == Arrange(x, p, n)
    decreases n, 2
  {
    if n.isDir {
      var at :| Consecutive(order, List(p.base, Entries(Arrange(x, p, n), p.base, p.above, c)), at);
      var below := p.(above := p.above + [n.name]);
      var head := [Entry(below.above, c(Path(p.base, below.above)))];
      var inside := EntriesOfAll(Arranged(x, below, n.children), p.base, below.above, c);
      assert Entries(Arrange(x, p, n), p.base, p.above, c) == head + inside;
      ConsecutiveParts(order, p.base, head, inside, at);
      ArrangedAgain(x, below, n.children, c, order, at + 1);
    }
  }

  lemma {:induction false} ArrangedAgain(x: Settings, p: Place, ns: seq<Node>, c: Comments, order: map<string, nat>,
                                         from: int)
    requires Consecutive(order, List(p.base, EntriesOfAll(Arranged(x, p, ns), p.base, p.above, c)), from)
    ensures Arranged(x, p.(order := order), ns) == Arranged(x, p, ns)
    decreases ns, 1
  {
    var p', each := p.(order := order), ArrangeEach(x, p, ns);
    EachIsPrinted(x, p, ns, c, order, from);
    ArrangeEachAgain(x, p, ns, c, order);
    SortPermutes(x, p, each);
    SortPermutes(x, p', each);
    SortByRank(x, p', each);
    SiblingsAscend(order, Arranged(x, p, ns), p.base, p.above, c, from);
    RankDetermines(p', Arranged(x, p, ns), SortChildren(x, p', each));
  }

  lemma {:induction false} ArrangeEachAgain(x: Settings, p: Place, ns: seq<Node>, c: Comments, order: map<string, nat>)
    requires forall i :: 0 <= i < |ns| ==> Printed(x, p, ns[i], c, order)
    ensures ArrangeEach(x, p.(order := order), ns) == ArrangeEach(x, p, ns)
    decreases ns, 0
  {
    if ns != [] {
      assert Printed(x, p, ns[0], c, order);
      ArrangeAgain(x, p, ns[0], c, order);
      assert forall i :: 0 <= i < |ns[1..]| ==> ns[1..][i] == ns[i + 1];
      ArrangeEachAgain(x, p, ns[1..], c, order);
    }
  }

  // ---------------------------------------------------------------- generating a document

  /** A section to be generated; the top section lists its entries in a fixed order. */
  datatype Source = Source(title: string, base: string, rootLabel: string, recursive: bool, nodes: seq<Node>)

  function Prepare(x: Settings, order: map<string, nat>, src: Source): Section
  {
    Section(src.title, src.base, src.rootLabel,
            if src.recursive then Arranged(x, Place(src.base, [], order), src.nodes) else src.nodes)
  }

  function PrepareAll(x: Settings, order: map<string, nat>, srcs: seq<Source>): seq<Section>
  {
    if srcs == [] then [] else [Prepare(x, order, srcs[0])] + PrepareAll(x, order, srcs[1..])
  }

  /** The recorded comment of a path, or else its built-in description. */
  function CommentFor(x: Settings, comments: map<string, string>): Comments
  {
    path =>
      if path in comments && comments[path] != "" then comments[path]
      else if path in x.descriptions then x.descriptions[path] else ""
  }

  function Render(x: Settings, preamble: seq<string>, srcs: seq<Source>, comments: map<string, string>,
                  order: map<string, nat>): seq<string>
  {
    preamble + FormatSections(PrepareAll(x, order, srcs), CommentFor(x, comments))
  }

  /** The title of the section names its base path. */
  predicate TitleMatches(src: Source) { SectionBaseFromTitle(src.title) == src.base }

  lemma {:induction false} SameComments(n: Node, base: string, above: seq<string>, prefix: string, last: bool,
                                        c: Comments, d: Comments)
    requires forall k :: 0 <= k < |Entries(n, base, above, c)| ==>
               var path := Path(base, Entries(n, base, above, c)[k].rel); c(path) == d(path)
    ensures FormatNode(n, base, above, prefix, last, c) == FormatNode(n, base, above, prefix, last, d)
    decreases n, 1
  {
    var rel := above + [n.name];
    var entries := Entries(n, base, above, c);
    assert entries[0].rel == rel;
    if n.isDir {
      var inside := EntriesOfAll(n.children, base, rel, c);
      assert forall k :: 0 <= k < |inside| ==> inside[k] == entries[k + 1];
      SameCommentsAll(n.children, base, rel, prefix + (if last then "    " else "│   "), c, d);
    }
  }

  lemma {:induction false} SameCommentsAll(ns: seq<Node>, base: string, above: seq<string>, prefix: string,
                                           c: Comments, d: Comments)
    requires forall k :: 0 <= k < |EntriesOfAll(ns, base, above, c)| ==>
               var path := Path(base, EntriesOfAll(ns, base, above, c)[k].rel); c(path) == d(path)
    ensures FormatAll(ns, base, above, prefix, c) == FormatAll(ns, base, above, prefix, d)
    decreases ns, 0
  {
    if ns != [] {
      var all := EntriesOfAll(ns, base, above, c);
      var first, rest := Entries(ns[0], base, above, c), EntriesOfAll(ns[1..], base, above, c);
      assert forall k :: 0 <= k < |first| ==> first[k] == all[k];
      assert forall k :: 0 <= k < |rest| ==> rest[k] == all[|first| + k];
      SameComments(ns[0], base, above, prefix, |ns| == 1, c, d);
      SameCommentsAll(ns[1..], base, above, prefix, c, d);
    }
  }

  /** An entry carries the comment of its path. */
  lemma {:induction false} EntryComments(n: Node, base: string, above: seq<string>, c: Comments)
    ensures forall k :: 0 <= k < |Entries(n, base, above, c)| ==>
              Entries(n, base, above, c)[k].comment == c(Path(base, Entries(n, base, above, c)[k].rel))
    decreases n, 1
  {
    if n.isDir { EntryCommentsAll(n.children, base, above + [n.name], c); }
  }

  lemma {:induction false} EntryCommentsAll(ns: seq<Node>, base: string, above: seq<string>, c: Comments)
    ensures forall k :: 0 <= k < |EntriesOfAll(ns, base, above, c)| ==>
              EntriesOfAll(ns, base, above, c)[k].comment == c(Path(base, EntriesOfAll(ns, base, above, c)[k].rel))
    decreases ns, 0
  {
    if ns != [] {
      EntryComments(ns[0], base, above, c);
      EntryCommentsAll(ns[1..], base, above, c);
    }
  }

  /** What was read back, as far as the rest of the document is concerned. */
  ghost predicate Agrees(ix: Index, listed: seq<Listed>, from: int)
  {
    && Consecutive(ix.order, listed, from)
    && forall k :: 0 <= k < |listed| ==>
         if listed[k].comment == "" then listed[k].path !in ix.comments
         else listed[k].path in ix.comments && ix.comments[listed[k].path] == listed[k].comment
  }

  lemma AgreesParts(ix: Index, a: seq<Listed>, b: seq<Listed>, from: int)
    requires Agrees(ix, a + b, from)
    ensures Agrees(ix, a, from) && Agrees(ix, b, from + |a|)
  {
    assert forall k :: 0 <= k < |a| ==> (a + b)[k] == a[k];
    assert forall k :: 0 <= k < |b| ==> (a + b)[|a| + k] == b[k];
  }

  lemma {:induction false} SectionAgain(x: Settings, src: Source, comments: map<string, string>,
                                        order: map<string, nat>, ix: Index, from: int)
    requires TitleMatches(src)
    requires var p := Prepare(x, order, src);
             Agrees(ix, List(src.base, EntriesOfAll(p.nodes, p.base, [], CommentFor(x, comments))), from)
    ensures FormatSection(Prepare(x, ix.order, src), CommentFor(x, ix.comments))
            == FormatSection(Prepare(x, order, src), CommentFor(x, comments))
  {
    var nodes, c, d := Prepare(x, order, src).nodes, CommentFor(x, comments), CommentFor(x, ix.comments);
    var entries := EntriesOfAll(nodes, src.base, [], c);
    if src.recursive { ArrangedAgain(x, Place(src.base, [], order), src.nodes, c, ix.order, from); }
    EntryCommentsAll(nodes, src.base, [], c);
    forall k | 0 <= k < |entries| ensures var path := Path(src.base, entries[k].rel); c(path) == d(path) {
      assert List(src.base, entries)[k] == Listed(Path(src.base, entries[k].rel), entries[k].comment);
    }
    SameCommentsAll(nodes, src.base, [], "", c, d);
  }

  lemma {:induction false} SectionsAgain(x: Settings, srcs: seq<Source>, comments: map<string, string>,
                                         order: map<string, nat>, ix: Index, from: int)
    requires forall i :: 0 <= i < |srcs| ==> TitleMatches(srcs[i])
    requires Agrees(ix, Listing(PrepareAll(x, order, srcs), CommentFor(x, comments)), from)
    ensures FormatSections(PrepareAll(x, ix.order, srcs), CommentFor(x, ix.comments))
            == FormatSections(PrepareAll(x, order, srcs), CommentFor(x, comments))
  {
    if srcs != [] {
      var first := Prepare(x, order, srcs[0]);
      var mine := List(srcs[0].base, EntriesOfAll(first.nodes, first.base, [], CommentFor(x, comments)));
      var rest := Listing(PrepareAll(x, order, srcs[1..]), CommentFor(x, comments));
      assert PrepareAll(x, order, srcs)[1..] == PrepareAll(x, order, srcs[1..]);
      assert PrepareAll(x, ix.order, srcs)[1..] == PrepareAll(x, ix.order, srcs[1..]);
      assert Listing(PrepareAll(x, order, srcs), CommentFor(x, comments)) == mine + rest;
      AgreesParts(ix, mine, rest, from);
      SectionAgain(x, srcs[0], comments, order, ix, from);
      SectionsAgain(x, srcs[1..], comments, order, ix, from + |mine|);
    }
  }

  /** Everything a generated document must satisfy to be read back. */
  ghost predicate Readable(x: Settings, preamble: seq<string>, srcs: seq<Source>, comments: map<string, string>,
                           order: map<string, nat>)
  {
    && IsPreamble(preamble) && TrimmedComments(CommentFor(x, comments))
    && (forall i :: 0 <= i < |PrepareAll(x, order, srcs)| ==> GoodSection(PrepareAll(x, order, srcs)[i]))
    && NoRepeat(Listing(PrepareAll(x, order, srcs), CommentFor(x, comments)))
  }

  /** Reading the generated document and generating again from what was read gives the same document, when
      each title names its section's base path. */
  lemma {:induction false} FixedPoint(x: Settings, preamble: seq<string>, srcs: seq<Source>,
                                      comments: map<string, string>, order: map<string, nat>)
    requires Readable(x, preamble, srcs, comments, order)
    requires forall i :: 0 <= i < |srcs| ==> TitleMatches(srcs[i])
    ensures var doc := Render(x, preamble, srcs, comments, order);
            var again := ReadLines(START, doc);
            Render(x, preamble, srcs, again.comments, again.order) == doc
  {
    var xs := PrepareAll(x, order, srcs);
    RoundTrip(preamble, xs, CommentFor(x, comments));
    var again := ReadLines(START, Render(x, preamble, srcs, comments, order));
    SectionsAgain(x, srcs, comments, order, Collected(again), 0);
  }

  // ---------------------------------------------------------------- any one tree

  ghost predicate Apart(ns: seq<Node>) { forall i, j :: 0 <= i < j < |ns| ==> ns[i].name != ns[j].name }

  lemma {:induction false} InsertApart(x: Settings, p: Place, n: Node, sorted: seq<Node>)
    requires Apart(sorted) && forall i :: 0 <= i < |sorted| ==> sorted[i].name != n.name
    ensures Apart(Insert(x, p, n, sorted))
    ensures forall i :: 0 <= i < |Insert(x, p, n, sorted)| ==>
              Insert(x, p, n, sorted)[i] == n || Insert(x, p, n, sorted)[i] in sorted
  {
    if !(sorted == [] || KeyLess(KeyOf(x, p, n), KeyOf(x, p, sorted[0]))) {
      var rest := Insert(x, p, n, sorted[1..]);
      InsertApart(x, p, n, sorted[1..]);
      forall i | 0 <= i < |rest| ensures rest[i].name != sorted[0].name && (rest[i] == n || rest[i] in sorted) {
        if rest[i] != n {
          var k :| 0 <= k < |sorted[1..]| && sorted[1..][k] == rest[i];
          assert sorted[k + 1] == rest[i];
        }
      }
    }
  }

  lemma {:induction false} SortApart(x: Settings, p: Place, ns: seq<Node>)
    requires Apart(ns)
    ensures Apart(SortChildren(x, p, ns))
    ensures forall i :: 0 <= i < |SortChildren(x, p, ns)| ==> SortChildren(x, p, ns)[i] in ns
  {
    if ns != [] {
      var init, n := ns[..|ns| - 1], ns[|ns| - 1];
      var sorted := SortChildren(x, p, init);
      SortApart(x, p, init);
      forall i | 0 <= i < |sorted| ensures sorted[i].name != n.name && sorted[i] in ns {
        var k :| 0 <= k < |init| && init[k] == sorted[i];
        assert ns[k] == sorted[i];
      }
      InsertApart(x, p, n, sorted);
    }
  }

  /** Arranging a tree keeps its names printable and its siblings apart. */
  lemma {:induction false} ArrangeKeeps(x: Settings, p: Place, n: Node)
    requires GoodNode(n) && IsPart(n.name) && Distinct(n.children)
    ensures var m := Arrange(x, p, n); GoodNode(m) && m.name == n.name && Distinct(m.children)
    decreases n, 2
  {
    if n.isDir { ArrangedKeep(x, p.(above := p.above + [n.name]), n.children); }
  }

  lemma {:induction false} ArrangedKeep(x: Settings, p: Place, ns: seq<Node>)
    requires GoodNodes(ns) && Distinct(ns)
    ensures GoodNodes(Arranged(x, p, ns)) && Distinct(Arranged(x, p, ns))
    decreases ns, 1
  {
    var each := ArrangeEach(x, p, ns);
    ArrangeEachIndex(x, p, ns);
    forall i | 0 <= i < |ns| ensures GoodNode(each[i]) && each[i].name == ns[i].name && Distinct(each[i].children) {
      ArrangeKeeps(x, p, ns[i]);
    }
    SortApart(x, p, each);
    forall i | 0 <= i < |Arranged(x, p, ns)|
      ensures GoodNode(Arranged(x, p, ns)[i]) && IsPart(Arranged(x, p, ns)[i].name)
              && Distinct(Arranged(x, p, ns)[i].children)
    {
      var k :| 0 <= k < |each| && each[k] == Arranged(x, p, ns)[i];
    }
  }

  /** One section of printable names with distinct siblings, fit to be printed. */
  ghost predicate Printable(x: Settings, preamble: seq<string>, src: Source, comments: map<string, string>)
  {
    && IsPreamble(preamble) && TrimmedComments(CommentFor(x, comments))
    && src.recursive && GoodNodes(src.nodes) && Distinct(src.nodes) && Strip(src.title) == src.title
    && MatchLine(src.rootLabel).None? && !IsTitle(src.rootLabel) && src.rootLabel != FENCE
  }

  /** The entries of the section as printed. */
  function EntriesOf(x: Settings, src: Source, comments: map<string, string>, order: map<string, nat>): seq<Entry>
  {
    EntriesOfAll(Prepare(x, order, src).nodes, src.base, [], CommentFor(x, comments))
  }

  lemma OneSection(x: Settings, preamble: seq<string>, src: Source, comments: map<string, string>,
                   order: map<string, nat>)
    requires Printable(x, preamble, src, comments)
    ensures Readable(x, preamble, [src], comments, order)
    ensures Listing(PrepareAll(x, order, [src]), CommentFor(x, comments))
            == List(SectionBaseFromTitle(src.title), EntriesOf(x, src, comments, order))
  {
    var c, xs := CommentFor(x, comments), PrepareAll(x, order, [src]);
    var titled := SectionBaseFromTitle(src.title);
    var mine := List(titled, EntriesOf(x, src, comments, order));
    assert [src][1..] == [] && PrepareAll(x, order, []) == [];
    assert xs == [Prepare(x, order, src)] + PrepareAll(x, order, []);
    assert xs[1..] == [];
    ArrangedKeep(x, Place(src.base, [], order), src.nodes);
    TreePathsDistinct(Prepare(x, order, src).nodes, src.base, titled, c);
    assert Listing([], c) == [] && Listing(xs, c) == mine + Listing([], c) == mine;
  }

  /** Printing a tree and reading it back yields each path's comment and preorder rank if and only if the title
      names the base path. */
  lemma RoundTripIff(x: Settings, preamble: seq<string>, src: Source, comments: map<string, string>,
                     order: map<string, nat>)
    requires Printable(x, preamble, src, comments) && EntriesOf(x, src, comments, order) != []
    ensures var again := ReadLines(START, Render(x, preamble, [src], comments, order));
            Indexes(Collected(again), List(src.base, EntriesOf(x, src, comments, order))) <==> TitleMatches(src)
  {
    var entries, titled := EntriesOf(x, src, comments, order), SectionBaseFromTitle(src.title);
    var again := Collected(ReadLines(START, Render(x, preamble, [src], comments, order)));
    OneSection(x, preamble, src, comments, order);
    RoundTrip(preamble, PrepareAll(x, order, [src]), CommentFor(x, comments));
    if Indexes(again, List(src.base, entries)) {
      ArrangedKeep(x, Place(src.base, [], order), src.nodes);
      EntriesOfAllDistinct(Prepare(x, order, src).nodes, src.base, [], CommentFor(x, comments));
      assert List(src.base, entries)[0].path == Path(src.base, entries[0].rel);
      FirstOfBoth(again, List(src.base, entries), List(titled, entries));
      FoundIffTitleMatches(titled, src.base, entries[0].rel);
    }
  }

  lemma FirstOfBoth(ix: Index, a: seq<Listed>, b: seq<Listed>)
    requires Indexes(ix, a) && Indexes(ix, b) && a != []
    ensures b != [] && a[0].path == b[0].path
  {
    assert a[0].path in ix.order && IsListed(b, a[0].path);
    var k :| 0 <= k < |b| && b[k].path == a[0].path;
    assert ix.order[b[k].path] == k;
  }

  /** Under such a title, generating again from what was read reproduces the document. */
  lemma TreeFixedPoint(x: Settings, preamble: seq<string>, src: Source, comments: map<string, string>,
                       order: map<string, nat>)
    requires Printable(x, preamble, src, comments) && TitleMatches(src)
    ensures var doc := Render(x, preamble, [src], comments, order);
            var again := ReadLines(START, doc);
            Render(x, preamble, [src], again.comments, again.order) == doc
  {
    OneSection(x, preamble, src, comments, order);
    FixedPoint(x, preamble, [src], comments, order);
  }
}
