/** When generating a document again reproduces it, for any comments written into it: exactly the sections whose
    comments and order survive being read back (scripts/generate_project_structure.py). */
module TreeRegeneration {
  import opened Strings
  import opened TreeDoc
  import opened TreePaths
  import opened TreeRoundTrip
  import opened TreeFixedPoint

  // ---------------------------------------------------------------- documents whose sections do not overlap

  function Titled(src: Source): string { SectionBaseFromTitle(src.title) }

  /** A printable section: a tree, or a plain list of different names. */
  ghost predicate Fit(src: Source)
  {
    && GoodNodes(src.nodes) && Strip(src.title) == src.title
    && MatchLine(src.rootLabel).None? && !IsTitle(src.rootLabel) && src.rootLabel != FENCE
    && if src.recursive then Distinct(src.nodes) else Flat(src.nodes)
  }

  ghost predicate Flat(ns: seq<Node>) { Apart(ns) && forall i :: 0 <= i < |ns| ==> ns[i].children == [] }

  /** The paths under which a section may be read back. */
  ghost predicate Owns(src: Source, path: string)
  {
    if src.recursive then Titled(src) == "" || Titled(src) + "/" <= path
    else exists i :: 0 <= i < |src.nodes| && Path(Titled(src), [src.nodes[i].name]) == path
  }

  ghost predicate Separate(a: Source, b: Source) { forall path :: Owns(a, path) ==> !Owns(b, path) }

  ghost predicate Laid(srcs: seq<Source>)
  {
    && (forall i :: 0 <= i < |srcs| ==> Fit(srcs[i]))
    && forall i, j :: 0 <= i < j < |srcs| ==> Separate(srcs[i], srcs[j])
  }

  /** The entries of a section as printed, and as they are read back. */
  function Displayed(x: Settings, src: Source, c: Comments, order: map<string, nat>): seq<Entry>
  {
    EntriesOfAll(Prepare(x, order, src).nodes, src.base, [], c)
  }

  function ReadBack(x: Settings, src: Source, c: Comments, order: map<string, nat>): seq<Listed>
  {
    List(Titled(src), Displayed(x, src, c, order))
  }

  function WholeListing(x: Settings, srcs: seq<Source>, c: Comments, order: map<string, nat>): seq<Listed>
  {
    Listing(PrepareAll(x, order, srcs), c)
  }

  lemma ListingSplits(x: Settings, srcs: seq<Source>, c: Comments, order: map<string, nat>)
    requires srcs != []
    ensures WholeListing(x, srcs, c, order)
         == ReadBack(x, srcs[0], c, order) + WholeListing(x, srcs[1..], c, order)
  {
    assert PrepareAll(x, order, srcs)[1..] == PrepareAll(x, order, srcs[1..]);
  }

  lemma {:induction false} FlatEntries(ns: seq<Node>, base: string, c: Comments)
    requires forall i :: 0 <= i < |ns| ==> ns[i].children == []
    ensures |EntriesOfAll(ns, base, [], c)| == |ns|
    ensures forall i :: 0 <= i < |ns| ==> EntriesOfAll(ns, base, [], c)[i].rel == [ns[i].name]
  {
    if ns != [] {
      FlatEntries(ns[1..], base, c);
      assert EntriesOfAll([], base, [ns[0].name], c) == [];
      assert [] + [ns[0].name] == [ns[0].name];
      assert |Entries(ns[0], base, [], c)| == 1;
    }
  }

  lemma SinglePath(base: string, name: string)
    requires name != ""
    ensures Path(base, [name]) == if base == "" then name else base + "/" + name
  {
    assert [base] + [name] == [base, name];
    assert Join([base, name][1..]) == Join([name]) == name;
  }

  lemma SinglePathInjective(base: string, a: string, b: string)
    requires a != "" && b != "" && Path(base, [a]) == Path(base, [b])
    ensures a == b
  {
    SinglePath(base, a);
    SinglePath(base, b);
    if base != "" {
      assert (base + "/" + a)[|base| + 1..] == a && (base + "/" + b)[|base| + 1..] == b;
    }
  }

  /** A printed section is fit to be read; it is read back under paths of its own, each once. */
  lemma SectionOwned(x: Settings, src: Source, c: Comments, order: map<string, nat>)
    requires Fit(src)
    ensures GoodSection(Prepare(x, order, src)) && NoRepeat(ReadBack(x, src, c, order))
    ensures forall k :: 0 <= k < |ReadBack(x, src, c, order)| ==> Owns(src, ReadBack(x, src, c, order)[k].path)
  {
    if src.recursive { TreeOwned(x, src, c, order); } else { FlatOwned(x, src, c, order); }
  }

  lemma TreeOwned(x: Settings, src: Source, c: Comments, order: map<string, nat>)
    requires Fit(src) && src.recursive
    ensures GoodSection(Prepare(x, order, src)) && NoRepeat(ReadBack(x, src, c, order))
    ensures forall k :: 0 <= k < |ReadBack(x, src, c, order)| ==> Owns(src, ReadBack(x, src, c, order)[k].path)
  {
    var nodes := Prepare(x, order, src).nodes;
    var entries := Displayed(x, src, c, order);
    ArrangedKeep(x, Place(src.base, [], order), src.nodes);
    TreePathsDistinct(nodes, src.base, Titled(src), c);
    EntriesOfAllDistinct(nodes, src.base, [], c);
    forall k | 0 <= k < |entries| ensures Owns(src, Path(Titled(src), entries[k].rel)) {
      PathUnder(Titled(src), entries[k].rel);
      var rest := Join(entries[k].rel);
      assert Titled(src) + "/" <= Titled(src) + "/" + rest;
    }
  }

  lemma FlatOwned(x: Settings, src: Source, c: Comments, order: map<string, nat>)
    requires Fit(src) && !src.recursive
    ensures GoodSection(Prepare(x, order, src)) && NoRepeat(ReadBack(x, src, c, order))
    ensures forall k :: 0 <= k < |ReadBack(x, src, c, order)| ==> Owns(src, ReadBack(x, src, c, order)[k].path)
  {
    FlatEntries(src.nodes, src.base, c);
    var read := ReadBack(x, src, c, order);
    forall i, j | 0 <= i < j < |read| ensures read[i].path != read[j].path {
      assert GoodNode(src.nodes[i]) && GoodNode(src.nodes[j]);
      if read[i].path == read[j].path { SinglePathInjective(Titled(src), src.nodes[i].name, src.nodes[j].name); }
    }
  }

  ghost predicate SomeOwns(srcs: seq<Source>, path: string) { exists i :: 0 <= i < |srcs| && Owns(srcs[i], path) }

  ghost predicate AllOwned(srcs: seq<Source>, listed: seq<Listed>)
  {
    forall k :: 0 <= k < |listed| ==> SomeOwns(srcs, listed[k].path)
  }

  lemma OwnedMore(srcs: seq<Source>, path: string)
    requires srcs != []
    ensures SomeOwns(srcs, path) <==> Owns(srcs[0], path) || SomeOwns(srcs[1..], path)
  {
    if SomeOwns(srcs[1..], path) {
      var i :| 0 <= i < |srcs[1..]| && Owns(srcs[1..][i], path);
      assert Owns(srcs[i + 1], path);
    }
    if SomeOwns(srcs, path) {
      var i :| 0 <= i < |srcs| && Owns(srcs[i], path);
      if i > 0 { assert Owns(srcs[1..][i - 1], path); }
    }
  }

  lemma LaidTail(srcs: seq<Source>)
    requires Laid(srcs) && srcs != []
    ensures Laid(srcs[1..])
    ensures forall path :: Owns(srcs[0], path) ==> !SomeOwns(srcs[1..], path)
  {
    assert forall i :: 0 <= i < |srcs[1..]| ==> Separate(srcs[0], srcs[1..][i]);
  }

  /** Whatever its comments and its order, a document of separate sections lists no path twice. */
  lemma {:induction false} LaidIsReadable(x: Settings, srcs: seq<Source>, c: Comments, order: map<string, nat>)
    requires Laid(srcs)
    ensures |PrepareAll(x, order, srcs)| == |srcs|
    ensures forall i :: 0 <= i < |srcs| ==> GoodSection(PrepareAll(x, order, srcs)[i])
    ensures NoRepeat(WholeListing(x, srcs, c, order)) && AllOwned(srcs, WholeListing(x, srcs, c, order))
  {
    if srcs != [] {
      LaidTail(srcs);
      LaidIsReadable(x, srcs[1..], c, order);
      SectionOwned(x, srcs[0], c, order);
      ListingSplits(x, srcs, c, order);
      var first, rest := ReadBack(x, srcs[0], c, order), WholeListing(x, srcs[1..], c, order);
      var all: seq<Listed> := first + rest;
      forall k | 0 <= k < |all| ensures SomeOwns(srcs, all[k].path) {
        OwnedMore(srcs, all[k].path);
      }
      forall i, j | 0 <= i < |first| && 0 <= j < |rest| ensures first[i].path != rest[j].path {
        assert SomeOwns(srcs[1..], rest[j].path);
      }
    }
  }

  // ---------------------------------------------------------------- the size of a section

  function Size(n: Node): nat { 1 + if n.isDir then SizeOfAll(n.children) else 0 }

  function SizeOfAll(ns: seq<Node>): nat { if ns == [] then 0 else Size(ns[0]) + SizeOfAll(ns[1..]) }

  lemma {:induction false} EntriesSize(n: Node, base: string, above: seq<string>, c: Comments)
    ensures |Entries(n, base, above, c)| == Size(n)
    decreases n, 1
  {
    if n.isDir { EntriesOfAllSize(n.children, base, above + [n.name], c); }
  }

  lemma {:induction false} EntriesOfAllSize(ns: seq<Node>, base: string, above: seq<string>, c: Comments)
    ensures |EntriesOfAll(ns, base, above, c)| == SizeOfAll(ns)
    decreases ns, 0
  {
    if ns != [] {
      EntriesSize(ns[0], base, above, c);
      EntriesOfAllSize(ns[1..], base, above, c);
    }
  }

  lemma {:induction false} InsertSize(x: Settings, p: Place, n: Node, sorted: seq<Node>)
    ensures SizeOfAll(Insert(x, p, n, sorted)) == Size(n) + SizeOfAll(sorted)
  {
    if !(sorted == [] || KeyLess(KeyOf(x, p, n), KeyOf(x, p, sorted[0]))) {
      InsertSize(x, p, n, sorted[1..]);
    }
  }

  lemma {:induction false} SizeOfAllSnoc(ns: seq<Node>, n: Node)
    ensures SizeOfAll(ns + [n]) == SizeOfAll(ns) + Size(n)
  {
    if ns != [] {
      assert (ns + [n])[1..] == ns[1..] + [n];
      SizeOfAllSnoc(ns[1..], n);
    } else {
      assert SizeOfAll([n][1..]) == 0;
    }
  }

  lemma {:induction false} SortSize(x: Settings, p: Place, ns: seq<Node>)
    ensures SizeOfAll(SortChildren(x, p, ns)) == SizeOfAll(ns)
  {
    if ns != [] {
      var init, n := ns[..|ns| - 1], ns[|ns| - 1];
      SortSize(x, p, init);
      InsertSize(x, p, n, SortChildren(x, p, init));
      SizeOfAllSnoc(init, n);
      assert ns == init + [n];
    }
  }

  lemma {:induction false} ArrangedSize(x: Settings, p: Place, ns: seq<Node>)
    ensures SizeOfAll(Arranged(x, p, ns)) == SizeOfAll(ns)
    decreases ns, 1
  {
    SortSize(x, p, ArrangeEach(x, p, ns));
    EachSize(x, p, ns);
  }

  lemma {:induction false} EachSize(x: Settings, p: Place, ns: seq<Node>)
    ensures SizeOfAll(ArrangeEach(x, p, ns)) == SizeOfAll(ns)
    decreases ns, 0
  {
    if ns != [] {
      if ns[0].isDir { ArrangedSize(x, p.(above := p.above + [ns[0].name]), ns[0].children); }
      EachSize(x, p, ns[1..]);
    }
  }

  /** Neither comments nor order change how many lines a section has. */
  lemma ReadBackSize(x: Settings, src: Source, c: Comments, order: map<string, nat>)
    ensures |ReadBack(x, src, c, order)| == SizeOfAll(src.nodes)
  {
    if src.recursive { ArrangedSize(x, Place(src.base, [], order), src.nodes); }
    EntriesOfAllSize(Prepare(x, order, src).nodes, src.base, [], c);
  }

  // ---------------------------------------------------------------- the exact condition

  function Document(x: Settings, preamble: seq<string>, srcs: seq<Source>, c: Comments, order: map<string, nat>)
    : seq<string>
  {
    preamble + FormatSections(PrepareAll(x, order, srcs), c)
  }

  /** A section comes out as it was: the recorded order arranges it the same way, and each of its paths is given
      the comment it carried. */
  ghost predicate Kept(x: Settings, src: Source, c: Comments, order: map<string, nat>, ix: Index)
  {
    && Prepare(x, ix.order, src) == Prepare(x, order, src)
    && forall k :: 0 <= k < |Displayed(x, src, c, order)| ==>
         Recalls(x, src.base, Displayed(x, src, c, order)[k], ix.comments)
  }

  predicate Recalls(x: Settings, base: string, e: Entry, comments: map<string, string>)
  {
    CommentFor(x, comments)(Path(base, e.rel)) == e.comment
  }

  lemma KeptIsReprinted(x: Settings, src: Source, c: Comments, order: map<string, nat>, ix: Index)
    requires Kept(x, src, c, order, ix)
    ensures FormatSection(Prepare(x, ix.order, src), CommentFor(x, ix.comments))
            == FormatSection(Prepare(x, order, src), c)
  {
    var nodes, entries := Prepare(x, order, src).nodes, Displayed(x, src, c, order);
    EntryCommentsAll(nodes, src.base, [], c);
    forall k | 0 <= k < |entries|
      ensures var path := Path(src.base, entries[k].rel); c(path) == CommentFor(x, ix.comments)(path)
    {
      assert Recalls(x, src.base, entries[k], ix.comments);
    }
    SameCommentsAll(nodes, src.base, [], "", c, CommentFor(x, ix.comments));
  }

  lemma {:induction false} KeptAreReprinted(x: Settings, srcs: seq<Source>, c: Comments, order: map<string, nat>,
                                            ix: Index)
    requires forall i :: 0 <= i < |srcs| ==> Kept(x, srcs[i], c, order, ix)
    ensures FormatSections(PrepareAll(x, ix.order, srcs), CommentFor(x, ix.comments))
            == FormatSections(PrepareAll(x, order, srcs), c)
  {
    if srcs != [] {
      KeptIsReprinted(x, srcs[0], c, order, ix);
      KeptAreReprinted(x, srcs[1..], c, order, ix);
      assert PrepareAll(x, order, srcs)[1..] == PrepareAll(x, order, srcs[1..]);
      assert PrepareAll(x, ix.order, srcs)[1..] == PrepareAll(x, ix.order, srcs[1..]);
    }
  }

  /** Equal paths in equal places come from equal arrangements: either is what the ranks of the other give. */
  lemma SameRelsSameTree(x: Settings, src: Source, c: Comments, d: Comments, first: map<string, nat>,
                         second: map<string, nat>)
    requires Fit(src) && src.recursive
    requires |Displayed(x, src, c, first)| == |Displayed(x, src, d, second)|
    requires forall k :: 0 <= k < |Displayed(x, src, c, first)| ==>
               Displayed(x, src, c, first)[k].rel == Displayed(x, src, d, second)[k].rel
    ensures Prepare(x, first, src) == Prepare(x, second, src)
  {
    var mine, other := List(src.base, Displayed(x, src, c, first)), List(src.base, Displayed(x, src, d, second));
    ArrangedKeep(x, Place(src.base, [], first), src.nodes);
    TreePathsDistinct(Prepare(x, first, src).nodes, src.base, src.base, c);
    var ranks := RankThem(mine);
    assert Consecutive(ranks, other, 0) by {
      assert forall k :: 0 <= k < |mine| ==> mine[k].path == other[k].path;
    }
    ArrangedAgain(x, Place(src.base, [], first), src.nodes, c, ranks, 0);
    ArrangedAgain(x, Place(src.base, [], second), src.nodes, d, ranks, 0);
  }

  lemma {:induction false} RankThem(listed: seq<Listed>) returns (order: map<string, nat>)
    requires NoRepeat(listed)
    ensures Consecutive(order, listed, 0)
  {
    if listed == [] {
      order := map[];
    } else {
      var init, last := listed[..|listed| - 1], listed[|listed| - 1];
      order := RankThem(init);
      order := order[last.path := |init|];
      assert forall k :: 0 <= k < |init| ==> init[k].path != last.path;
    }
  }

  lemma SameListSameRels(x: Settings, src: Source, c: Comments, d: Comments, first: map<string, nat>,
                         second: map<string, nat>)
    requires Fit(src) && ReadBack(x, src, c, first) == ReadBack(x, src, d, second)
    ensures |Displayed(x, src, c, first)| == |Displayed(x, src, d, second)|
    ensures forall k :: 0 <= k < |Displayed(x, src, c, first)| ==>
              Displayed(x, src, c, first)[k] == Displayed(x, src, d, second)[k]
  {
    var a, b := Displayed(x, src, c, first), Displayed(x, src, d, second);
    assert |a| == |ReadBack(x, src, c, first)| == |b|;
    if src.recursive {
      ArrangedKeep(x, Place(src.base, [], first), src.nodes);
      ArrangedKeep(x, Place(src.base, [], second), src.nodes);
      EntriesOfAllDistinct(Prepare(x, first, src).nodes, src.base, [], c);
      EntriesOfAllDistinct(Prepare(x, second, src).nodes, src.base, [], d);
    } else {
      FlatEntries(src.nodes, src.base, c);
      FlatEntries(src.nodes, src.base, d);
    }
    forall k | 0 <= k < |a| ensures a[k] == b[k] {
      assert ReadBack(x, src, c, first)[k] == Listed(Path(Titled(src), a[k].rel), a[k].comment);
      assert ReadBack(x, src, d, second)[k] == Listed(Path(Titled(src), b[k].rel), b[k].comment);
      if src.recursive { PathInjective(Titled(src), a[k].rel, b[k].rel); }
    }
  }

  lemma SameListIsKept(x: Settings, src: Source, c: Comments, order: map<string, nat>, ix: Index)
    requires Fit(src)
    requires ReadBack(x, src, c, order) == ReadBack(x, src, CommentFor(x, ix.comments), ix.order)
    ensures Kept(x, src, c, order, ix)
  {
    var d := CommentFor(x, ix.comments);
    var a, b := Displayed(x, src, c, order), Displayed(x, src, d, ix.order);
    SameListSameRels(x, src, c, d, order, ix.order);
    if src.recursive { SameRelsSameTree(x, src, c, d, order, ix.order); }
    EntryCommentsAll(Prepare(x, ix.order, src).nodes, src.base, [], d);
    forall k | 0 <= k < |a| ensures Recalls(x, src.base, a[k], ix.comments) {
      assert a[k] == b[k] && b[k].comment == d(Path(src.base, b[k].rel));
    }
  }

  lemma {:induction false} SameListingIsKept(x: Settings, srcs: seq<Source>, c: Comments, order: map<string, nat>,
                                             ix: Index)
    requires Laid(srcs)
    requires WholeListing(x, srcs, c, order) == WholeListing(x, srcs, CommentFor(x, ix.comments), ix.order)
    ensures forall i :: 0 <= i < |srcs| ==> Kept(x, srcs[i], c, order, ix)
  {
    if srcs != [] {
      var d := CommentFor(x, ix.comments);
      ListingSplits(x, srcs, c, order);
      ListingSplits(x, srcs, d, ix.order);
      ReadBackSize(x, srcs[0], c, order);
      ReadBackSize(x, srcs[0], d, ix.order);
      EqualParts(ReadBack(x, srcs[0], c, order), WholeListing(x, srcs[1..], c, order),
                 ReadBack(x, srcs[0], d, ix.order), WholeListing(x, srcs[1..], d, ix.order));
      SameListIsKept(x, srcs[0], c, order, ix);
      LaidTail(srcs);
      SameListingIsKept(x, srcs[1..], c, order, ix);
      assert forall i :: 1 <= i < |srcs| ==> srcs[i] == srcs[1..][i - 1];
    }
  }

  lemma EqualParts<T>(a: seq<T>, b: seq<T>, c: seq<T>, d: seq<T>)
    requires |a| == |c| && a + b == c + d
    ensures a == c && b == d
  {
    assert a == (a + b)[..|a|] && c == (c + d)[..|c|];
    assert b == (a + b)[|a|..] && d == (c + d)[|c|..];
  }

  /** What was read back determines what was printed. */
  lemma IndexDetermines(ix: Index, a: seq<Listed>, b: seq<Listed>)
    requires Indexes(ix, a) && Indexes(ix, b)
    ensures a == b
  {
    forall k | 0 <= k < |a| ensures a[k] == b[k] {
      assert IsListed(b, a[k].path);
      var j :| 0 <= j < |b| && b[j].path == a[k].path;
      assert ix.order[b[j].path] == j;
    }
  }

  ghost predicate TrimmedDescriptions(x: Settings)
  {
    forall path :: path in x.descriptions ==> Trimmed(x.descriptions[path])
  }

  lemma RecordedTrimmed(x: Settings, comments: map<string, string>, listed: seq<Listed>)
    requires TrimmedDescriptions(x) && Describes(comments, listed)
    requires forall k :: 0 <= k < |listed| ==> Trimmed(listed[k].comment)
    ensures TrimmedComments(CommentFor(x, comments))
  {
    forall path ensures Trimmed(CommentFor(x, comments)(path)) {
      if path in comments {
        var k :| 0 <= k < |listed| && listed[k].path == path;
        assert comments[listed[k].path] == listed[k].comment;
      }
    }
  }

  /** A document with any comments, in any order, is reproduced by reading it and generating again exactly if
      each of its sections is kept by what was read. */
  lemma RegeneratesIff(x: Settings, preamble: seq<string>, srcs: seq<Source>, c: Comments, order: map<string, nat>)
    requires IsPreamble(preamble) && Laid(srcs) && TrimmedComments(c) && TrimmedDescriptions(x)
    ensures var doc := Document(x, preamble, srcs, c, order);
            var ix := Collected(ReadLines(START, doc));
            && Indexes(ix, WholeListing(x, srcs, c, order))
            && (Render(x, preamble, srcs, ix.comments, ix.order) == doc
                <==> forall i :: 0 <= i < |srcs| ==> Kept(x, srcs[i], c, order, ix))
  {
    var doc := Document(x, preamble, srcs, c, order);
    var ix := Collected(ReadLines(START, doc));
    var listed := WholeListing(x, srcs, c, order);
    LaidIsReadable(x, srcs, c, order);
    RoundTrip(preamble, PrepareAll(x, order, srcs), c);
    if forall i :: 0 <= i < |srcs| ==> Kept(x, srcs[i], c, order, ix) {
      KeptAreReprinted(x, srcs, c, order, ix);
    }
    if Render(x, preamble, srcs, ix.comments, ix.order) == doc {
      var d := CommentFor(x, ix.comments);
      ListingTrimmed(PrepareAll(x, order, srcs), c);
      RecordedTrimmed(x, ix.comments, listed);
      LaidIsReadable(x, srcs, d, ix.order);
      RoundTrip(preamble, PrepareAll(x, ix.order, srcs), d);
      IndexDetermines(ix, listed, WholeListing(x, srcs, d, ix.order));
      SameListingIsKept(x, srcs, c, order, ix);
    }
  }

  // ---------------------------------------------------------------- what the condition comes to

  /** The built-in description of a path. */
  function Described(x: Settings, path: string): string
  {
    if path in x.descriptions then x.descriptions[path] else ""
  }

  /** Under a title that names the base, only a line left without a comment can change: it gets the built-in
      description of its path. */
  ghost predicate NoneMissing(x: Settings, src: Source, c: Comments, order: map<string, nat>)
  {
    forall k :: 0 <= k < |Displayed(x, src, c, order)| ==> Filled(x, src.base, Displayed(x, src, c, order)[k])
  }

  predicate Filled(x: Settings, base: string, e: Entry)
  {
    e.comment == "" ==> Described(x, Path(base, e.rel)) == ""
  }

  lemma MatchedKeptIff(x: Settings, src: Source, c: Comments, order: map<string, nat>, ix: Index, from: int)
    requires TitleMatches(src) && Agrees(ix, ReadBack(x, src, c, order), from)
    ensures Kept(x, src, c, order, ix) <==> NoneMissing(x, src, c, order)
  {
    var entries := Displayed(x, src, c, order);
    if src.recursive { ArrangedAgain(x, Place(src.base, [], order), src.nodes, c, ix.order, from); }
    forall k | 0 <= k < |entries|
      ensures Recalls(x, src.base, entries[k], ix.comments) <==> Filled(x, src.base, entries[k])
    {
      assert ReadBack(x, src, c, order)[k] == Listed(Path(src.base, entries[k].rel), entries[k].comment);
    }
  }

  /** None of the section's own paths is listed anywhere in the document: nothing about it is ever found. */
  ghost predicate Lost(x: Settings, src: Source, c: Comments, order: map<string, nat>, listed: seq<Listed>)
  {
    && (forall k :: 0 <= k < |Displayed(x, src, c, order)| ==>
          !IsListed(listed, Path(src.base, Displayed(x, src, c, order)[k].rel)))
  }

  /** A section about which nothing is found keeps only built-in descriptions and the default order. */
  ghost predicate OnlyDefaults(x: Settings, src: Source, c: Comments, order: map<string, nat>)
  {
    && Prepare(x, map[], src) == Prepare(x, order, src)
    && forall k :: 0 <= k < |Displayed(x, src, c, order)| ==> IsDefault(x, src.base, Displayed(x, src, c, order)[k])
  }

  predicate IsDefault(x: Settings, base: string, e: Entry) { e.comment == Described(x, Path(base, e.rel)) }

  lemma SortUnknown(x: Settings, p: Place, q: Place, ns: seq<Node>)
    requires p.base == q.base && p.above == q.above
    requires forall i :: 0 <= i < |ns| ==> Unknown(p, ns[i]) && Unknown(q, ns[i])
    ensures SortChildren(x, p, ns) == SortChildren(x, q, ns)
    ensures forall i :: 0 <= i < |SortChildren(x, p, ns)| ==>
              Unknown(p, SortChildren(x, p, ns)[i]) && Unknown(q, SortChildren(x, p, ns)[i])
  {
    if ns != [] {
      SortUnknown(x, p, q, ns[..|ns| - 1]);
      InsertUnknown(x, p, q, ns[|ns| - 1], SortChildren(x, p, ns[..|ns| - 1]));
    }
  }

  predicate Unknown(p: Place, n: Node) { Path(p.base, p.above + [n.name]) !in p.order }

  /** Among siblings none of which is known, the size of the known order makes no difference. */
  lemma {:induction false} InsertUnknown(x: Settings, p: Place, q: Place, n: Node, sorted: seq<Node>)
    requires p.base == q.base && p.above == q.above && Unknown(p, n) && Unknown(q, n)
    requires forall i :: 0 <= i < |sorted| ==> Unknown(p, sorted[i]) && Unknown(q, sorted[i])
    ensures Insert(x, p, n, sorted) == Insert(x, q, n, sorted)
    ensures forall i :: 0 <= i < |Insert(x, p, n, sorted)| ==>
              Unknown(p, Insert(x, p, n, sorted)[i]) && Unknown(q, Insert(x, p, n, sorted)[i])
  {
    if sorted != [] {
      assert Unknown(p, sorted[0]) && Unknown(q, sorted[0]);
      assert KeyLess(KeyOf(x, p, n), KeyOf(x, p, sorted[0])) == KeyLess(KeyOf(x, q, n), KeyOf(x, q, sorted[0]));
      if !KeyLess(KeyOf(x, p, n), KeyOf(x, p, sorted[0])) { InsertUnknown(x, p, q, n, sorted[1..]); }
    }
  }

  /** No entry of `n`, as arranged at `p`, is in the order. */
  ghost predicate Unseen(x: Settings, p: Place, n: Node, c: Comments, order: map<string, nat>)
  {
    NoneIn(p.base, Entries(Arrange(x, p, n), p.base, p.above, c), order)
  }

  ghost predicate NoneIn(base: string, entries: seq<Entry>, order: map<string, nat>)
  {
    forall k :: 0 <= k < |entries| ==> Path(base, entries[k].rel) !in order
  }

  lemma {:induction false} SiblingUnseen(ns: seq<Node>, base: string, above: seq<string>, c: Comments,
                                         order: map<string, nat>, i: nat)
    requires NoneIn(base, EntriesOfAll(ns, base, above, c), order) && i < |ns|
    ensures NoneIn(base, Entries(ns[i], base, above, c), order)
  {
    var first, rest := Entries(ns[0], base, above, c), EntriesOfAll(ns[1..], base, above, c);
    var all := first + rest;
    assert forall k :: 0 <= k < |first| ==> first[k] == all[k];
    assert forall k :: 0 <= k < |rest| ==> rest[k] == all[|first| + k];
    if i > 0 { SiblingUnseen(ns[1..], base, above, c, order, i - 1); }
  }

  lemma EachIsUnseen(x: Settings, p: Place, ns: seq<Node>, c: Comments, order: map<string, nat>)
    requires NoneIn(p.base, EntriesOfAll(Arranged(x, p, ns), p.base, p.above, c), order)
    ensures forall i :: 0 <= i < |ns| ==> Unseen(x, p, ns[i], c, order)
  {
    var each, sorted := ArrangeEach(x, p, ns), Arranged(x, p, ns);
    ArrangeEachIndex(x, p, ns);
    SortPermutes(x, p, each);
    forall i | 0 <= i < |ns| ensures Unseen(x, p, ns[i], c, order) {
      assert each[i] in multiset(each);
      assert each[i] in multiset(sorted);
      var k :| 0 <= k < |sorted| && sorted[k] == each[i];
      SiblingUnseen(sorted, p.base, p.above, c, order, k);
    }
  }

  /** A tree none of whose paths is known is arranged in the default order. */
  lemma {:induction false} DefaultArrange(x: Settings, p: Place, n: Node, c: Comments, order: map<string, nat>)
    requires Unseen(x, p, n, c, order)
    ensures Arrange(x, p.(order := order), n) == Arrange(x, p.(order := map[]), n)
    ensures Unknown(p.(order := order), n)
    decreases n, 2
  {
    var entries := Entries(Arrange(x, p, n), p.base, p.above, c);
    assert entries[0].rel == p.above + [n.name];
    if n.isDir {
      var below := p.(above := p.above + [n.name]);
      var inside := EntriesOfAll(Arranged(x, below, n.children), p.base, below.above, c);
      assert forall k :: 0 <= k < |inside| ==> inside[k] == entries[k + 1];
      DefaultArranged(x, below, n.children, c, order);
    }
  }

  lemma {:induction false} DefaultArranged(x: Settings, p: Place, ns: seq<Node>, c: Comments, order: map<string, nat>)
    requires NoneIn(p.base, EntriesOfAll(Arranged(x, p, ns), p.base, p.above, c), order)
    ensures Arranged(x, p.(order := order), ns) == Arranged(x, p.(order := map[]), ns)
    decreases ns, 1
  {
    var p', q' := p.(order := order), p.(order := map[]);
    EachIsUnseen(x, p, ns, c, order);
    DefaultEach(x, p, ns, c, order);
    ArrangeEachIndex(x, p', ns);
    SortUnknown(x, p', q', ArrangeEach(x, p', ns));
  }

  lemma {:induction false} DefaultEach(x: Settings, p: Place, ns: seq<Node>, c: Comments, order: map<string, nat>)
    requires forall i :: 0 <= i < |ns| ==> Unseen(x, p, ns[i], c, order)
    ensures ArrangeEach(x, p.(order := order), ns) == ArrangeEach(x, p.(order := map[]), ns)
    ensures forall i :: 0 <= i < |ns| ==> Unknown(p.(order := order), ns[i])
    decreases ns, 0
  {
    if ns != [] {
      assert Unseen(x, p, ns[0], c, order);
      DefaultArrange(x, p, ns[0], c, order);
      assert forall i :: 0 <= i < |ns[1..]| ==> ns[1..][i] == ns[i + 1];
      DefaultEach(x, p, ns[1..], c, order);
    }
  }

  lemma LostKeptIff(x: Settings, src: Source, c: Comments, order: map<string, nat>, ix: Index, listed: seq<Listed>)
    requires Lost(x, src, c, order, listed) && Indexes(ix, listed)
    ensures Kept(x, src, c, order, ix) <==> OnlyDefaults(x, src, c, order)
  {
    var entries := Displayed(x, src, c, order);
    assert NoneIn(src.base, entries, ix.order);
    if src.recursive { DefaultArranged(x, Place(src.base, [], order), src.nodes, c, ix.order); }
    assert Prepare(x, ix.order, src) == Prepare(x, map[], src);
    forall k | 0 <= k < |entries|
      ensures Recalls(x, src.base, entries[k], ix.comments) <==> IsDefault(x, src.base, entries[k])
    {
      assert Path(src.base, entries[k].rel) !in ix.comments;
    }
  }

  ghost predicate Somewhere(ix: Index, listed: seq<Listed>) { exists at :: Agrees(ix, listed, at) }

  lemma {:induction false} SectionsAgree(x: Settings, srcs: seq<Source>, c: Comments, order: map<string, nat>,
                                         ix: Index, from: int)
    requires Agrees(ix, WholeListing(x, srcs, c, order), from)
    ensures forall i :: 0 <= i < |srcs| ==> Somewhere(ix, ReadBack(x, srcs[i], c, order))
  {
    if srcs != [] {
      var mine := ReadBack(x, srcs[0], c, order);
      ListingSplits(x, srcs, c, order);
      AgreesParts(ix, mine, WholeListing(x, srcs[1..], c, order), from);
      SectionsAgree(x, srcs[1..], c, order, ix, from + |mine|);
      assert forall i :: 1 <= i < |srcs| ==> srcs[i] == srcs[1..][i - 1];
    }
  }

  /** What a section must look like to come out as it was: with a title that names its base, no described path
      without a comment; otherwise nothing but the defaults. */
  ghost predicate Survives(x: Settings, src: Source, c: Comments, order: map<string, nat>)
  {
    if TitleMatches(src) then NoneMissing(x, src, c, order) else OnlyDefaults(x, src, c, order)
  }

  /** What it takes for a section to come out as it was, given what was read. */
  ghost predicate Stays(x: Settings, src: Source, c: Comments, order: map<string, nat>, ix: Index)
  {
    if TitleMatches(src) then NoneMissing(x, src, c, order) else Kept(x, src, c, order, ix)
  }

  ghost predicate AllStay(x: Settings, srcs: seq<Source>, c: Comments, order: map<string, nat>, ix: Index)
  {
    forall i :: 0 <= i < |srcs| ==> Stays(x, srcs[i], c, order, ix)
  }

  ghost predicate AllSurvive(x: Settings, srcs: seq<Source>, c: Comments, order: map<string, nat>)
  {
    forall i :: 0 <= i < |srcs| ==> Survives(x, srcs[i], c, order)
  }

  ghost predicate MatchedOrLost(x: Settings, src: Source, c: Comments, order: map<string, nat>, listed: seq<Listed>)
  {
    TitleMatches(src) || Lost(x, src, c, order, listed)
  }

  ghost predicate AllMatchedOrLost(x: Settings, srcs: seq<Source>, c: Comments, order: map<string, nat>)
  {
    forall i :: 0 <= i < |srcs| ==> MatchedOrLost(x, srcs[i], c, order, WholeListing(x, srcs, c, order))
  }

  /** What generating again makes of a document. */
  function Regenerated(x: Settings, preamble: seq<string>, srcs: seq<Source>, doc: seq<string>): seq<string>
  {
    var again := ReadLines(START, doc);
    Render(x, preamble, srcs, again.comments, again.order)
  }

  function IndexOf(doc: seq<string>): Index { Collected(ReadLines(START, doc)) }

  lemma KeptStays(x: Settings, srcs: seq<Source>, c: Comments, order: map<string, nat>, ix: Index, i: nat)
    requires Indexes(ix, WholeListing(x, srcs, c, order)) && i < |srcs|
    ensures Kept(x, srcs[i], c, order, ix) <==> Stays(x, srcs[i], c, order, ix)
  {
    if TitleMatches(srcs[i]) {
      assert Agrees(ix, WholeListing(x, srcs, c, order), 0);
      SectionsAgree(x, srcs, c, order, ix, 0);
      assert Somewhere(ix, ReadBack(x, srcs[i], c, order));
      var at :| Agrees(ix, ReadBack(x, srcs[i], c, order), at);
      MatchedKeptIff(x, srcs[i], c, order, ix, at);
    }
  }

  /** A document is reproduced exactly if no described path lacks its comment under a title that names the base, and
      every other section is kept by what was read. */
  lemma StaysIff(x: Settings, preamble: seq<string>, srcs: seq<Source>, c: Comments, order: map<string, nat>)
    requires IsPreamble(preamble) && Laid(srcs) && TrimmedComments(c) && TrimmedDescriptions(x)
    ensures var doc := Document(x, preamble, srcs, c, order);
            && Indexes(IndexOf(doc), WholeListing(x, srcs, c, order))
            && (Regenerated(x, preamble, srcs, doc) == doc <==> AllStay(x, srcs, c, order, IndexOf(doc)))
  {
    var ix := IndexOf(Document(x, preamble, srcs, c, order));
    RegeneratesIff(x, preamble, srcs, c, order);
    forall i | 0 <= i < |srcs| ensures Kept(x, srcs[i], c, order, ix) <==> Stays(x, srcs[i], c, order, ix) {
      KeptStays(x, srcs, c, order, ix, i);
    }
  }

  lemma SurvivesStays(x: Settings, srcs: seq<Source>, c: Comments, order: map<string, nat>, ix: Index)
    requires AllMatchedOrLost(x, srcs, c, order) && Indexes(ix, WholeListing(x, srcs, c, order))
    ensures AllStay(x, srcs, c, order, ix) <==> AllSurvive(x, srcs, c, order)
  {
    forall i | 0 <= i < |srcs| ensures Stays(x, srcs[i], c, order, ix) <==> Survives(x, srcs[i], c, order) {
      assert MatchedOrLost(x, srcs[i], c, order, WholeListing(x, srcs, c, order));
      if !TitleMatches(srcs[i]) { LostKeptIff(x, srcs[i], c, order, ix, WholeListing(x, srcs, c, order)); }
    }
  }

  /** When the paths of a section with another title are listed nowhere, whether a document is reproduced can be
      told from its own lines. */
  lemma SurvivesIff(x: Settings, preamble: seq<string>, srcs: seq<Source>, c: Comments, order: map<string, nat>)
    requires IsPreamble(preamble) && Laid(srcs) && TrimmedComments(c) && TrimmedDescriptions(x)
    requires AllMatchedOrLost(x, srcs, c, order)
    ensures var doc := Document(x, preamble, srcs, c, order);
            Regenerated(x, preamble, srcs, doc) == doc <==> AllSurvive(x, srcs, c, order)
  {
    StaysIff(x, preamble, srcs, c, order);
    SurvivesStays(x, srcs, c, order, IndexOf(Document(x, preamble, srcs, c, order)));
  }

  /** A document that the generator printed leaves no described path without its description. */
  lemma GeneratedHasNoneMissing(x: Settings, src: Source, comments: map<string, string>, order: map<string, nat>)
    ensures NoneMissing(x, src, CommentFor(x, comments), order)
  {
    EntryCommentsAll(Prepare(x, order, src).nodes, src.base, [], CommentFor(x, comments));
  }

  /** So with titles that name their bases, whatever was generated is generated again. */
  lemma GeneratedIsFixed(x: Settings, preamble: seq<string>, srcs: seq<Source>, comments: map<string, string>,
                         order: map<string, nat>)
    requires IsPreamble(preamble) && Laid(srcs) && TrimmedComments(CommentFor(x, comments)) && TrimmedDescriptions(x)
    requires forall i :: 0 <= i < |srcs| ==> TitleMatches(srcs[i])
    ensures var doc := Render(x, preamble, srcs, comments, order);
            Regenerated(x, preamble, srcs, doc) == doc
  {
    var c := CommentFor(x, comments);
    SurvivesIff(x, preamble, srcs, c, order);
    forall i | 0 <= i < |srcs| ensures Survives(x, srcs[i], c, order) {
      GeneratedHasNoneMissing(x, srcs[i], comments, order);
    }
  }
}
