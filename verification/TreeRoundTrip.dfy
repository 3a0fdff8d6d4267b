/** Reading back a printed document recovers every comment and the order of the entries
    (scripts/generate_project_structure.py). */
module TreeRoundTrip {
  import opened Strings
  import opened TreeDoc

  /** An entry of a tree: its names below the base, and its comment. */
  datatype Entry = Entry(rel: seq<string>, comment: string)

  /** The entries of a tree in preorder. */
  function Entries(n: Node, base: string, above: seq<string>, c: Comments): seq<Entry>
    decreases n, 1
  {
    [Entry(above + [n.name], c(Path(base, above + [n.name])))]
    + if n.isDir then EntriesOfAll(n.children, base, above + [n.name], c) else []
  }

  function EntriesOfAll(ns: seq<Node>, base: string, above: seq<string>, c: Comments): seq<Entry>
    decreases ns, 0
  {
    if ns == [] then [] else Entries(ns[0], base, above, c) + EntriesOfAll(ns[1..], base, above, c)
  }

  /** What reading a document collects. */
  datatype Index = Index(comments: map<string, string>, order: map<string, nat>)

  function Collected(s: Scan): Index { Index(s.comments, s.order) }

  function Collect(base: string, ix: Index, entries: seq<Entry>): Index
    decreases entries
  {
    if entries == [] then ix
    else
      var path := Path(base, entries[0].rel);
      Collect(base, Index(PutComment(ix.comments, path, entries[0].comment), SetDefault(ix.order, path)), entries[1..])
  }

  lemma {:induction false} CollectConcat(base: string, ix: Index, a: seq<Entry>, b: seq<Entry>)
    ensures Collect(base, ix, a + b) == Collect(base, Collect(base, ix, a), b)
    decreases a
  {
    if a == [] {
      assert a + b == b;
    } else {
      assert (a + b)[1..] == a[1..] + b;
      var path := Path(base, a[0].rel);
      CollectConcat(base, Index(PutComment(ix.comments, path, a[0].comment), SetDefault(ix.order, path)), a[1..], b);
    }
  }

  lemma CollectOne(base: string, ix: Index, e: Entry, rest: seq<Entry>)
    ensures Collect(base, ix, [e] + rest)
            == Collect(base, Index(PutComment(ix.comments, Path(base, e.rel), e.comment),
                                   SetDefault(ix.order, Path(base, e.rel))), rest)
  {
    assert ([e] + rest)[1..] == rest;
  }

  ghost predicate GoodNode(n: Node)
  {
    GoodName(n.name) && forall i :: 0 <= i < |n.children| ==> GoodNode(n.children[i])
  }

  ghost predicate GoodNodes(ns: seq<Node>) { forall i :: 0 <= i < |ns| ==> GoodNode(ns[i]) }

  ghost predicate TrimmedComments(c: Comments) { forall path :: Trimmed(c(path)) }

  /** The reader stands inside a fence, below the directories `above`. */
  ghost predicate Inside(s: Scan, above: seq<string>)
  {
    s.fenced && Take(s.stack, |above|) == above
  }

  lemma ReadHead(n: Node, base: string, above: seq<string>, prefix: string, last: bool, c: Comments, s: Scan)
    requires GoodName(n.name) && TrimmedComments(c) && IsPrefix(prefix) && |prefix| == 4 * |above| && Inside(s, above)
    ensures var rel := above + [n.name];
            var comment := c(Path(base, rel));
            ReadLine(s, AppendComment(Head(n, prefix, last), comment))
            == s.(stack := if n.isDir then rel else above,
                  comments := PutComment(s.comments, Path(s.base, rel), comment),
                  order := SetDefault(s.order, Path(s.base, rel)))
  {
    LineReads(n, prefix, last, c(Path(base, above + [n.name])));
    DisplayReads(n);
    assert |prefix| / 4 == |above|;
  }

  lemma ReadFirst(s: Scan, line: string, rest: seq<string>)
    ensures ReadLines(s, [line] + rest) == ReadLines(ReadLine(s, line), rest)
  {
    assert ([line] + rest)[1..] == rest;
  }

  lemma TakeShorter(stack: seq<string>, above: seq<string>, name: string)
    requires Take(stack, |above| + 1) == above + [name]
    ensures Take(stack, |above|) == above
  {
    assert (above + [name])[..|above|] == above;
  }

  /** Reading what was printed of a node collects its entries, under the reader's base. */
  lemma {:induction false} ReadNode(n: Node, base: string, above: seq<string>, prefix: string, last: bool,
                                    c: Comments, s: Scan)
    requires GoodNode(n) && TrimmedComments(c) && IsPrefix(prefix) && |prefix| == 4 * |above| && Inside(s, above)
    ensures var s' := ReadLines(s, FormatNode(n, base, above, prefix, last, c));
            && Inside(s', above) && s'.base == s.base
            && Collected(s') == Collect(s.base, Collected(s), Entries(n, base, above, c))
    decreases n, 1
  {
    var rel := above + [n.name];
    var line := AppendComment(Head(n, prefix, last), c(Path(base, rel)));
    var s1 := ReadLine(s, line);
    ReadHead(n, base, above, prefix, last, c, s);
    var deeper := prefix + if last then "    " else "│   ";
    var below := if n.isDir then FormatAll(n.children, base, rel, deeper, c) else [];
    var inside := if n.isDir then EntriesOfAll(n.children, base, rel, c) else [];
    ReadFirst(s, line, below);
    CollectOne(s.base, Collected(s), Entry(rel, c(Path(base, rel))), inside);
    if n.isDir {
      ReadNodes(n.children, base, rel, deeper, c, s1);
      TakeShorter(ReadLines(s1, below).stack, above, n.name);
    } else {
      assert above[..|above|] == above;
    }
  }

  lemma {:induction false} ReadNodes(ns: seq<Node>, base: string, above: seq<string>, prefix: string,
                                     c: Comments, s: Scan)
    requires GoodNodes(ns) && TrimmedComments(c) && IsPrefix(prefix) && |prefix| == 4 * |above| && Inside(s, above)
    ensures var s' := ReadLines(s, FormatAll(ns, base, above, prefix, c));
            && Inside(s', above) && s'.base == s.base
            && Collected(s') == Collect(s.base, Collected(s), EntriesOfAll(ns, base, above, c))
    decreases ns, 0
  {
    if ns != [] {
      var first := FormatNode(ns[0], base, above, prefix, |ns| == 1, c);
      var rest := FormatAll(ns[1..], base, above, prefix, c);
      ReadNode(ns[0], base, above, prefix, |ns| == 1, c, s);
      ReadConcat(s, first, rest);
      CollectConcat(s.base, Collected(s), Entries(ns[0], base, above, c), EntriesOfAll(ns[1..], base, above, c));
      ReadNodes(ns[1..], base, above, prefix, c, ReadLines(s, first));
    }
  }

  // ---------------------------------------------------------------- whole documents

  /** A section as it is printed: its entries are already in display order. */
  datatype Section = Section(title: string, base: string, rootLabel: string, nodes: seq<Node>)

  function FormatSection(x: Section, c: Comments): seq<string>
  {
    ["## " + x.title, "", FENCE, x.rootLabel] + (FormatAll(x.nodes, x.base, [], "", c) + [FENCE, ""])
  }

  function FormatSections(xs: seq<Section>, c: Comments): seq<string>
  {
    if xs == [] then [] else FormatSection(xs[0], c) + FormatSections(xs[1..], c)
  }

  /** Lines outside a fence that are no titles: the heading of the document and its notes. */
  predicate IsPreamble(lines: seq<string>)
  {
    forall i :: 0 <= i < |lines| ==> !IsTitle(lines[i]) && lines[i] != FENCE
  }

  /** The title names the base, and neither it nor the root label is read as something else. */
  ghost predicate GoodSection(x: Section)
  {
    && GoodNodes(x.nodes) && Strip(x.title) == x.title
    && MatchLine(x.rootLabel).None? && !IsTitle(x.rootLabel) && x.rootLabel != FENCE
  }

  /** A path as the document lists it, with its comment. */
  datatype Listed = Listed(path: string, comment: string)

  function List(base: string, entries: seq<Entry>): seq<Listed>
  {
    seq(|entries|, i requires 0 <= i < |entries| => Listed(Path(base, entries[i].rel), entries[i].comment))
  }

  /** What the reader should find: the entries of each section under the base that its title names. */
  function Listing(xs: seq<Section>, c: Comments): seq<Listed>
  {
    if xs == [] then []
    else List(SectionBaseFromTitle(xs[0].title), EntriesOfAll(xs[0].nodes, xs[0].base, [], c)) + Listing(xs[1..], c)
  }

  function CollectListed(ix: Index, listed: seq<Listed>): Index
    decreases listed
  {
    if listed == [] then ix
    else
      CollectListed(Index(PutComment(ix.comments, listed[0].path, listed[0].comment),
                          SetDefault(ix.order, listed[0].path)), listed[1..])
  }

  lemma {:induction false} CollectIsListed(base: string, ix: Index, entries: seq<Entry>, more: seq<Listed>)
    ensures CollectListed(ix, List(base, entries) + more) == CollectListed(Collect(base, ix, entries), more)
    decreases entries
  {
    if entries == [] {
      assert List(base, entries) + more == more;
    } else {
      var path := Path(base, entries[0].rel);
      assert (List(base, entries) + more)[1..] == List(base, entries[1..]) + more;
      CollectIsListed(base, Index(PutComment(ix.comments, path, entries[0].comment), SetDefault(ix.order, path)),
                      entries[1..], more);
    }
  }

  lemma {:induction false} ReadPreamble(s: Scan, lines: seq<string>)
    requires IsPreamble(lines) && !s.fenced
    ensures ReadLines(s, lines) == s
  {
    if lines != [] { ReadPreamble(s, lines[1..]); }
  }

  lemma {:induction false} ReadSection(x: Section, c: Comments, s: Scan)
    requires GoodSection(x) && TrimmedComments(c) && !s.fenced
    ensures var s' := ReadLines(s, FormatSection(x, c));
            && !s'.fenced
            && Collected(s')
               == Collect(SectionBaseFromTitle(x.title), Collected(s), EntriesOfAll(x.nodes, x.base, [], c))
  {
    var body := FormatAll(x.nodes, x.base, [], "", c);
    var opening := ["## " + x.title, "", FENCE, x.rootLabel];
    ReadConcat(s, opening, body + [FENCE, ""]);
    var s1 := ReadLines(s, opening);
    OpeningReads(x, s);
    ReadConcat(s1, body, [FENCE, ""]);
    ReadNodes(x.nodes, x.base, [], "", c, s1);
    ClosingReads(ReadLines(s1, body));
  }

  lemma OpeningReads(x: Section, s: Scan)
    requires GoodSection(x) && !s.fenced
    ensures ReadLines(s, ["## " + x.title, "", FENCE, x.rootLabel])
            == s.(base := SectionBaseFromTitle(x.title), fenced := true, stack := [])
  {
    var title := "## " + x.title;
    assert title[3..] == x.title;
    var titled := s.(base := SectionBaseFromTitle(x.title));
    assert ReadLine(s, title) == titled && ReadLine(titled, "") == titled;
    var open := titled.(fenced := true, stack := []);
    assert ReadLine(titled, FENCE) == open && ReadLine(open, x.rootLabel) == open;
    ReadFirst(s, title, ["", FENCE, x.rootLabel]);
    ReadFirst(titled, "", [FENCE, x.rootLabel]);
    ReadFirst(titled, FENCE, [x.rootLabel]);
    ReadFirst(open, x.rootLabel, []);
    assert [title] + ["", FENCE, x.rootLabel] == [title, "", FENCE, x.rootLabel];
    assert [""] + [FENCE, x.rootLabel] == ["", FENCE, x.rootLabel];
    assert [FENCE] + [x.rootLabel] == [FENCE, x.rootLabel];
    assert [x.rootLabel] + [] == [x.rootLabel] && ReadLines(open, []) == open;
  }

  lemma ClosingReads(s: Scan)
    requires s.fenced
    ensures ReadLines(s, [FENCE, ""]) == s.(fenced := false, stack := [])
  {
    var closed := s.(fenced := false, stack := []);
    assert FENCE[0] == '`' && "## "[0] == '#';
    assert ReadLine(s, FENCE) == closed && ReadLine(closed, "") == closed;
    ReadFirst(s, FENCE, [""]);
    ReadFirst(closed, "", []);
    assert [FENCE] + [""] == [FENCE, ""] && [""] + [] == [""] && ReadLines(closed, []) == closed;
  }

  lemma {:induction false} ReadSections(xs: seq<Section>, c: Comments, s: Scan)
    requires (forall i :: 0 <= i < |xs| ==> GoodSection(xs[i])) && TrimmedComments(c) && !s.fenced
    ensures Collected(ReadLines(s, FormatSections(xs, c))) == CollectListed(Collected(s), Listing(xs, c))
    decreases xs
  {
    if xs != [] {
      ReadSection(xs[0], c, s);
      var first := FormatSection(xs[0], c);
      ReadConcat(s, first, FormatSections(xs[1..], c));
      ReadSections(xs[1..], c, ReadLines(s, first));
      CollectIsListed(SectionBaseFromTitle(xs[0].title), Collected(s), EntriesOfAll(xs[0].nodes, xs[0].base, [], c),
                      Listing(xs[1..], c));
    }
  }

  ghost predicate NoRepeat(listed: seq<Listed>)
  {
    forall i, j :: 0 <= i < j < |listed| ==> listed[i].path != listed[j].path
  }

  ghost predicate IsListed(listed: seq<Listed>, p: string) { exists k :: 0 <= k < |listed| && listed[k].path == p }

  /** The order numbers the paths consecutively. */
  ghost predicate Ranks(order: map<string, nat>, listed: seq<Listed>)
  {
    && |order| == |listed| && (forall p :: p in order ==> IsListed(listed, p))
    && forall k :: 0 <= k < |listed| ==> listed[k].path in order && order[listed[k].path] == k
  }

  /** The comments are exactly the non-empty ones. */
  ghost predicate Describes(comments: map<string, string>, listed: seq<Listed>)
  {
    && (forall p :: p in comments ==> IsListed(listed, p))
    && forall k :: 0 <= k < |listed| ==>
         if listed[k].comment == "" then listed[k].path !in comments
         else listed[k].path in comments && comments[listed[k].path] == listed[k].comment
  }

  ghost predicate Indexes(ix: Index, listed: seq<Listed>) { Ranks(ix.order, listed) && Describes(ix.comments, listed) }

  lemma ListedMore(listed: seq<Listed>, l: Listed)
    requires NoRepeat(listed + [l])
    ensures !IsListed(listed, l.path) && IsListed(listed + [l], l.path)
    ensures forall p :: IsListed(listed, p) ==> IsListed(listed + [l], p)
  {
    var more := listed + [l];
    assert more[|listed|] == l;
    forall p | IsListed(listed, p) ensures IsListed(more, p) {
      var k :| 0 <= k < |listed| && listed[k].path == p;
      assert more[k].path == p;
    }
    forall k | 0 <= k < |listed| ensures listed[k].path != l.path {
      assert more[k].path != more[|listed|].path;
    }
  }

  lemma RanksOneMore(order: map<string, nat>, listed: seq<Listed>, l: Listed)
    requires Ranks(order, listed) && NoRepeat(listed + [l])
    ensures Ranks(SetDefault(order, l.path), listed + [l])
  {
    ListedMore(listed, l);
  }

  lemma DescribesOneMore(comments: map<string, string>, listed: seq<Listed>, l: Listed)
    requires Describes(comments, listed) && NoRepeat(listed + [l]) && Trimmed(l.comment)
    ensures Describes(PutComment(comments, l.path, l.comment), listed + [l])
  {
    ListedMore(listed, l);
    TrimmedStays(l.comment);
  }

  lemma {:induction false} CollectIndexes(ix: Index, done: seq<Listed>, listed: seq<Listed>)
    requires Indexes(ix, done) && NoRepeat(done + listed)
    requires forall k :: 0 <= k < |listed| ==> Trimmed(listed[k].comment)
    ensures Indexes(CollectListed(ix, listed), done + listed)
    decreases listed
  {
    if listed == [] {
      assert done + listed == done;
    } else {
      var l := listed[0];
      assert done + listed == done + [l] + listed[1..];
      assert NoRepeat(done + [l]) by {
        assert forall k :: 0 <= k < |done + [l]| ==> (done + [l])[k] == (done + listed)[k];
      }
      RanksOneMore(ix.order, done, l);
      DescribesOneMore(ix.comments, done, l);
      CollectIndexes(Index(PutComment(ix.comments, l.path, l.comment), SetDefault(ix.order, l.path)), done + [l],
                     listed[1..]);
    }
  }

  lemma {:induction false} ListingTrimmed(xs: seq<Section>, c: Comments)
    requires TrimmedComments(c)
    ensures forall k :: 0 <= k < |Listing(xs, c)| ==> Trimmed(Listing(xs, c)[k].comment)
  {
    if xs != [] {
      ListingTrimmed(xs[1..], c);
      EntriesOfAllTrimmed(xs[0].nodes, xs[0].base, [], c);
    }
  }

  lemma {:induction false} EntriesTrimmed(n: Node, base: string, above: seq<string>, c: Comments)
    requires TrimmedComments(c)
    ensures forall k :: 0 <= k < |Entries(n, base, above, c)| ==> Trimmed(Entries(n, base, above, c)[k].comment)
    decreases n, 1
  {
    if n.isDir { EntriesOfAllTrimmed(n.children, base, above + [n.name], c); }
  }

  lemma {:induction false} EntriesOfAllTrimmed(ns: seq<Node>, base: string, above: seq<string>, c: Comments)
    requires TrimmedComments(c)
    ensures forall k :: 0 <= k < |EntriesOfAll(ns, base, above, c)| ==>
              Trimmed(EntriesOfAll(ns, base, above, c)[k].comment)
    decreases ns, 0
  {
    if ns != [] {
      EntriesTrimmed(ns[0], base, above, c);
      EntriesOfAllTrimmed(ns[1..], base, above, c);
    }
  }

  /** Reading a printed document: each listed path gets its preorder rank over the whole document and its
      comment, and nothing else is found. */
  lemma {:induction false} RoundTrip(preamble: seq<string>, xs: seq<Section>, c: Comments)
    requires IsPreamble(preamble) && (forall i :: 0 <= i < |xs| ==> GoodSection(xs[i])) && TrimmedComments(c)
    requires NoRepeat(Listing(xs, c))
    ensures Indexes(Collected(ReadLines(START, preamble + FormatSections(xs, c))), Listing(xs, c))
  {
    ReadConcat(START, preamble, FormatSections(xs, c));
    ReadPreamble(START, preamble);
    ReadSections(xs, c, START);
    ListingTrimmed(xs, c);
    assert [] + Listing(xs, c) == Listing(xs, c);
    CollectIndexes(Collected(START), [], Listing(xs, c));
  }
}
