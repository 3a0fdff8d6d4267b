/** The whole document from a list of files: which paths it shows, and when generating it again reproduces it
    (scripts/generate_project_structure.py). */
module TreeDocuments {
  import opened Strings
  import opened TreeDoc
  import opened TreePaths
  import opened TreeRoundTrip
  import opened TreeFixedPoint
  import opened TreeRegeneration

  /** A section of the document: the tree below a base path, or the fixed list of top entries. */
  datatype Layout = Layout(title: string, base: string, recursive: bool)

  // ---------------------------------------------------------------- from files to sections

  predicate HoldsFiles(path: string, files: seq<string>)
  {
    exists k :: 0 <= k < |files| && path + "/" <= files[k]
  }

  predicate PathExists(path: string, files: seq<string>) { path in files || HoldsFiles(path, files) }

  /** The top entries that exist, in their fixed order. */
  function RootNodes(roots: seq<string>, files: seq<string>): seq<Node>
  {
    if roots == [] then []
    else
      (if PathExists(roots[0], files) then [Node(roots[0], HoldsFiles(roots[0], files), [])] else [])
      + RootNodes(roots[1..], files)
  }

  function SourceOf(l: Layout, roots: seq<string>, files: seq<string>): Source
  {
    Source(l.title, l.base, if l.recursive && l.base != "" then l.base + "/" else "ante/", l.recursive,
           if l.recursive then Tree(l.base, files) else RootNodes(roots, files))
  }

  predicate Present(l: Layout, files: seq<string>) { l.base == "" || PathExists(l.base, files) }

  /** A section whose base path does not exist is left out. */
  function Sources(layouts: seq<Layout>, roots: seq<string>, files: seq<string>): seq<Source>
  {
    if layouts == [] then []
    else
      (if Present(layouts[0], files) then [SourceOf(layouts[0], roots, files)] else [])
      + Sources(layouts[1..], roots, files)
  }

  lemma {:induction false} SourcesFrom(layouts: seq<Layout>, roots: seq<string>, files: seq<string>, src: Source)
    ensures src in Sources(layouts, roots, files) <==>
            exists i :: 0 <= i < |layouts| && Present(layouts[i], files) && src == SourceOf(layouts[i], roots, files)
  {
    if layouts != [] {
      SourcesFrom(layouts[1..], roots, files, src);
      assert forall i :: 0 <= i < |layouts[1..]| ==> layouts[1..][i] == layouts[i + 1];
      assert forall i :: 1 <= i < |layouts| ==> layouts[i] == layouts[1..][i - 1];
    }
  }

  // ---------------------------------------------------------------- names come from the files

  ghost predicate GoodNames(rel: seq<string>) { forall i :: 0 <= i < |rel| ==> GoodName(rel[i]) }

  /** Every component of every file can be printed. */
  ghost predicate GoodFiles(files: seq<string>) { forall k :: 0 <= k < |files| ==> GoodNames(Parts(files[k])) }

  lemma {:induction false} PartLengthAppend(a: string, b: string)
    ensures PartLength(a + "/" + b) == PartLength(a)
  {
    var s := a + "/" + b;
    if a != "" && a[0] != '/' {
      assert s[1..] == a[1..] + "/" + b;
      PartLengthAppend(a[1..], b);
    }
  }

  lemma {:induction false} PartsAppend(a: string, b: string)
    ensures Parts(a + "/" + b) == Parts(a) + Parts(b)
    decreases |a|
  {
    var s := a + "/" + b;
    if a == "" {
      assert s[0] == '/' && s[1..] == b;
    } else if a[0] == '/' {
      assert s[1..] == a[1..] + "/" + b;
      PartsAppend(a[1..], b);
    } else {
      var n := PartLength(a);
      PartLengthAppend(a, b);
      assert s[..n] == a[..n] && s[n..] == a[n..] + "/" + b;
      PartsAppend(a[n..], b);
      assert Parts(s) == [s[..n]] + Parts(s[n..]);
    }
  }

  lemma RelativeGood(base: string, file: string)
    requires GoodNames(Parts(file))
    ensures Relative(base, file).Some? ==> GoodNames(Relative(base, file).value)
  {
    if base != "" && base + "/" <= file {
      var rest := file[|base| + 1..];
      assert file == base + "/" + rest;
      PartsAppend(base, rest);
      assert forall i :: 0 <= i < |Parts(rest)| ==> Parts(rest)[i] == Parts(file)[|Parts(base)| + i];
    }
  }

  lemma {:induction false} AddKeepsGood(ns: seq<Node>, parts: seq<string>)
    requires GoodNodes(ns) && GoodNames(parts)
    ensures GoodNodes(AddFile(ns, parts))
    decreases |parts|
  {
    if parts != [] {
      var i := Find(ns, parts[0]);
      AddKeepsGood(if i == |ns| then [] else ns[i].children, parts[1..]);
      if i < |ns| { assert GoodNode(ns[i]); }
    }
  }

  lemma {:induction false} TreeIsGood(base: string, files: seq<string>)
    requires GoodFiles(files)
    ensures GoodNodes(Tree(base, files)) && Distinct(Tree(base, files)) && DirsHold(Tree(base, files))
  {
    if files != [] {
      var init, file := files[..|files| - 1], files[|files| - 1];
      TreeIsGood(base, init);
      RelativeGood(base, file);
      RelativeParts(base, file);
      var rel := Relative(base, file);
      if rel.Some? {
        AddKeepsGood(Tree(base, init), rel.value);
        AddKeepsDistinct(Tree(base, init), rel.value);
      }
    }
  }

  /** Names that can be printed, each listed once. */
  ghost predicate GoodRoots(roots: seq<string>)
  {
    GoodNames(roots) && forall i, j :: 0 <= i < j < |roots| ==> roots[i] != roots[j]
  }

  lemma {:induction false} RootMembers(roots: seq<string>, files: seq<string>)
    ensures forall i :: 0 <= i < |RootNodes(roots, files)| ==>
              RootNodes(roots, files)[i].name in roots && RootNodes(roots, files)[i].children == []
  {
    if roots != [] { RootMembers(roots[1..], files); }
  }

  lemma {:induction false} RootsApart(roots: seq<string>, files: seq<string>)
    requires GoodRoots(roots)
    ensures Apart(RootNodes(roots, files))
  {
    if roots != [] {
      RootsApart(roots[1..], files);
      RootMembers(roots[1..], files);
      var rest := RootNodes(roots[1..], files);
      forall i | 0 <= i < |rest| ensures rest[i].name != roots[0] {
        assert rest[i].name in roots[1..];
      }
    }
  }

  lemma RootsAreFlat(roots: seq<string>, files: seq<string>)
    requires GoodRoots(roots)
    ensures GoodNodes(RootNodes(roots, files)) && Flat(RootNodes(roots, files))
    ensures forall i :: 0 <= i < |RootNodes(roots, files)| ==>
              RootNodes(roots, files)[i].name in roots && RootNodes(roots, files)[i].name != ""
  {
    RootsApart(roots, files);
    RootMembers(roots, files);
    var nodes := RootNodes(roots, files);
    forall i | 0 <= i < |nodes| ensures GoodNode(nodes[i]) && nodes[i].name in roots && nodes[i].name != "" {
      assert GoodName(nodes[i].name);
    }
  }

  lemma {:induction false} RootNames(roots: seq<string>, files: seq<string>, name: string)
    ensures (exists n :: n in RootNodes(roots, files) && n.name == name) <==> name in roots && PathExists(name, files)
  {
    if roots != [] {
      RootNames(roots[1..], files, name);
      var own := Node(roots[0], HoldsFiles(roots[0], files), []);
      var all, rest := RootNodes(roots, files), RootNodes(roots[1..], files);
      assert forall n :: n in all <==> (PathExists(roots[0], files) && n == own) || n in rest;
      assert name in roots <==> name == roots[0] || name in roots[1..];
    }
  }

  // ---------------------------------------------------------------- sections that do not overlap

  function TitledBase(l: Layout): string { SectionBaseFromTitle(l.title) }

  /** Neither path lies at or below the other. */
  predicate Incomparable(a: string, b: string)
  {
    a != "" && b != "" && a != b && !(a + "/" <= b) && !(b + "/" <= a)
  }

  /** The first character of a label keeps it from being read as anything else. */
  predicate PlainStart(base: string)
  {
    base == "" || base[0] !in {BAR, ' ', LAST[0], MORE[0], '#', '`'}
  }

  ghost predicate OutsideOf(roots: seq<string>, base: string)
  {
    base != "" && forall i :: 0 <= i < |roots| ==> !(base + "/" <= roots[i])
  }

  ghost predicate Compatible(a: Layout, b: Layout, roots: seq<string>)
  {
    if a.recursive && b.recursive then Incomparable(TitledBase(a), TitledBase(b))
    else if a.recursive then TitledBase(b) == "" && OutsideOf(roots, TitledBase(a))
    else b.recursive && TitledBase(a) == "" && OutsideOf(roots, TitledBase(b))
  }

  /** Titles whose bases are pairwise incomparable, and top entries that lie below none of them. */
  ghost predicate WellPlaced(layouts: seq<Layout>, roots: seq<string>)
  {
    && (forall i :: 0 <= i < |layouts| ==> Strip(layouts[i].title) == layouts[i].title && PlainStart(layouts[i].base))
    && forall i, j :: 0 <= i < j < |layouts| ==> Compatible(layouts[i], layouts[j], roots)
  }

  lemma LabelIsPlain(text: string)
    requires text != "" && PlainStart(text)
    ensures MatchLine(text).None? && !IsTitle(text) && text != FENCE
  {
    assert PrefixLength(text) == 0;
    if |text| >= 4 { assert text[0..4][0] == text[0]; }
    assert "## "[0] == '#' && FENCE[0] == '`';
  }

  lemma SourceIsFit(l: Layout, roots: seq<string>, files: seq<string>)
    requires Strip(l.title) == l.title && PlainStart(l.base) && GoodRoots(roots) && GoodFiles(files)
    ensures Fit(SourceOf(l, roots, files))
  {
    var src := SourceOf(l, roots, files);
    assert src.rootLabel[0] == if l.recursive && l.base != "" then l.base[0] else 'a';
    LabelIsPlain(src.rootLabel);
    if l.recursive { TreeIsGood(l.base, files); } else { RootsAreFlat(roots, files); }
  }

  lemma CommonPathNests(a: string, b: string, path: string)
    requires a + "/" <= path && b + "/" <= path
    ensures a == b || a + "/" <= b || b + "/" <= a
  {
    var u, v := a + "/", b + "/";
    assert path[..|u|] == u && path[..|v|] == v;
    if |a| < |b| {
      assert b[..|u|] == path[..|u|];
    } else if |b| < |a| {
      assert a[..|v|] == path[..|v|];
    } else {
      assert a == path[..|a|] == path[..|b|] == b;
    }
  }

  lemma IncomparableApart(a: string, b: string, path: string)
    requires Incomparable(a, b)
    ensures !(a + "/" <= path && b + "/" <= path)
  {
    if a + "/" <= path && b + "/" <= path { CommonPathNests(a, b, path); }
  }

  lemma FlatApart(flat: Source, tree: Source, roots: seq<string>, path: string)
    requires !flat.recursive && Titled(flat) == "" && tree.recursive && OutsideOf(roots, Titled(tree))
    requires forall i :: 0 <= i < |flat.nodes| ==> flat.nodes[i].name in roots && flat.nodes[i].name != ""
    ensures !(Owns(flat, path) && Owns(tree, path))
  {
    if Owns(flat, path) {
      var i :| 0 <= i < |flat.nodes| && Path("", [flat.nodes[i].name]) == path;
      SinglePath("", flat.nodes[i].name);
      assert path in roots;
    }
  }

  lemma SourcesApart(a: Layout, b: Layout, roots: seq<string>, files: seq<string>)
    requires Compatible(a, b, roots) && GoodRoots(roots)
    ensures Separate(SourceOf(a, roots, files), SourceOf(b, roots, files))
  {
    var first, second := SourceOf(a, roots, files), SourceOf(b, roots, files);
    RootsAreFlat(roots, files);
    forall path | Owns(first, path) ensures !Owns(second, path) {
      if a.recursive && b.recursive {
        IncomparableApart(TitledBase(a), TitledBase(b), path);
      } else if a.recursive {
        FlatApart(second, first, roots, path);
      } else {
        FlatApart(first, second, roots, path);
      }
    }
  }

  /** The sections of a document from printable files share no path. */
  lemma {:induction false} SourcesAreLaid(layouts: seq<Layout>, roots: seq<string>, files: seq<string>)
    requires WellPlaced(layouts, roots) && GoodRoots(roots) && GoodFiles(files)
    ensures Laid(Sources(layouts, roots, files))
  {
    if layouts != [] {
      PlacedRest(layouts, roots);
      SourcesAreLaid(layouts[1..], roots, files);
      SourceIsFit(layouts[0], roots, files);
      FirstIsApart(layouts, roots, files);
      OneMoreLaid(SourceOf(layouts[0], roots, files), Sources(layouts[1..], roots, files));
    }
  }

  ghost predicate SeparateFromAll(first: Source, rest: seq<Source>)
  {
    forall i :: 0 <= i < |rest| ==> Separate(first, rest[i])
  }

  lemma PlacedRest(layouts: seq<Layout>, roots: seq<string>)
    requires WellPlaced(layouts, roots) && layouts != []
    ensures WellPlaced(layouts[1..], roots)
    ensures forall j :: 0 <= j < |layouts[1..]| ==> Compatible(layouts[0], layouts[1..][j], roots)
  {
  }

  lemma FirstIsApart(layouts: seq<Layout>, roots: seq<string>, files: seq<string>)
    requires WellPlaced(layouts, roots) && GoodRoots(roots) && layouts != []
    ensures SeparateFromAll(SourceOf(layouts[0], roots, files), Sources(layouts[1..], roots, files))
  {
    var rest := Sources(layouts[1..], roots, files);
    PlacedRest(layouts, roots);
    forall i | 0 <= i < |rest| ensures Separate(SourceOf(layouts[0], roots, files), rest[i]) {
      SourcesFrom(layouts[1..], roots, files, rest[i]);
      var j :| 0 <= j < |layouts[1..]| && rest[i] == SourceOf(layouts[1..][j], roots, files);
      SourcesApart(layouts[0], layouts[1..][j], roots, files);
    }
  }

  lemma OneMoreLaid(first: Source, rest: seq<Source>)
    requires Fit(first) && Laid(rest) && SeparateFromAll(first, rest)
    ensures Laid([first] + rest)
  {
  }

  // ---------------------------------------------------------------- the generated document

  function Generate(x: Settings, preamble: seq<string>, layouts: seq<Layout>, roots: seq<string>, files: seq<string>,
                    comments: map<string, string>, order: map<string, nat>): seq<string>
  {
    Render(x, preamble, Sources(layouts, roots, files), comments, order)
  }

  /** The document of these files as someone has commented it. */
  function Curated(x: Settings, preamble: seq<string>, layouts: seq<Layout>, roots: seq<string>, files: seq<string>,
                   c: Comments, order: map<string, nat>): seq<string>
  {
    Document(x, preamble, Sources(layouts, roots, files), c, order)
  }

  /** What is made of the present files and the document there was. */
  function Update(x: Settings, preamble: seq<string>, layouts: seq<Layout>, roots: seq<string>, files: seq<string>,
                  former: seq<string>): seq<string>
  {
    var was := ReadLines(START, former);
    Generate(x, preamble, layouts, roots, files, was.comments, was.order)
  }

  ghost predicate AllTrimmed(comments: map<string, string>)
  {
    forall path :: path in comments ==> Trimmed(comments[path])
  }

  lemma {:induction false} StripLeftTrims(s: string)
    ensures StripLeft(s) == "" || !IsSpace(StripLeft(s)[0])
  {
    if s != "" && IsSpace(s[0]) { StripLeftTrims(s[1..]); }
  }

  lemma {:induction false} StripRightTrims(s: string)
    requires s == "" || !IsSpace(s[0])
    ensures Trimmed(StripRight(s))
  {
    if s != "" && IsSpace(s[|s| - 1]) { StripRightTrims(s[..|s| - 1]); }
  }

  lemma MatchTrims(line: string)
    requires MatchLine(line).Some?
    ensures MatchLine(line).value.comment == "" || !IsSpace(MatchLine(line).value.comment[0])
  {
    var rest := line[PrefixLength(line) + 4..];
    NameEndBound(rest);
    if NameEnd(rest) < |rest| { StripLeftTrims(StripLeft(rest[NameEnd(rest)..])[1..]); }
  }

  /** Whatever a document looks like, the comments read from it are trimmed. */
  lemma {:induction false} ReadTrims(s: Scan, lines: seq<string>)
    requires AllTrimmed(s.comments)
    ensures AllTrimmed(ReadLines(s, lines).comments)
    decreases lines
  {
    if lines != [] {
      LineTrims(s, lines[0]);
      ReadTrims(ReadLine(s, lines[0]), lines[1..]);
    }
  }

  lemma LineTrims(s: Scan, line: string)
    requires AllTrimmed(s.comments)
    ensures AllTrimmed(ReadLine(s, line).comments)
  {
    var m := MatchLine(line);
    if m.Some? {
      MatchTrims(line);
      StripRightTrims(m.value.comment);
    }
  }

  lemma LookupTrims(x: Settings, former: seq<string>)
    requires TrimmedDescriptions(x)
    ensures TrimmedComments(CommentFor(x, ReadLines(START, former).comments))
  {
    ReadTrims(START, former);
  }

  /** Build, print, read and print again, whatever document there was: with titles that name their bases, the second
      document is the first. */
  lemma UpdateTwice(x: Settings, preamble: seq<string>, layouts: seq<Layout>, roots: seq<string>, files: seq<string>,
                    former: seq<string>)
    requires IsPreamble(preamble) && TrimmedDescriptions(x)
    requires WellPlaced(layouts, roots) && GoodRoots(roots) && GoodFiles(files)
    requires forall i :: 0 <= i < |layouts| ==> TitledBase(layouts[i]) == layouts[i].base
    ensures var doc := Update(x, preamble, layouts, roots, files, former);
            Update(x, preamble, layouts, roots, files, doc) == doc
  {
    var was := ReadLines(START, former);
    LookupTrims(x, former);
    GenerateTwice(x, preamble, layouts, roots, files, was.comments, was.order);
  }

  /** With titles that name their bases, printing again from what was read of a generated document gives the same. */
  lemma GenerateTwice(x: Settings, preamble: seq<string>, layouts: seq<Layout>, roots: seq<string>,
                      files: seq<string>, comments: map<string, string>, order: map<string, nat>)
    requires IsPreamble(preamble) && TrimmedComments(CommentFor(x, comments)) && TrimmedDescriptions(x)
    requires WellPlaced(layouts, roots) && GoodRoots(roots) && GoodFiles(files)
    requires forall i :: 0 <= i < |layouts| ==> TitledBase(layouts[i]) == layouts[i].base
    ensures var doc := Generate(x, preamble, layouts, roots, files, comments, order);
            var again := ReadLines(START, doc);
            Generate(x, preamble, layouts, roots, files, again.comments, again.order) == doc
  {
    var srcs := Sources(layouts, roots, files);
    SourcesAreLaid(layouts, roots, files);
    forall i | 0 <= i < |srcs| ensures TitleMatches(srcs[i]) {
      SourcesFrom(layouts, roots, files, srcs[i]);
      assert srcs[i] in srcs;
    }
    GeneratedIsFixed(x, preamble, srcs, comments, order);
  }

  // ---------------------------------------------------------------- no stale paths

  ghost predicate Leads(n: Node, rel: seq<string>)
    requires rel != []
  {
    n.name == rel[0] && (|rel| == 1 || InTree(n.children, rel[1..]))
  }

  lemma InTreeLeads(ns: seq<Node>, rel: seq<string>)
    requires rel != []
    ensures InTree(ns, rel) <==> exists n :: n in ns && Leads(n, rel)
  {
    if InTree(ns, rel) {
      var i :| 0 <= i < |ns| && ns[i].name == rel[0] && (|rel| == 1 || InTree(ns[i].children, rel[1..]));
      assert ns[i] in ns && Leads(ns[i], rel);
    }
    if n :| n in ns && Leads(n, rel) {
      var i :| 0 <= i < |ns| && ns[i] == n;
      assert ns[i].name == rel[0] && (|rel| == 1 || InTree(ns[i].children, rel[1..]));
    }
  }

  ghost predicate DirHolds(n: Node) { (n.isDir <==> n.children != []) && DirsHold(n.children) }

  lemma {:induction false} ArrangeLeads(x: Settings, p: Place, n: Node, rel: seq<string>)
    requires DirHolds(n) && rel != []
    ensures DirHolds(Arrange(x, p, n)) && (Leads(Arrange(x, p, n), rel) <==> Leads(n, rel))
    decreases n, 2
  {
    if n.isDir {
      var below := p.(above := p.above + [n.name]);
      ArrangedLeads(x, below, n.children, if |rel| > 1 then rel[1..] else rel);
    }
  }

  /** Arranging a tree neither adds nor loses a path. */
  lemma {:induction false} ArrangedLeads(x: Settings, p: Place, ns: seq<Node>, rel: seq<string>)
    requires DirsHold(ns) && rel != []
    ensures DirsHold(Arranged(x, p, ns)) && (Arranged(x, p, ns) == [] <==> ns == [])
    ensures InTree(Arranged(x, p, ns), rel) <==> InTree(ns, rel)
    decreases ns, 1
  {
    var each, sorted := ArrangeEach(x, p, ns), Arranged(x, p, ns);
    ArrangeEachIndex(x, p, ns);
    forall i | 0 <= i < |ns| ensures DirHolds(each[i]) && (Leads(each[i], rel) <==> Leads(ns[i], rel)) {
      assert DirHolds(ns[i]);
      ArrangeLeads(x, p, ns[i], rel);
    }
    SortPermutes(x, p, each);
    SameMembers(each, sorted);
    SameLeads(ns, each, sorted, rel);
    AllDirsHold(sorted, each);
  }

  lemma AllDirsHold(sorted: seq<Node>, each: seq<Node>)
    requires forall n :: n in sorted ==> n in each
    requires forall i :: 0 <= i < |each| ==> DirHolds(each[i])
    ensures DirsHold(sorted)
  {
    forall i | 0 <= i < |sorted| ensures DirHolds(sorted[i]) {
      assert sorted[i] in each;
    }
  }

  lemma SameLeads(ns: seq<Node>, each: seq<Node>, sorted: seq<Node>, rel: seq<string>)
    requires rel != [] && |each| == |ns| && (forall n :: n in each <==> n in sorted)
    requires forall i :: 0 <= i < |ns| ==> (Leads(each[i], rel) <==> Leads(ns[i], rel))
    ensures InTree(sorted, rel) <==> InTree(ns, rel)
  {
    InTreeLeads(sorted, rel);
    InTreeLeads(ns, rel);
    if n :| n in ns && Leads(n, rel) {
      var i :| 0 <= i < |ns| && ns[i] == n;
      assert each[i] in each;
    }
    if n :| n in each && Leads(n, rel) {
      var i :| 0 <= i < |each| && each[i] == n;
      assert ns[i] in ns;
    }
  }

  lemma SameMembers<T>(a: seq<T>, b: seq<T>)
    requires multiset(a) == multiset(b)
    ensures |a| == |b| && forall e :: e in a <==> e in b
  {
    assert |a| == |multiset(a)| == |multiset(b)| == |b|;
    forall e ensures e in a <==> e in b {
      assert e in a <==> e in multiset(a);
      assert e in b <==> e in multiset(b);
    }
  }

  /** What a section shows: files below its base with the directories above them, or the top entries there are. */
  ghost predicate InSection(l: Layout, roots: seq<string>, files: seq<string>, path: string)
  {
    if l.recursive then exists rel :: ShowsAs(l, files, rel, path)
    else exists r :: r in roots && PathExists(r, files) && path == Path(TitledBase(l), [r])
  }

  ghost predicate ShowsAs(l: Layout, files: seq<string>, rel: seq<string>, path: string)
  {
    rel != [] && Shown(l.base, files, rel) && path == Path(TitledBase(l), rel)
  }

  ghost predicate InDocument(layouts: seq<Layout>, roots: seq<string>, files: seq<string>, path: string)
  {
    exists i :: 0 <= i < |layouts| && Present(layouts[i], files) && InSection(layouts[i], roots, files, path)
  }

  lemma ListedIffEntry(base: string, entries: seq<Entry>, path: string)
    ensures IsListed(List(base, entries), path) <==> exists rel :: HasEntry(entries, rel) && path == Path(base, rel)
  {
    var listed := List(base, entries);
    if IsListed(listed, path) {
      var k :| 0 <= k < |listed| && listed[k].path == path;
      assert HasEntry(entries, entries[k].rel);
    }
    if rel :| HasEntry(entries, rel) && path == Path(base, rel) {
      var k :| 0 <= k < |entries| && entries[k].rel == rel;
      assert listed[k].path == path;
    }
  }

  lemma TreeSectionShows(x: Settings, l: Layout, roots: seq<string>, files: seq<string>, c: Comments,
                         order: map<string, nat>, rel: seq<string>)
    requires l.recursive && GoodFiles(files)
    ensures HasEntry(Displayed(x, SourceOf(l, roots, files), c, order), rel) <==> rel != [] && Shown(l.base, files, rel)
  {
    var src := SourceOf(l, roots, files);
    var nodes := Prepare(x, order, src).nodes;
    TreeIsGood(l.base, files);
    if rel == [] {
      EntriesBelow(nodes, src.base, [], c);
    } else {
      TreeOfFiles(l.base, files, rel);
      ArrangedLeads(x, Place(src.base, [], order), src.nodes, rel);
      EntriesAreTree(nodes, src.base, [], c, rel);
      assert [] + rel == rel;
    }
  }

  lemma FlatSectionShows(x: Settings, l: Layout, roots: seq<string>, files: seq<string>, c: Comments,
                         order: map<string, nat>, rel: seq<string>)
    requires !l.recursive && GoodRoots(roots)
    ensures HasEntry(Displayed(x, SourceOf(l, roots, files), c, order), rel)
            <==> |rel| == 1 && rel[0] in roots && PathExists(rel[0], files)
  {
    var nodes := RootNodes(roots, files);
    var entries := Displayed(x, SourceOf(l, roots, files), c, order);
    RootsAreFlat(roots, files);
    FlatEntries(nodes, l.base, c);
    if |rel| == 1 {
      RootNames(roots, files, rel[0]);
      if n :| n in nodes && n.name == rel[0] {
        var i :| 0 <= i < |nodes| && nodes[i] == n;
        assert entries[i].rel == rel;
      }
      if HasEntry(entries, rel) {
        var i :| 0 <= i < |entries| && entries[i].rel == rel;
        assert nodes[i] in nodes && nodes[i].name == rel[0];
      }
    }
  }

  lemma SectionShows(x: Settings, l: Layout, roots: seq<string>, files: seq<string>, c: Comments,
                     order: map<string, nat>, path: string)
    requires GoodFiles(files) && GoodRoots(roots)
    ensures IsListed(ReadBack(x, SourceOf(l, roots, files), c, order), path) <==> InSection(l, roots, files, path)
  {
    var entries := Displayed(x, SourceOf(l, roots, files), c, order);
    ListedIffEntry(TitledBase(l), entries, path);
    if l.recursive {
      forall rel ensures HasEntry(entries, rel) && path == Path(TitledBase(l), rel) <==> ShowsAs(l, files, rel, path) {
        TreeSectionShows(x, l, roots, files, c, order, rel);
      }
    } else {
      FlatPathShows(x, l, roots, files, c, order, path);
    }
  }

  lemma FlatPathShows(x: Settings, l: Layout, roots: seq<string>, files: seq<string>, c: Comments,
                      order: map<string, nat>, path: string)
    requires !l.recursive && GoodRoots(roots)
    ensures (exists rel :: HasEntry(Displayed(x, SourceOf(l, roots, files), c, order), rel)
                           && path == Path(TitledBase(l), rel))
            <==> exists r :: r in roots && PathExists(r, files) && path == Path(TitledBase(l), [r])
  {
    var entries := Displayed(x, SourceOf(l, roots, files), c, order);
    if r :| r in roots && PathExists(r, files) && path == Path(TitledBase(l), [r]) {
      FlatSectionShows(x, l, roots, files, c, order, [r]);
      assert HasEntry(entries, [r]);
    }
    if rel :| HasEntry(entries, rel) && path == Path(TitledBase(l), rel) {
      FlatSectionShows(x, l, roots, files, c, order, rel);
      assert rel == [rel[0]];
    }
  }

  lemma ListedConcat(a: seq<Listed>, b: seq<Listed>, path: string)
    ensures IsListed(a + b, path) <==> IsListed(a, path) || IsListed(b, path)
  {
    var all := a + b;
    if IsListed(a, path) {
      var k :| 0 <= k < |a| && a[k].path == path;
      assert all[k].path == path;
    }
    if IsListed(b, path) {
      var k :| 0 <= k < |b| && b[k].path == path;
      assert all[|a| + k].path == path;
    }
  }

  lemma {:induction false} ListingShows(x: Settings, layouts: seq<Layout>, roots: seq<string>, files: seq<string>,
                                        c: Comments, order: map<string, nat>, path: string)
    requires GoodFiles(files) && GoodRoots(roots)
    ensures IsListed(WholeListing(x, Sources(layouts, roots, files), c, order), path)
            <==> InDocument(layouts, roots, files, path)
  {
    if layouts != [] {
      var l, rest := layouts[0], Sources(layouts[1..], roots, files);
      var all := Sources(layouts, roots, files);
      ListingShows(x, layouts[1..], roots, files, c, order, path);
      InDocumentMore(layouts, roots, files, path);
      SectionShows(x, l, roots, files, c, order, path);
      if Present(l, files) {
        assert all[1..] == rest;
        ListingSplits(x, all, c, order);
        ListedConcat(ReadBack(x, all[0], c, order), WholeListing(x, rest, c, order), path);
      } else {
        assert all == rest;
      }
    }
  }

  lemma InDocumentMore(layouts: seq<Layout>, roots: seq<string>, files: seq<string>, path: string)
    requires layouts != []
    ensures InDocument(layouts, roots, files, path)
            <==> (Present(layouts[0], files) && InSection(layouts[0], roots, files, path))
                 || InDocument(layouts[1..], roots, files, path)
  {
    assert forall i :: 0 <= i < |layouts[1..]| ==> layouts[1..][i] == layouts[i + 1];
    assert forall i :: 1 <= i < |layouts| ==> layouts[i] == layouts[1..][i - 1];
  }

  /** However the old document looked, the new one lists the present files and the directories above them, each
      once, and no stale path: that is what reading it finds. */
  lemma NoStalePath(x: Settings, preamble: seq<string>, layouts: seq<Layout>, roots: seq<string>, files: seq<string>,
                    former: seq<string>, path: string)
    requires IsPreamble(preamble) && TrimmedDescriptions(x)
    requires WellPlaced(layouts, roots) && GoodRoots(roots) && GoodFiles(files)
    ensures var again := ReadLines(START, Update(x, preamble, layouts, roots, files, former));
            path in again.order <==> InDocument(layouts, roots, files, path)
  {
    var was := ReadLines(START, former);
    LookupTrims(x, former);
    ListsPresentPaths(x, preamble, layouts, roots, files, was.comments, was.order, path);
  }

  lemma ListsPresentPaths(x: Settings, preamble: seq<string>, layouts: seq<Layout>, roots: seq<string>,
                          files: seq<string>, comments: map<string, string>, order: map<string, nat>, path: string)
    requires IsPreamble(preamble) && TrimmedComments(CommentFor(x, comments))
    requires WellPlaced(layouts, roots) && GoodRoots(roots) && GoodFiles(files)
    ensures var again := ReadLines(START, Generate(x, preamble, layouts, roots, files, comments, order));
            path in again.order <==> InDocument(layouts, roots, files, path)
  {
    var srcs, c := Sources(layouts, roots, files), CommentFor(x, comments);
    var again := ReadLines(START, Generate(x, preamble, layouts, roots, files, comments, order));
    var listed := WholeListing(x, srcs, c, order);
    SourcesAreLaid(layouts, roots, files);
    LaidIsReadable(x, srcs, c, order);
    RoundTrip(preamble, PrepareAll(x, order, srcs), c);
    assert Ranks(again.order, listed);
    ListingShows(x, layouts, roots, files, c, order, path);
  }
}
