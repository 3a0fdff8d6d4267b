/** The sections this repository's document has, and what becomes of the comments below frontend/src
    (scripts/generate_project_structure.py). */
module RepositoryDocument {
  import opened Collections
  import opened Strings
  import opened TreeDoc
  import opened TreePaths
  import opened TreeRoundTrip
  import opened TreeFixedPoint
  import opened TreeRegeneration
  import opened TreeDocuments

  // ---------------------------------------------------------------- a section whose title names a directory above

  lemma {:induction false} JoinConcat(a: seq<string>, b: seq<string>)
    requires AllParts(a) && AllParts(b) && a != [] && b != []
    ensures Join(a + b) == Join(a) + "/" + Join(b)
  {
    var rest := a[1..];
    JoinParts(a);
    FirstThenRest(a, b);
    if rest == [] {
      assert rest + b == b;
      JoinShort(a[0], Join(b));
    } else {
      JoinConcat(rest, b);
      JoinLong(a[0], Join(rest), Join(b));
    }
  }

  lemma FirstThenRest(a: seq<string>, b: seq<string>)
    requires AllParts(a) && AllParts(b) && a != [] && b != []
    ensures Join(a + b) == a[0] + ("/" + Join(a[1..] + b))
  {
    JoinParts(a + b);
    assert (a + b)[1..] == a[1..] + b && (a + b)[0] == a[0];
  }

  lemma JoinShort(a: string, c: string)
    ensures a + ("/" + c) == (a + "") + "/" + c
  {
  }

  lemma JoinLong(a: string, b: string, c: string)
    ensures a + ("/" + (b + "/" + c)) == (a + ("/" + b)) + "/" + c
  {
  }

  lemma Regroup(a: string, b: string, c: string)
    ensures (a + "/" + b) + "/" + c == a + "/" + (b + "/" + c)
    ensures a + "/" <= a + "/" + b && a + "/" + b != ""
  {
  }

  /** A path below the base, seen from the title's base. */
  lemma PathFromAbove(above: string, more: seq<string>, rel: seq<string>)
    requires above != "" && AllParts(more) && more != [] && AllParts(rel) && rel != []
    ensures Path(Path(above, more), rel) == Path(above, more + rel) && above + "/" <= Path(above, more + rel)
  {
    var m, r := Join(more), Join(rel);
    PathUnder(above, more);
    PathUnder(above, more + rel);
    JoinConcat(more, rel);
    Regroup(above, m, r);
    Regroup(above, m + "/" + r, "");
    var base := above + "/" + m;
    PathUnder(base, rel);
    assert Path(base, rel) == base + "/" + r;
  }

  lemma ShownParts(base: string, files: seq<string>, rel: seq<string>)
    requires Shown(base, files, rel)
    ensures AllParts(rel)
  {
    var k :| Shows(base, files, rel, k);
    RelativeParts(base, files[k]);
  }

  lemma ShownPrefix(base: string, files: seq<string>, a: seq<string>, b: seq<string>)
    requires Shown(base, files, a + b)
    ensures Shown(base, files, a)
  {
    var k :| Shows(base, files, a + b, k);
    assert Shows(base, files, a, k);
  }

  /** The title names a directory above the base path, and `more` is the rest of the way. */
  ghost predicate NamesAbove(l: Layout, more: seq<string>)
  {
    l.recursive && TitledBase(l) != "" && AllParts(more) && more != [] && l.base == Path(TitledBase(l), more)
  }

  lemma ListedElsewhere(x: Settings, layouts: seq<Layout>, roots: seq<string>, files: seq<string>, c: Comments,
                        order: map<string, nat>, i: nat, j: nat, path: string)
    requires WellPlaced(layouts, roots) && GoodRoots(roots) && GoodFiles(files) && i < |layouts| && j < |layouts|
    requires layouts[i].recursive && TitledBase(layouts[i]) + "/" <= path && InSection(layouts[j], roots, files, path)
    ensures i == j
  {
    if i != j {
      var read := ReadBack(x, SourceOf(layouts[j], roots, files), c, order);
      SectionShows(x, layouts[j], roots, files, c, order, path);
      SourceIsFit(layouts[j], roots, files);
      SectionOwned(x, SourceOf(layouts[j], roots, files), c, order);
      assert Owns(SourceOf(layouts[i], roots, files), path) && Owns(SourceOf(layouts[j], roots, files), path);
      var a, b := if i < j then layouts[i] else layouts[j], if i < j then layouts[j] else layouts[i];
      SourcesApart(a, b, roots, files);
    }
  }

  /** Below a title that names a directory above the base, the section's own paths are not listed, unless it
      holds the rest of its base path once more. */
  lemma LostBelow(x: Settings, layouts: seq<Layout>, roots: seq<string>, files: seq<string>, c: Comments,
                  order: map<string, nat>, i: nat, more: seq<string>)
    requires WellPlaced(layouts, roots) && GoodRoots(roots) && GoodFiles(files) && i < |layouts|
    requires NamesAbove(layouts[i], more) && !Shown(layouts[i].base, files, more)
    ensures Lost(x, SourceOf(layouts[i], roots, files), c, order,
                 WholeListing(x, Sources(layouts, roots, files), c, order))
  {
    var l := layouts[i];
    var listed := WholeListing(x, Sources(layouts, roots, files), c, order);
    var entries := Displayed(x, SourceOf(l, roots, files), c, order);
    forall k | 0 <= k < |entries| ensures !IsListed(listed, Path(l.base, entries[k].rel)) {
      var rel := entries[k].rel;
      assert HasEntry(entries, rel);
      TreeSectionShows(x, l, roots, files, c, order, rel);
      NotListed(x, layouts, roots, files, c, order, i, more, rel);
    }
  }

  lemma NotListed(x: Settings, layouts: seq<Layout>, roots: seq<string>, files: seq<string>, c: Comments,
                  order: map<string, nat>, i: nat, more: seq<string>, rel: seq<string>)
    requires WellPlaced(layouts, roots) && GoodRoots(roots) && GoodFiles(files) && i < |layouts|
    requires NamesAbove(layouts[i], more) && !Shown(layouts[i].base, files, more)
    requires rel != [] && Shown(layouts[i].base, files, rel)
    ensures !IsListed(WholeListing(x, Sources(layouts, roots, files), c, order), Path(layouts[i].base, rel))
  {
    var l, path := layouts[i], Path(layouts[i].base, rel);
    ShownParts(l.base, files, rel);
    PathFromAbove(TitledBase(l), more, rel);
    ListingShows(x, layouts, roots, files, c, order, path);
    if InDocument(layouts, roots, files, path) {
      var j :| 0 <= j < |layouts| && InSection(layouts[j], roots, files, path);
      ListedElsewhere(x, layouts, roots, files, c, order, i, j, path);
      var other :| ShowsAs(l, files, other, path);
      ShownParts(l.base, files, other);
      PathInjective(TitledBase(l), other, more + rel);
      ShownPrefix(l.base, files, more, rel);
    }
  }

  // ---------------------------------------------------------------- the exact condition for such documents

  /** The title names the base path; or a directory above it, and the tree does not hold the rest of the way
      once more. */
  ghost predicate Unambiguous(l: Layout, files: seq<string>)
  {
    TitledBase(l) == l.base || exists more :: NamesAbove(l, more) && !Shown(l.base, files, more)
  }

  lemma LayoutMatchedOrLost(x: Settings, layouts: seq<Layout>, roots: seq<string>, files: seq<string>, c: Comments,
                            order: map<string, nat>, i: nat)
    requires WellPlaced(layouts, roots) && GoodRoots(roots) && GoodFiles(files)
    requires i < |layouts| && Unambiguous(layouts[i], files)
    ensures MatchedOrLost(x, SourceOf(layouts[i], roots, files), c, order,
                          WholeListing(x, Sources(layouts, roots, files), c, order))
  {
    if TitledBase(layouts[i]) != layouts[i].base {
      var more :| NamesAbove(layouts[i], more) && !Shown(layouts[i].base, files, more);
      LostBelow(x, layouts, roots, files, c, order, i, more);
    }
  }

  lemma SourcesMatchedOrLost(x: Settings, layouts: seq<Layout>, roots: seq<string>, files: seq<string>, c: Comments,
                             order: map<string, nat>)
    requires WellPlaced(layouts, roots) && GoodRoots(roots) && GoodFiles(files)
    requires AllUnambiguous(layouts, files)
    ensures AllMatchedOrLost(x, Sources(layouts, roots, files), c, order)
  {
    var srcs := Sources(layouts, roots, files);
    forall i | 0 <= i < |srcs| ensures MatchedOrLost(x, srcs[i], c, order, WholeListing(x, srcs, c, order)) {
      SourcesFrom(layouts, roots, files, srcs[i]);
      var j :| 0 <= j < |layouts| && srcs[i] == SourceOf(layouts[j], roots, files);
      LayoutMatchedOrLost(x, layouts, roots, files, c, order, j);
    }
  }

  ghost predicate AllUnambiguous(layouts: seq<Layout>, files: seq<string>)
  {
    forall i :: 0 <= i < |layouts| ==> Unambiguous(layouts[i], files)
  }

  /** A property of sources holds of all sections that are present. */
  ghost predicate EachPresent(layouts: seq<Layout>, roots: seq<string>, files: seq<string>, holds: Source -> bool)
  {
    forall i :: 0 <= i < |layouts| && Present(layouts[i], files) ==> holds(SourceOf(layouts[i], roots, files))
  }

  lemma EachSource(layouts: seq<Layout>, roots: seq<string>, files: seq<string>, holds: Source -> bool)
    ensures (forall i :: 0 <= i < |Sources(layouts, roots, files)| ==> holds(Sources(layouts, roots, files)[i]))
            <==> EachPresent(layouts, roots, files, holds)
  {
    var srcs := Sources(layouts, roots, files);
    if forall i :: 0 <= i < |srcs| ==> holds(srcs[i]) {
      forall j | 0 <= j < |layouts| && Present(layouts[j], files) ensures holds(SourceOf(layouts[j], roots, files)) {
        SourcesFrom(layouts, roots, files, SourceOf(layouts[j], roots, files));
      }
    }
    if EachPresent(layouts, roots, files, holds) {
      forall i | 0 <= i < |srcs| ensures holds(srcs[i]) {
        SourcesFrom(layouts, roots, files, srcs[i]);
      }
    }
  }

  /** Every section that is present survives. */
  ghost predicate SectionsSurvive(x: Settings, layouts: seq<Layout>, roots: seq<string>, files: seq<string>,
                                  c: Comments, order: map<string, nat>)
  {
    forall i :: 0 <= i < |layouts| && Present(layouts[i], files) ==>
      Survives(x, SourceOf(layouts[i], roots, files), c, order)
  }

  /** Every section that is present stays, given what was read. */
  ghost predicate SectionsStay(x: Settings, layouts: seq<Layout>, roots: seq<string>, files: seq<string>, c: Comments,
                               order: map<string, nat>, ix: Index)
  {
    forall i :: 0 <= i < |layouts| && Present(layouts[i], files) ==>
      Stays(x, SourceOf(layouts[i], roots, files), c, order, ix)
  }

  lemma SurviveEach(x: Settings, layouts: seq<Layout>, roots: seq<string>, files: seq<string>, c: Comments,
                    order: map<string, nat>)
    ensures AllSurvive(x, Sources(layouts, roots, files), c, order)
            <==> SectionsSurvive(x, layouts, roots, files, c, order)
  {
    EachSource(layouts, roots, files, src => Survives(x, src, c, order));
  }

  lemma StayEach(x: Settings, layouts: seq<Layout>, roots: seq<string>, files: seq<string>, c: Comments,
                 order: map<string, nat>, ix: Index)
    ensures AllStay(x, Sources(layouts, roots, files), c, order, ix)
            <==> SectionsStay(x, layouts, roots, files, c, order, ix)
  {
    EachSource(layouts, roots, files, src => Stays(x, src, c, order, ix));
  }

  /** What generating from the present files makes of a document. */
  function GeneratedFrom(x: Settings, preamble: seq<string>, layouts: seq<Layout>, roots: seq<string>,
                         files: seq<string>, doc: seq<string>): seq<string>
  {
    Regenerated(x, preamble, Sources(layouts, roots, files), doc)
  }

  /** A document of any files, with whatever comments and order, is reproduced by reading it and generating again
      exactly if under each title that names the base no described path is without a comment, and every other section
      is kept by what was read. */
  lemma DocumentStaysIff(x: Settings, preamble: seq<string>, layouts: seq<Layout>, roots: seq<string>,
                         files: seq<string>, c: Comments, order: map<string, nat>)
    requires IsPreamble(preamble) && TrimmedComments(c) && TrimmedDescriptions(x)
    requires WellPlaced(layouts, roots) && GoodRoots(roots) && GoodFiles(files)
    ensures var doc := Curated(x, preamble, layouts, roots, files, c, order);
            GeneratedFrom(x, preamble, layouts, roots, files, doc) == doc
            <==> SectionsStay(x, layouts, roots, files, c, order, IndexOf(doc))
  {
    var srcs := Sources(layouts, roots, files);
    SourcesAreLaid(layouts, roots, files);
    StaysIff(x, preamble, srcs, c, order);
    StayEach(x, layouts, roots, files, c, order, IndexOf(Document(x, preamble, srcs, c, order)));
  }

  /** Where no other title is ambiguous, that can be told from the lines of the document: under such a title only
      built-in descriptions in the default order may stand. */
  lemma DocumentSurvivesIff(x: Settings, preamble: seq<string>, layouts: seq<Layout>, roots: seq<string>,
                            files: seq<string>, c: Comments, order: map<string, nat>)
    requires IsPreamble(preamble) && TrimmedComments(c) && TrimmedDescriptions(x)
    requires WellPlaced(layouts, roots) && GoodRoots(roots) && GoodFiles(files)
    requires AllUnambiguous(layouts, files)
    ensures var doc := Curated(x, preamble, layouts, roots, files, c, order);
            GeneratedFrom(x, preamble, layouts, roots, files, doc) == doc
            <==> SectionsSurvive(x, layouts, roots, files, c, order)
  {
    SourcesAreLaid(layouts, roots, files);
    SourcesMatchedOrLost(x, layouts, roots, files, c, order);
    SurvivesIff(x, preamble, Sources(layouts, roots, files), c, order);
    SurviveEach(x, layouts, roots, files, c, order);
  }

  // ---------------------------------------------------------------- documents shaped like this repository's

  /** The top entries, and then a tree under each name; the last tree shows only the sources of its directory. */
  function SectionAt(names: seq<string>, texts: seq<string>, i: nat): Layout
    requires i <= |names| == |texts|
  {
    if i == 0 then Layout(TOP_TITLE, "", false)
    else Layout(names[i - 1] + "/ — " + texts[i - 1], if i == |names| then names[i - 1] + "/" + "src" else names[i - 1],
                true)
  }

  function Sections(names: seq<string>, texts: seq<string>): (layouts: seq<Layout>)
    requires |names| == |texts|
    ensures |layouts| == |names| + 1 && forall i :: 0 <= i <= |names| ==> layouts[i] == SectionAt(names, texts, i)
  {
    seq(|names| + 1, i requires 0 <= i <= |names| => SectionAt(names, texts, i))
  }

  ghost predicate PlainName(name: string)
  {
    && name != "" && !EndsWithSlash(name) && !IsSpace(name[0]) && PlainStart(name)
    && forall k :: 0 <= k < |name| ==> name[k] !in {'—', '최', '#'}
  }

  ghost predicate PlainText(text: string) { text != "" && !IsSpace(text[|text| - 1]) }

  /** Names and texts of which titles can be made, no name lying below another. */
  ghost predicate Plain(names: seq<string>, texts: seq<string>)
  {
    && |names| == |texts| > 0
    && (forall k :: 0 <= k < |names| ==> PlainName(names[k]) && PlainText(texts[k]))
    && forall j, k :: 0 <= j < k < |names| ==> Incomparable(names[j], names[k])
  }

  /** Printable top entries, none of them inside a section. */
  ghost predicate TopEntries(names: seq<string>, roots: seq<string>)
  {
    GoodRoots(roots) && forall k :: 0 <= k < |names| ==> OutsideOf(roots, names[k])
  }

  /** The names themselves can be the top entries. */
  lemma NamesCanBeTop(names: seq<string>, texts: seq<string>)
    requires Plain(names, texts) && GoodNames(names)
    ensures TopEntries(names, names)
  {
    forall i, k | 0 <= i < |names| && 0 <= k < |names| ensures names[k] != "" && !(names[k] + "/" <= names[i]) {
      assert PlainName(names[k]);
      if i < k { assert Incomparable(names[i], names[k]); }
      if k < i { assert Incomparable(names[k], names[i]); }
    }
    forall k | 0 <= k < |names| ensures OutsideOf(names, names[k]) {
      assert PlainName(names[k]);
    }
    forall i, j | 0 <= i < j < |names| ensures names[i] != names[j] {
      assert Incomparable(names[i], names[j]);
    }
  }

  lemma TrimmedTitle(name: string, text: string)
    requires PlainName(name) && PlainText(text)
    ensures Strip(name + "/ — " + text) == name + "/ — " + text
  {
    var title := name + "/ — " + text;
    assert title[0] == name[0] && title[|title| - 1] == text[|text| - 1];
  }

  lemma TopTitle()
    ensures Strip(TOP_TITLE) == TOP_TITLE && SectionBaseFromTitle(TOP_TITLE) == ""
    ensures |TOP_TITLE| == 6 && TOP_TITLE[0] == '최'
  {
    assert |TOP_TITLE| == 6 && TOP_TITLE[0] == '최' && TOP_TITLE[5] == '조';
  }

  lemma SectionTitles(names: seq<string>, texts: seq<string>, i: nat)
    requires Plain(names, texts) && i <= |names|
    ensures var l := SectionAt(names, texts, i);
            Strip(l.title) == l.title && PlainStart(l.base) && TitledBase(l) == if i == 0 then "" else names[i - 1]
  {
    TopTitle();
    if i > 0 {
      var name, text := names[i - 1], texts[i - 1];
      assert PlainName(name) && PlainText(text);
      TrimmedTitle(name, text);
      TitleGivesBase(name, text);
    }
  }

  lemma SectionsArePlaced(names: seq<string>, texts: seq<string>, roots: seq<string>)
    requires Plain(names, texts) && TopEntries(names, roots)
    ensures WellPlaced(Sections(names, texts), roots)
  {
    var layouts := Sections(names, texts);
    forall i | 0 <= i < |layouts| ensures Strip(layouts[i].title) == layouts[i].title && PlainStart(layouts[i].base) {
      SectionTitles(names, texts, i);
    }
    forall i, j | 0 <= i < j < |layouts| ensures Compatible(layouts[i], layouts[j], roots) {
      SectionTitles(names, texts, i);
      SectionTitles(names, texts, j);
      if i > 0 { assert Incomparable(names[i - 1], names[j - 1]); } else { assert OutsideOf(roots, names[j - 1]); }
    }
  }

  lemma SectionsAreUnambiguous(names: seq<string>, texts: seq<string>, files: seq<string>, i: nat)
    requires Plain(names, texts) && i <= |names|
    requires !Shown(SectionAt(names, texts, |names|).base, files, ["src"])
    ensures var l := SectionAt(names, texts, i); Unambiguous(l, files) && (TitledBase(l) == l.base <==> i != |names|)
  {
    SectionTitles(names, texts, i);
    if i == |names| {
      var name := names[i - 1];
      SinglePath(name, "src");
      assert |name + "/" + "src"| == |name| + 4;
      assert NamesAbove(SectionAt(names, texts, i), ["src"]);
    }
  }

  ghost predicate MostAreFilled(x: Settings, names: seq<string>, texts: seq<string>, roots: seq<string>,
                                files: seq<string>, c: Comments, order: map<string, nat>)
    requires |names| == |texts|
  {
    forall i :: 0 <= i < |names| && Present(SectionAt(names, texts, i), files) ==>
      NoneMissing(x, SourceOf(SectionAt(names, texts, i), roots, files), c, order)
  }

  lemma OnlyLastDiffers(names: seq<string>, texts: seq<string>, i: nat)
    requires Plain(names, texts) && i <= |names|
    ensures TitledBase(SectionAt(names, texts, i)) == SectionAt(names, texts, i).base <==> i != |names|
  {
    SectionTitles(names, texts, i);
    if i == |names| { assert |names[i - 1] + "/" + "src"| == |names[i - 1]| + 4; }
  }

  /** In such a document every title but the last names its base path. Whatever the files, it is reproduced exactly if
      in those sections no described path is without a comment, and the last section is kept by what was read. */
  lemma RepositoryStaysIff(x: Settings, preamble: seq<string>, names: seq<string>, texts: seq<string>,
                           roots: seq<string>, files: seq<string>, c: Comments, order: map<string, nat>)
    requires IsPreamble(preamble) && TrimmedComments(c) && TrimmedDescriptions(x)
    requires Plain(names, texts) && TopEntries(names, roots) && GoodFiles(files)
    ensures var doc := Curated(x, preamble, Sections(names, texts), roots, files, c, order);
            var last := SectionAt(names, texts, |names|);
            GeneratedFrom(x, preamble, Sections(names, texts), roots, files, doc) == doc
            <==> MostAreFilled(x, names, texts, roots, files, c, order)
                 && (Present(last, files) ==> Kept(x, SourceOf(last, roots, files), c, order, IndexOf(doc)))
  {
    var layouts := Sections(names, texts);
    var ix := IndexOf(Curated(x, preamble, layouts, roots, files, c, order));
    SectionsArePlaced(names, texts, roots);
    DocumentStaysIff(x, preamble, layouts, roots, files, c, order);
    forall i | 0 <= i <= |names|
      ensures Stays(x, SourceOf(layouts[i], roots, files), c, order, ix)
              <==> if i < |names| then NoneMissing(x, SourceOf(layouts[i], roots, files), c, order)
                   else Kept(x, SourceOf(layouts[i], roots, files), c, order, ix)
    {
      OnlyLastDiffers(names, texts, i);
    }
  }

  /** Without a file under the rest of the way in the last section, that holds exactly if this section has nothing but
      built-in descriptions in the default order. */
  lemma RepositorySurvivesIff(x: Settings, preamble: seq<string>, names: seq<string>, texts: seq<string>,
                              roots: seq<string>, files: seq<string>, c: Comments, order: map<string, nat>)
    requires IsPreamble(preamble) && TrimmedComments(c) && TrimmedDescriptions(x)
    requires Plain(names, texts) && TopEntries(names, roots) && GoodFiles(files)
    requires !Shown(SectionAt(names, texts, |names|).base, files, ["src"])
    ensures var doc := Curated(x, preamble, Sections(names, texts), roots, files, c, order);
            var last := SectionAt(names, texts, |names|);
            GeneratedFrom(x, preamble, Sections(names, texts), roots, files, doc) == doc
            <==> MostAreFilled(x, names, texts, roots, files, c, order)
                 && (Present(last, files) ==> OnlyDefaults(x, SourceOf(last, roots, files), c, order))
  {
    var layouts := Sections(names, texts);
    SectionsArePlaced(names, texts, roots);
    forall i | 0 <= i < |layouts| ensures Unambiguous(layouts[i], files) {
      SectionsAreUnambiguous(names, texts, files, i);
    }
    DocumentSurvivesIff(x, preamble, layouts, roots, files, c, order);
    forall i | 0 <= i <= |names|
      ensures Survives(x, SourceOf(layouts[i], roots, files), c, order)
              <==> if i < |names| then NoneMissing(x, SourceOf(layouts[i], roots, files), c, order)
                   else OnlyDefaults(x, SourceOf(layouts[i], roots, files), c, order)
    {
      OnlyLastDiffers(names, texts, i);
    }
  }

  // ---------------------------------------------------------------- this repository

  const NAMES := ["src/ante", "tests", "deploy", "strategies", "scripts", "docs", "guide", "frontend"]
  const TEXTS := ["Python 백엔드", "테스트", "서비스 배포", "전략 템플릿과 예제", "설치·운영·문서 생성 스크립트", "설계 문서",
                  "사용자·운용 가이드", "React 대시보드"]

  /** A path is below another only where a slash follows. */
  lemma NotBelow(a: string, b: string)
    requires |a| < |b| ==> b[|a|] != '/'
    ensures !(a + "/" <= b)
  {
    assert (a + "/")[|a|] == '/';
  }

  lemma NamesIncomparable(i: nat, j: nat)
    requires i < j < 8
    ensures Incomparable(NAMES[i], NAMES[j])
  {
    var a, b := NAMES[i], NAMES[j];
    assert |a| != |b| || a[0] != b[0];
    NotBelow(a, b);
    NotBelow(b, a);
  }

  lemma NameIsPlain(k: nat)
    requires k < 8
    ensures PlainName(NAMES[k])
  {
  }

  lemma TextIsPlain(k: nat)
    requires k < 8
    ensures PlainText(TEXTS[k])
  {
  }

  /** The sections of this repository are such a document's. */
  lemma RepositoryIsPlain()
    ensures Plain(NAMES, TEXTS) && |NAMES| == 8
  {
    forall k | 0 <= k < 8 ensures PlainName(NAMES[k]) && PlainText(TEXTS[k]) {
      NameIsPlain(k);
      TextIsPlain(k);
    }
    forall j, k | 0 <= j < k < 8 ensures Incomparable(NAMES[j], NAMES[k]) {
      NamesIncomparable(j, k);
    }
  }

  // ---------------------------------------------------------------- a comment that is lost

  lemma {:induction false} OnePart(s: string)
    requires IsPart(s)
    ensures Parts(s) == [s]
  {
    WholePart(s);
    assert s[0] in s;
    assert s[|s|..] == "" && s[..|s|] == s;
  }

  lemma {:induction false} WholePart(s: string)
    requires NoSlash(s)
    ensures PartLength(s) == |s|
  {
    if s != "" {
      assert s[0] in s;
      WholePart(s[1..]);
    }
  }

  lemma SourceFileParts(dir: string, name: string)
    requires IsPart(dir) && IsPart(name)
    ensures Parts(dir + "/" + "src" + "/" + name) == [dir, "src", name]
    ensures Relative(dir + "/" + "src", dir + "/" + "src" + "/" + name) == Some([name])
  {
    var base := dir + "/" + "src";
    PartsAppend(base, name);
    PartsAppend(dir, "src");
    OnePart(dir);
    OnePart("src");
    OnePart(name);
    assert [dir] + ["src"] + [name] == [dir, "src", name];
    assert (base + "/" + name)[|base| + 1..] == name && base + "/" <= base + "/" + name;
  }

  /** A repository of one file, directly inside the sources of `dir`. */
  lemma OneSourceFile(dir: string, name: string)
    requires IsPart(dir) && GoodName(dir) && IsPart(name) && GoodName(name) && name != "src"
    ensures var base := dir + "/" + "src";
            var files := [base + "/" + name];
            && GoodFiles(files) && PathExists(base, files)
            && Shown(base, files, [name]) && !Shown(base, files, ["src"])
  {
    var base := dir + "/" + "src";
    var files := [base + "/" + name];
    SourceFileParts(dir, name);
    assert GoodName("src") && GoodNames([dir, "src", name]);
    assert Shows(base, files, [name], 0);
    assert base + "/" <= files[0];
    forall k ensures !Shows(base, files, ["src"], k) {
      assert ["src"][0] == "src" && [name][0] == name;
    }
  }

  /** One file in the last section with a recorded comment other than its built-in description: the document
      generated with that comment is not generated again. */
  lemma CommentIsLost(x: Settings, preamble: seq<string>, names: seq<string>, texts: seq<string>, roots: seq<string>,
                      name: string, comment: string, order: map<string, nat>)
    requires IsPreamble(preamble) && TrimmedDescriptions(x) && Plain(names, texts) && TopEntries(names, roots)
    requires IsPart(names[|names| - 1]) && GoodName(names[|names| - 1])
    requires IsPart(name) && GoodName(name) && name != "src" && comment != "" && Trimmed(comment)
    requires comment != Described(x, names[|names| - 1] + "/" + "src" + "/" + name)
    ensures var file := names[|names| - 1] + "/" + "src" + "/" + name;
            var doc := Generate(x, preamble, Sections(names, texts), roots, [file], map[file := comment], order);
            GeneratedFrom(x, preamble, Sections(names, texts), roots, [file], doc) != doc
  {
    var dir := names[|names| - 1];
    OneSourceFile(dir, name);
    LostIn(x, preamble, names, texts, roots, name, map[dir + "/" + "src" + "/" + name := comment], order);
  }

  /** With a file of the last section whose recorded comment is not its description. */
  lemma LostIn(x: Settings, preamble: seq<string>, names: seq<string>, texts: seq<string>, roots: seq<string>,
               name: string, recorded: map<string, string>, order: map<string, nat>)
    requires IsPreamble(preamble) && TrimmedDescriptions(x) && Plain(names, texts) && TopEntries(names, roots)
    requires AllTrimmed(recorded) && name != ""
    requires var base := SectionAt(names, texts, |names|).base;
             var file := base + "/" + name;
             && GoodFiles([file]) && PathExists(base, [file])
             && Shown(base, [file], [name]) && !Shown(base, [file], ["src"])
             && file in recorded && recorded[file] != "" && recorded[file] != Described(x, file)
    ensures var files := [SectionAt(names, texts, |names|).base + "/" + name];
            var doc := Generate(x, preamble, Sections(names, texts), roots, files, recorded, order);
            GeneratedFrom(x, preamble, Sections(names, texts), roots, files, doc) != doc
  {
    var last := SectionAt(names, texts, |names|);
    var files := [last.base + "/" + name];
    CarriesComment(x, last, roots, name, recorded, order);
    RepositorySurvivesIff(x, preamble, names, texts, roots, files, CommentFor(x, recorded), order);
  }

  lemma CarriesComment(x: Settings, l: Layout, roots: seq<string>, name: string, recorded: map<string, string>,
                       order: map<string, nat>)
    requires l.recursive && l.base != "" && name != "" && l.base + "/" + name in recorded
    requires GoodFiles([l.base + "/" + name]) && Shown(l.base, [l.base + "/" + name], [name])
    requires recorded[l.base + "/" + name] != "" && recorded[l.base + "/" + name] != Described(x, l.base + "/" + name)
    ensures !OnlyDefaults(x, SourceOf(l, roots, [l.base + "/" + name]), CommentFor(x, recorded), order)
  {
    var files, c := [l.base + "/" + name], CommentFor(x, recorded);
    var src := SourceOf(l, roots, files);
    var entries := Displayed(x, src, c, order);
    TreeSectionShows(x, l, roots, files, c, order, [name]);
    var k :| 0 <= k < |entries| && entries[k].rel == [name];
    EntryCommentsAll(Prepare(x, order, src).nodes, src.base, [], c);
    SinglePath(l.base, name);
    assert !IsDefault(x, src.base, entries[k]);
  }

  /** So it is in this repository with a comment on App.tsx in frontend/src. */
  lemma FrontendCommentIsLost(x: Settings, preamble: seq<string>, roots: seq<string>, comment: string,
                              order: map<string, nat>)
    requires IsPreamble(preamble) && TrimmedDescriptions(x) && TopEntries(NAMES, roots)
    requires comment != "" && Trimmed(comment) && "frontend/src/App.tsx" !in x.descriptions
    ensures var file := "frontend" + "/" + "src" + "/" + "App.tsx";
            var layouts := Sections(NAMES, TEXTS);
            var doc := Generate(x, preamble, layouts, roots, [file], map[file := comment], order);
            GeneratedFrom(x, preamble, layouts, roots, [file], doc) != doc
  {
    RepositoryIsPlain();
    assert "frontend" + "/" + "src" + "/" + "App.tsx" == "frontend/src/App.tsx";
    FrontendIsLast();
    CommentIsLost(x, preamble, NAMES, TEXTS, roots, "App.tsx", comment, order);
  }

  lemma FrontendIsLast()
    ensures |NAMES| == 8 && NAMES[7] == "frontend" && IsPart("frontend") && GoodName("frontend")
    ensures IsPart("App.tsx") && GoodName("App.tsx") && "App.tsx" != "src"
  {
  }
}
