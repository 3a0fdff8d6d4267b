/** What any document says of a path when it is read, and what becomes of a comment when the document is made anew
    (scripts/generate_project_structure.py). */
module TreeReading {
  import opened Strings
  import opened TreeDoc
  import opened TreeRoundTrip
  import opened TreeFixedPoint
  import opened TreeRegeneration
  import opened TreeDocuments

  // ---------------------------------------------------------------- any document

  /** A line names the path it stands for, and perhaps describes it. */
  datatype Mention = Mention(path: string, comment: string)

  /** What a line mentions: only tree lines between fences do; what they stand for depends on the lines before. */
  function MentionOf(s: Scan, line: string): seq<Mention>
  {
    if "## " <= line || line == "```" || !s.fenced || MatchLine(line).None? then []
    else
      var m := MatchLine(line).value;
      [Mention(Path(s.base, Take(s.stack, m.prefix / 4) + [StripSlashes(StripRight(m.name))]), m.comment)]
  }

  function Mentions(s: Scan, lines: seq<string>): seq<Mention>
    decreases lines
  {
    if lines == [] then [] else MentionOf(s, lines[0]) + Mentions(ReadLine(s, lines[0]), lines[1..])
  }

  /** Every rank is below the number of paths. */
  ghost predicate Ranked(order: map<string, nat>) { forall p :: p in order ==> order[p] < |order| }

  /** Known paths keep their ranks, and new ones come after all of them. */
  ghost predicate RanksAfter(a: map<string, nat>, b: map<string, nat>)
  {
    && |a| <= |b| && (forall p :: p in a ==> p in b && b[p] == a[p])
    && forall p :: p in b && p !in a ==> |a| <= b[p]
  }

  /** The ranks after some more mentions. */
  function Ordered(order: map<string, nat>, ms: seq<Mention>): map<string, nat>
    decreases ms
  {
    if ms == [] then order else Ordered(SetDefault(order, ms[0].path), ms[1..])
  }

  lemma LineOrders(s: Scan, line: string)
    ensures |MentionOf(s, line)| <= 1
    ensures ReadLine(s, line).order
            == if MentionOf(s, line) == [] then s.order else SetDefault(s.order, MentionOf(s, line)[0].path)
  {
  }

  lemma {:induction false} LinesOrder(s: Scan, lines: seq<string>)
    ensures ReadLines(s, lines).order == Ordered(s.order, Mentions(s, lines))
    decreases lines
  {
    if lines != [] {
      var s1, here := ReadLine(s, lines[0]), MentionOf(s, lines[0]);
      LineOrders(s, lines[0]);
      LinesOrder(s1, lines[1..]);
      if here == [] {
        assert here + Mentions(s1, lines[1..]) == Mentions(s1, lines[1..]);
      } else {
        assert (here + Mentions(s1, lines[1..]))[1..] == Mentions(s1, lines[1..]);
      }
    }
  }

  lemma DefaultRanks(order: map<string, nat>, path: string)
    requires Ranked(order)
    ensures var now := SetDefault(order, path);
            && Ranked(now) && RanksAfter(order, now) && now.Keys == order.Keys + {path}
            && (path !in order ==> now[path] == |order| && |now| == |order| + 1)
  {
  }

  lemma {:induction false} MoreRankAfter(order: map<string, nat>, ms: seq<Mention>)
    requires Ranked(order)
    ensures RanksAfter(order, Ordered(order, ms))
    decreases ms
  {
    if ms != [] {
      DefaultRanks(order, ms[0].path);
      MoreRankAfter(SetDefault(order, ms[0].path), ms[1..]);
    }
  }

  lemma {:induction false} KnownIsMentioned(order: map<string, nat>, ms: seq<Mention>, path: string)
    ensures path in Ordered(order, ms) <==> path in order || exists i :: 0 <= i < |ms| && ms[i].path == path
    decreases ms
  {
    if ms != [] {
      KnownIsMentioned(SetDefault(order, ms[0].path), ms[1..], path);
      assert forall i :: 0 <= i < |ms[1..]| ==> ms[1..][i] == ms[i + 1];
      assert forall i :: 1 <= i < |ms| ==> ms[i] == ms[1..][i - 1];
    }
  }

  ghost predicate FirstOf(ms: seq<Mention>, k: nat, path: string)
  {
    k < |ms| && ms[k].path == path && forall i :: 0 <= i < k ==> ms[i].path != path
  }

  lemma FirstMoves(ms: seq<Mention>, k: nat, path: string)
    requires FirstOf(ms, k, path) && k > 0
    ensures ms[0].path != path && FirstOf(ms[1..], k - 1, path)
  {
  }

  lemma {:induction false} EarlierRanksLower(order: map<string, nat>, ms: seq<Mention>, p: string, k: nat, q: string,
                                             l: nat)
    requires Ranked(order) && p !in order && q !in order && k < l && FirstOf(ms, k, p) && FirstOf(ms, l, q)
    ensures var now := Ordered(order, ms); p in now && q in now && now[p] < now[q]
    decreases ms
  {
    var next := SetDefault(order, ms[0].path);
    DefaultRanks(order, ms[0].path);
    FirstMoves(ms, l, q);
    if k > 0 {
      FirstMoves(ms, k, p);
      EarlierRanksLower(next, ms[1..], p, k - 1, q, l - 1);
    } else {
      MoreRankAfter(next, ms[1..]);
      KnownIsMentioned(next, ms[1..], q);
    }
  }

  /** Whatever the document: its paths are those it mentions, ranked by where each is mentioned first. */
  lemma OrderIsOfFirstMentions(lines: seq<string>, p: string, k: nat, q: string, l: nat)
    ensures p in ReadLines(START, lines).order <==>
            exists i :: 0 <= i < |Mentions(START, lines)| && Mentions(START, lines)[i].path == p
    ensures FirstOf(Mentions(START, lines), k, p) && FirstOf(Mentions(START, lines), l, q) ==>
              var order := ReadLines(START, lines).order;
              p in order && q in order && (order[p] < order[q] <==> k < l)
  {
    var ms := Mentions(START, lines);
    LinesOrder(START, lines);
    KnownIsMentioned(map[], ms, p);
    KnownIsMentioned(map[], ms, q);
    if FirstOf(ms, k, p) && FirstOf(ms, l, q) {
      if k < l { EarlierRanksLower(map[], ms, p, k, q, l); }
      if l < k { EarlierRanksLower(map[], ms, q, l, p, k); }
    }
  }

  /** The comment of the last mention that has one, if there is any. */
  function LastComment(ms: seq<Mention>, path: string): string
  {
    if ms == [] then ""
    else if ms[|ms| - 1].path == path && ms[|ms| - 1].comment != "" then ms[|ms| - 1].comment
    else LastComment(ms[..|ms| - 1], path)
  }

  lemma {:induction false} LastCommentConcat(a: seq<Mention>, b: seq<Mention>, path: string)
    ensures LastComment(a + b, path)
            == if LastComment(b, path) == "" then LastComment(a, path) else LastComment(b, path)
  {
    if b == [] {
      assert a + b == a;
    } else {
      assert (a + b)[..|a + b| - 1] == a + b[..|b| - 1];
      LastCommentConcat(a, b[..|b| - 1], path);
    }
  }

  /** A comment takes the place of what was known; without one that stays. */
  ghost predicate Tells(before: map<string, string>, now: map<string, string>, told: string, path: string)
  {
    if told != "" then path in now && now[path] == StripRight(told)
    else if path in before then path in now && now[path] == before[path]
    else path !in now
  }

  lemma LineComments(s: Scan, line: string, path: string)
    ensures Tells(s.comments, ReadLine(s, line).comments, LastComment(MentionOf(s, line), path), path)
  {
    var ms := MentionOf(s, line);
    if ms != [] {
      assert ms[..0] == [] && LastComment(ms[..0], path) == "";
      assert ReadLine(s, line).comments == PutComment(s.comments, ms[0].path, ms[0].comment);
    }
  }

  /** Whatever the document: the comment of a path is the last one that stands beside it, without trailing blanks. */
  lemma {:induction false} CommentIsOfLastMention(s: Scan, lines: seq<string>, path: string)
    ensures Tells(s.comments, ReadLines(s, lines).comments, LastComment(Mentions(s, lines), path), path)
    decreases lines
  {
    if lines != [] {
      var s1 := ReadLine(s, lines[0]);
      LineComments(s, lines[0], path);
      CommentIsOfLastMention(s1, lines[1..], path);
      LastCommentConcat(MentionOf(s, lines[0]), Mentions(s1, lines[1..]), path);
    }
  }

  // ---------------------------------------------------------------- a document made anew

  /** Every entry carries the comment of the path under which it is found again. */
  ghost predicate CommentedBy(listed: seq<Listed>, c: Comments)
  {
    forall k :: 0 <= k < |listed| ==> listed[k].comment == c(listed[k].path)
  }

  lemma {:induction false} ListingCommented(x: Settings, srcs: seq<Source>, c: Comments, order: map<string, nat>)
    requires forall i :: 0 <= i < |srcs| ==> TitleMatches(srcs[i])
    ensures CommentedBy(WholeListing(x, srcs, c, order), c)
  {
    if srcs != [] {
      ListingCommented(x, srcs[1..], c, order);
      ListingSplits(x, srcs, c, order);
      EntryCommentsAll(Prepare(x, order, srcs[0]).nodes, srcs[0].base, [], c);
      assert CommentedBy(ReadBack(x, srcs[0], c, order), c);
    }
  }

  /** With titles that name their bases, a listed path has in the new document the comment it had in the old one, or
      else its built-in description, or else none. */
  lemma CommentsCarryOver(x: Settings, preamble: seq<string>, layouts: seq<Layout>, roots: seq<string>,
                          files: seq<string>, former: seq<string>, path: string)
    requires IsPreamble(preamble) && TrimmedDescriptions(x)
    requires WellPlaced(layouts, roots) && GoodRoots(roots) && GoodFiles(files)
    requires forall i :: 0 <= i < |layouts| ==> TitledBase(layouts[i]) == layouts[i].base
    requires InDocument(layouts, roots, files, path)
    ensures var was := ReadLines(START, former).comments;
            var now := ReadLines(START, Update(x, preamble, layouts, roots, files, former)).comments;
            if path in was && was[path] != "" then path in now && now[path] == was[path]
            else if path in x.descriptions && x.descriptions[path] != ""
            then path in now && now[path] == x.descriptions[path]
            else path !in now
  {
    var was := ReadLines(START, former);
    var srcs, c := Sources(layouts, roots, files), CommentFor(x, was.comments);
    var listed := WholeListing(x, srcs, c, was.order);
    LookupTrims(x, former);
    SourcesAreLaid(layouts, roots, files);
    LaidIsReadable(x, srcs, c, was.order);
    RoundTrip(preamble, PrepareAll(x, was.order, srcs), c);
    ListingShows(x, layouts, roots, files, c, was.order, path);
    SourcesMatch(layouts, roots, files);
    ListingCommented(x, srcs, c, was.order);
    var k :| 0 <= k < |listed| && listed[k].path == path;
    assert listed[k].comment == c(path);
  }

  lemma SourcesMatch(layouts: seq<Layout>, roots: seq<string>, files: seq<string>)
    requires forall i :: 0 <= i < |layouts| ==> TitledBase(layouts[i]) == layouts[i].base
    ensures forall i :: 0 <= i < |Sources(layouts, roots, files)| ==> TitleMatches(Sources(layouts, roots, files)[i])
  {
    var srcs := Sources(layouts, roots, files);
    forall i | 0 <= i < |srcs| ensures TitleMatches(srcs[i]) {
      SourcesFrom(layouts, roots, files, srcs[i]);
      assert srcs[i] in srcs;
    }
  }

  /** A section is shown if it has no base path, or some file is that path or lies below it. */
  lemma SectionsShown(layouts: seq<Layout>, roots: seq<string>, files: seq<string>, src: Source)
    ensures src in Sources(layouts, roots, files) <==>
            exists i :: 0 <= i < |layouts| && ShowsSection(layouts[i], files)
                        && src == SourceOf(layouts[i], roots, files)
  {
    SourcesFrom(layouts, roots, files, src);
    forall i | 0 <= i < |layouts| ensures Present(layouts[i], files) <==> ShowsSection(layouts[i], files) {
    }
  }

  ghost predicate ShowsSection(l: Layout, files: seq<string>)
  {
    l.base == "" || exists k :: 0 <= k < |files| && (files[k] == l.base || l.base + "/" <= files[k])
  }
}
