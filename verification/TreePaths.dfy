/** Building a tree from file paths, and why its printed paths never coincide
    (scripts/generate_project_structure.py). */
module TreePaths {
  import opened Collections
  import opened TreeDoc
  import opened TreeRoundTrip

  predicate NoSlash(s: string) { '/' !in s }

  /** A path component: what splitting at slashes leaves. */
  predicate IsPart(s: string) { s != "" && NoSlash(s) }

  ghost predicate AllParts(rel: seq<string>) { forall i :: 0 <= i < |rel| ==> IsPart(rel[i]) }

  // ---------------------------------------------------------------- joining is injective

  lemma {:induction false} FirstPartUnique(a: string, b: string, u: string, v: string)
    requires NoSlash(a) && NoSlash(b) && a + u == b + v
    requires (u == "" || u[0] == '/') && (v == "" || v[0] == '/')
    ensures a == b && u == v
  {
    assert a != "" ==> (a + u)[0] == a[0] && a[0] in a;
    assert b != "" ==> (b + v)[0] == b[0] && b[0] in b;
    assert a == "" ==> a + u == u;
    assert b == "" ==> b + v == v;
    if a != "" && b != "" {
      assert (a + u)[1..] == a[1..] + u && (b + v)[1..] == b[1..] + v;
      FirstPartUnique(a[1..], b[1..], u, v);
      assert a == [a[0]] + a[1..] && b == [b[0]] + b[1..];
    }
  }

  /** What follows the first part of a joined path. */
  function After(rel: seq<string>): string { if rel == [] then "" else "/" + Join(rel) }

  lemma {:induction false} JoinParts(rel: seq<string>)
    requires AllParts(rel) && rel != []
    ensures Join(rel) != "" && Join(rel) == rel[0] + After(rel[1..])
  {
    if |rel| > 1 {
      JoinParts(rel[1..]);
      assert rel[0] + "/" + Join(rel[1..]) == rel[0] + After(rel[1..]);
    } else {
      assert rel[0] + "" == rel[0];
    }
  }

  lemma {:induction false} JoinInjective(a: seq<string>, b: seq<string>)
    requires AllParts(a) && AllParts(b) && Join(a) == Join(b)
    ensures a == b
  {
    if a != [] { JoinParts(a); }
    if b != [] { JoinParts(b); }
    if a != [] && b != [] {
      FirstPartUnique(a[0], b[0], After(a[1..]), After(b[1..]));
      SameAfter(a[1..], b[1..]);
      JoinInjective(a[1..], b[1..]);
      assert a == [a[0]] + a[1..] && b == [b[0]] + b[1..];
    }
  }

  lemma SameAfter(a: seq<string>, b: seq<string>)
    requires After(a) == After(b)
    ensures Join(a) == Join(b)
  {
    if a != [] && b != [] { assert After(a)[1..] == Join(a) && After(b)[1..] == Join(b); }
  }

  lemma PathUnder(base: string, rel: seq<string>)
    requires AllParts(rel) && rel != []
    ensures Path(base, rel) == if base == "" then Join(rel) else base + "/" + Join(rel)
  {
    assert ([base] + rel)[1..] == rel;
    JoinParts(rel);
  }

  /** Below one base, a path determines its components. */
  lemma PathInjective(base: string, a: seq<string>, b: seq<string>)
    requires AllParts(a) && AllParts(b) && a != [] && b != [] && Path(base, a) == Path(base, b)
    ensures a == b
  {
    PathUnder(base, a);
    PathUnder(base, b);
    if base != "" {
      assert Path(base, a)[|base| + 1..] == Join(a) && Path(base, b)[|base| + 1..] == Join(b);
    }
    JoinInjective(a, b);
  }

  /** An entry is found under its own path exactly if the title's base is the base path. */
  lemma FoundIffTitleMatches(titled: string, base: string, rel: seq<string>)
    requires AllParts(rel) && rel != []
    ensures Path(titled, rel) == Path(base, rel) <==> titled == base
  {
    PathUnder(titled, rel);
    PathUnder(base, rel);
    var tail := "/" + Join(rel);
    if Path(titled, rel) == Path(base, rel) {
      if titled != "" && base != "" {
        assert Path(titled, rel) == titled + tail && Path(base, rel) == base + tail;
        assert Path(titled, rel)[..|titled|] == titled && Path(base, rel)[..|base|] == base;
      }
    }
  }

  /** A title `base/ — description` names its base; the frontend section's does not name `frontend/src`. */
  lemma TitleGivesBase(base: string, description: string)
    requires '—' !in base && base != "" && !EndsWithSlash(base) && base != TOP_TITLE
    ensures SectionBaseFromTitle(base + "/ — " + description) == base
  {
    var title := base + "/ — " + description;
    BeforeDashOf(base + "/", description);
    assert title == (base + "/") + " — " + description;
    assert (base + "/")[..|base|] == base;
    assert StripSlashes(base + "/") == base;
    NotTopTitle(title, |base| + 2);
  }

  lemma NotTopTitle(title: string, i: nat)
    requires i < |title| && title[i] == '—'
    ensures title != TOP_TITLE
  {
    assert |TOP_TITLE| == 6;
    assert i < 6 ==> TOP_TITLE[i] in {'최', '상', '위', ' ', '구', '조'};
  }

  lemma {:induction false} BeforeDashOf(s: string, description: string)
    requires '—' !in s
    ensures BeforeDash(s + " — " + description) == s
  {
    var t := s + " — " + description;
    if s == "" {
      assert t[..3] == " — ";
    } else {
      assert t[1..] == s[1..] + " — " + description;
      assert t[..3][1] != '—' by {
        if |s| > 1 { assert s[1] == t[1] && s[1] in s; } else { assert t[1] == ' '; }
      }
      BeforeDashOf(s[1..], description);
      assert s == [s[0]] + s[1..];
    }
  }

  lemma FrontendMismatch(description: string)
    ensures SectionBaseFromTitle("frontend/ — " + description) == "frontend" != "frontend/src"
    ensures Path("frontend", ["App.tsx"]) != Path("frontend/src", ["App.tsx"])
  {
    TitleGivesBase("frontend", description);
    assert "frontend" + "/ — " == "frontend/ — ";
    FoundIffTitleMatches("frontend", "frontend/src", ["App.tsx"]);
  }

  // ---------------------------------------------------------------- distinct paths

  /** Below every directory, names are path components and no two siblings share one. */
  ghost predicate Distinct(ns: seq<Node>)
  {
    && (forall i :: 0 <= i < |ns| ==> IsPart(ns[i].name) && Distinct(ns[i].children))
    && (forall i, j :: 0 <= i < j < |ns| ==> ns[i].name != ns[j].name)
  }

  ghost predicate Under(entries: seq<Entry>, rel: seq<string>)
  {
    forall k :: 0 <= k < |entries| ==> rel <= entries[k].rel && AllParts(entries[k].rel)
  }

  ghost predicate NoRepeatRel(entries: seq<Entry>)
  {
    forall i, j :: 0 <= i < j < |entries| ==> entries[i].rel != entries[j].rel
  }

  lemma {:induction false} EntriesDistinct(n: Node, base: string, above: seq<string>, c: Comments)
    requires IsPart(n.name) && Distinct(n.children) && AllParts(above)
    ensures var entries := Entries(n, base, above, c); Under(entries, above + [n.name]) && NoRepeatRel(entries)
    decreases n, 1
  {
    if n.isDir {
      var rel := above + [n.name];
      var inside := EntriesOfAll(n.children, base, rel, c);
      EntriesOfAllDistinct(n.children, base, rel, c);
      forall k | 0 <= k < |inside| ensures inside[k].rel != rel {
        var i :| 0 <= i < |n.children| && rel + [n.children[i].name] <= inside[k].rel;
      }
    }
  }

  lemma {:induction false} EntriesOfAllDistinct(ns: seq<Node>, base: string, above: seq<string>, c: Comments)
    requires Distinct(ns) && AllParts(above)
    ensures var entries := EntriesOfAll(ns, base, above, c);
            && Under(entries, above) && NoRepeatRel(entries)
            && forall k :: 0 <= k < |entries| ==> UnderSome(ns, above, entries[k])
    decreases ns, 0
  {
    if ns != [] {
      var first, rest := Entries(ns[0], base, above, c), EntriesOfAll(ns[1..], base, above, c);
      EntriesDistinct(ns[0], base, above, c);
      EntriesOfAllDistinct(ns[1..], base, above, c);
      forall k | 0 <= k < |rest| ensures UnderSome(ns, above, rest[k]) {
        var i :| 0 <= i < |ns[1..]| && above + [ns[1..][i].name] <= rest[k].rel;
        assert above + [ns[i + 1].name] <= rest[k].rel;
      }
      forall k | 0 <= k < |first| ensures UnderSome(ns, above, first[k]) {
        assert above + [ns[0].name] <= first[k].rel;
      }
      forall j, k | 0 <= j < |first| && 0 <= k < |rest| ensures first[j].rel != rest[k].rel {
        OthersElsewhere(ns, above, first[j], rest[k]);
      }
    }
  }

  ghost predicate UnderSome(ns: seq<Node>, above: seq<string>, e: Entry)
  {
    exists i :: 0 <= i < |ns| && above + [ns[i].name] <= e.rel
  }

  /** An entry below the first sibling is not one below another. */
  lemma OthersElsewhere(ns: seq<Node>, above: seq<string>, e: Entry, e': Entry)
    requires Distinct(ns) && ns != [] && above + [ns[0].name] <= e.rel && UnderSome(ns[1..], above, e')
    ensures e.rel != e'.rel
  {
    var i :| 0 <= i < |ns[1..]| && above + [ns[1..][i].name] <= e'.rel;
    assert e.rel[|above|] == ns[0].name && e'.rel[|above|] == ns[i + 1].name;
  }

  /** No two entries of one section are printed under the same path. */
  lemma TreePathsDistinct(ns: seq<Node>, base: string, titled: string, c: Comments)
    requires Distinct(ns)
    ensures NoRepeat(List(titled, EntriesOfAll(ns, base, [], c)))
  {
    var entries := EntriesOfAll(ns, base, [], c);
    EntriesOfAllDistinct(ns, base, [], c);
    forall i, j | 0 <= i < j < |entries| ensures Path(titled, entries[i].rel) != Path(titled, entries[j].rel) {
      assert entries[i].rel != [] && entries[j].rel != [];
      if Path(titled, entries[i].rel) == Path(titled, entries[j].rel) {
        PathInjective(titled, entries[i].rel, entries[j].rel);
      }
    }
  }

  // ---------------------------------------------------------------- building the tree

  /** The non-empty parts between slashes. */
  function Parts(s: string): seq<string>
  {
    if s == "" then []
    else if s[0] == '/' then Parts(s[1..])
    else
      var n := PartLength(s);
      [s[..n]] + Parts(s[n..])
  }

  function PartLength(s: string): (n: nat)
    ensures n <= |s| && (s != "" && s[0] != '/' ==> n > 0)
  {
    if s == "" || s[0] == '/' then 0 else 1 + PartLength(s[1..])
  }

  lemma {:induction false} PartLengthStops(s: string)
    ensures NoSlash(s[..PartLength(s)])
  {
    if s != "" && s[0] != '/' {
      PartLengthStops(s[1..]);
      assert s[..PartLength(s)] == [s[0]] + s[1..][..PartLength(s[1..])];
    }
  }

  lemma {:induction false} PartsAreParts(s: string)
    ensures AllParts(Parts(s))
    decreases |s|
  {
    if s != "" {
      if s[0] == '/' {
        PartsAreParts(s[1..]);
      } else {
        PartLengthStops(s);
        PartsAreParts(s[PartLength(s)..]);
      }
    }
  }

  /** Where a sibling of this name is, or how many there are. */
  function Find(ns: seq<Node>, name: string): (i: nat)
    ensures i <= |ns| && (i < |ns| ==> ns[i].name == name)
  {
    if ns == [] || ns[0].name == name then 0 else 1 + Find(ns[1..], name)
  }

  lemma {:induction false} FindMisses(ns: seq<Node>, name: string)
    requires Find(ns, name) == |ns|
    ensures forall i :: 0 <= i < |ns| ==> ns[i].name != name
  {
    if ns != [] { FindMisses(ns[1..], name); }
  }

  /** Walk down one file's components, adding what is missing; all but the last are directories. */
  function AddFile(ns: seq<Node>, parts: seq<string>): seq<Node>
    decreases |parts|
  {
    if parts == [] then ns
    else
      var i, isDir := Find(ns, parts[0]), |parts| > 1;
      if i == |ns| then ns + [Node(parts[0], isDir, AddFile([], parts[1..]))]
      else ns[i := Node(parts[0], ns[i].isDir || isDir, AddFile(ns[i].children, parts[1..]))]
  }

  /** The components of a file below the base; None when the section does not show it. */
  function Relative(base: string, file: string): Option<seq<string>>
  {
    if base == "" then if '/' in file then Some(Parts(file)) else None
    else if base + "/" <= file then Some(Parts(file[|base| + 1..]))
    else None
  }

  function Tree(base: string, files: seq<string>): seq<Node>
  {
    if files == [] then []
    else
      var before, rel := Tree(base, files[..|files| - 1]), Relative(base, files[|files| - 1]);
      if rel.None? then before else AddFile(before, rel.value)
  }

  method BuildTree(base: string, files: seq<string>) returns (root: seq<Node>)
    ensures root == Tree(base, files)
  {
    root := [];
    for i := 0 to |files|
      invariant root == Tree(base, files[..i])
    {
      assert files[..i + 1][..i] == files[..i];
      var file := files[i];
      if base != "" && !(base + "/" <= file) { continue; }
      if base == "" && '/' !in file { continue; }
      var parts := Parts(if base == "" then file else file[|base| + 1..]);
      if parts == [] { continue; }
      root := AddFile(root, parts);
    }
    assert files[..|files|] == files;
  }

  ghost predicate InTree(ns: seq<Node>, rel: seq<string>)
    decreases |rel|
  {
    rel != [] && exists i :: 0 <= i < |ns| && ns[i].name == rel[0] && (|rel| == 1 || InTree(ns[i].children, rel[1..]))
  }

  /** A node is a directory exactly if something lies below it. */
  ghost predicate DirsHold(ns: seq<Node>)
  {
    forall i :: 0 <= i < |ns| ==> (ns[i].isDir <==> ns[i].children != []) && DirsHold(ns[i].children)
  }

  lemma {:induction false} AddKeepsDistinct(ns: seq<Node>, parts: seq<string>)
    requires Distinct(ns) && DirsHold(ns) && AllParts(parts)
    ensures Distinct(AddFile(ns, parts)) && DirsHold(AddFile(ns, parts))
    ensures parts != [] ==> AddFile(ns, parts) != []
    decreases |parts|
  {
    if parts != [] {
      var i := Find(ns, parts[0]);
      if i == |ns| {
        FindMisses(ns, parts[0]);
        AddKeepsDistinct([], parts[1..]);
      } else {
        AddKeepsDistinct(ns[i].children, parts[1..]);
      }
    }
  }

  /** With distinct siblings, only the sibling of the first name can lead to a path. */
  lemma InTreeThrough(ns: seq<Node>, rel: seq<string>, i: nat)
    requires Distinct(ns) && rel != [] && i < |ns| && ns[i].name == rel[0]
    ensures InTree(ns, rel) <==> |rel| == 1 || InTree(ns[i].children, rel[1..])
  {
  }

  /** Adding a file adds exactly the file and the directories above it. */
  lemma {:induction false} AddAdds(ns: seq<Node>, parts: seq<string>, rel: seq<string>)
    requires Distinct(ns) && DirsHold(ns) && AllParts(parts) && rel != []
    ensures InTree(AddFile(ns, parts), rel) <==> InTree(ns, rel) || rel <= parts
    decreases |parts|
  {
    if parts != [] {
      AddKeepsDistinct(ns, parts);
      var i, ns' := Find(ns, parts[0]), AddFile(ns, parts);
      if rel[0] == parts[0] {
        InTreeThrough(ns', rel, i);
        if i < |ns| { InTreeThrough(ns, rel, i); } else { FindMisses(ns, parts[0]); }
        if |rel| > 1 {
          AddAdds(if i < |ns| then ns[i].children else [], parts[1..], rel[1..]);
          assert rel == [rel[0]] + rel[1..] && parts == [parts[0]] + parts[1..];
          assert rel <= parts <==> rel[1..] <= parts[1..];
        }
      } else {
        OtherNames(ns, ns', rel, i);
      }
    }
  }

  lemma OtherNames(ns: seq<Node>, ns': seq<Node>, rel: seq<string>, i: nat)
    requires rel != [] && |ns| <= |ns'| <= |ns| + 1 && i < |ns'|
    requires forall k :: 0 <= k < |ns'| && k != i ==> k < |ns| && ns'[k] == ns[k]
    requires ns'[i].name != rel[0] && (i < |ns| ==> ns[i].name == ns'[i].name)
    ensures InTree(ns', rel) <==> InTree(ns, rel)
  {
    if InTree(ns, rel) {
      var k :| 0 <= k < |ns| && ns[k].name == rel[0] && (|rel| == 1 || InTree(ns[k].children, rel[1..]));
      assert ns'[k] == ns[k];
    }
    if InTree(ns', rel) {
      var k :| 0 <= k < |ns'| && ns'[k].name == rel[0] && (|rel| == 1 || InTree(ns'[k].children, rel[1..]));
      assert ns'[k] == ns[k];
    }
  }

  lemma RelativeParts(base: string, file: string)
    ensures Relative(base, file).Some? ==> AllParts(Relative(base, file).value)
  {
    PartsAreParts(file);
    if base + "/" <= file { PartsAreParts(file[|base| + 1..]); }
  }

  ghost predicate Shows(base: string, files: seq<string>, rel: seq<string>, k: int)
  {
    0 <= k < |files| && Relative(base, files[k]).Some? && rel <= Relative(base, files[k]).value
  }

  ghost predicate Shown(base: string, files: seq<string>, rel: seq<string>) { exists k :: Shows(base, files, rel, k) }

  lemma ShowsMore(base: string, files: seq<string>, rel: seq<string>)
    requires files != []
    ensures Shown(base, files, rel)
            <==> Shown(base, files[..|files| - 1], rel) || Shows(base, files, rel, |files| - 1)
  {
    var init := files[..|files| - 1];
    if Shown(base, files, rel) {
      var k :| Shows(base, files, rel, k);
      assert k < |init| ==> Shows(base, init, rel, k);
    }
    if Shown(base, init, rel) {
      var k :| Shows(base, init, rel, k);
      assert Shows(base, files, rel, k);
    }
  }

  /** The built tree has distinct siblings and consists of exactly the files of the section and the
      directories above them. */
  lemma {:induction false} TreeOfFiles(base: string, files: seq<string>, rel: seq<string>)
    requires rel != []
    ensures Distinct(Tree(base, files)) && DirsHold(Tree(base, files))
    ensures InTree(Tree(base, files), rel) <==> Shown(base, files, rel)
  {
    if files != [] {
      var init, file := files[..|files| - 1], files[|files| - 1];
      TreeOfFiles(base, init, rel);
      RelativeParts(base, file);
      ShowsMore(base, files, rel);
      var parts := Relative(base, file);
      if parts.Some? {
        AddKeepsDistinct(Tree(base, init), parts.value);
        AddAdds(Tree(base, init), parts.value, rel);
      }
    }
  }

  // ---------------------------------------------------------------- what is printed

  ghost predicate HasEntry(entries: seq<Entry>, rel: seq<string>)
  {
    exists k :: 0 <= k < |entries| && entries[k].rel == rel
  }

  lemma HasEntryConcat(a: seq<Entry>, b: seq<Entry>, rel: seq<string>)
    ensures HasEntry(a + b, rel) <==> HasEntry(a, rel) || HasEntry(b, rel)
  {
    if HasEntry(a, rel) {
      var k :| 0 <= k < |a| && a[k].rel == rel;
      assert (a + b)[k].rel == rel;
    }
    if HasEntry(b, rel) {
      var k :| 0 <= k < |b| && b[k].rel == rel;
      assert (a + b)[|a| + k].rel == rel;
    }
  }

  /** The entries of a section are exactly the paths of its tree. */
  lemma {:induction false} EntriesAreTree(ns: seq<Node>, base: string, above: seq<string>, c: Comments,
                                          rel: seq<string>)
    requires DirsHold(ns) && rel != []
    ensures HasEntry(EntriesOfAll(ns, base, above, c), above + rel) <==> InTree(ns, rel)
    decreases ns
  {
    if ns != [] {
      var n, rest := ns[0], ns[1..];
      EntriesAreTree(rest, base, above, c, rel);
      HasEntryConcat(Entries(n, base, above, c), EntriesOfAll(rest, base, above, c), above + rel);
      NodeEntries(n, base, above, c, rel);
      InTreeFirst(ns, rel);
    }
  }

  lemma InTreeFirst(ns: seq<Node>, rel: seq<string>)
    requires ns != [] && rel != []
    ensures InTree(ns, rel) <==>
            (ns[0].name == rel[0] && (|rel| == 1 || InTree(ns[0].children, rel[1..]))) || InTree(ns[1..], rel)
  {
    if InTree(ns[1..], rel) {
      var i :| 0 <= i < |ns[1..]| && ns[1..][i].name == rel[0] && (|rel| == 1 || InTree(ns[1..][i].children, rel[1..]));
      assert ns[i + 1] == ns[1..][i];
    }
    if InTree(ns, rel) {
      var i :| 0 <= i < |ns| && ns[i].name == rel[0] && (|rel| == 1 || InTree(ns[i].children, rel[1..]));
      if i > 0 { assert ns[1..][i - 1] == ns[i]; }
    }
  }

  lemma {:induction false} NodeEntries(n: Node, base: string, above: seq<string>, c: Comments, rel: seq<string>)
    requires (n.isDir <==> n.children != []) && DirsHold(n.children) && rel != []
    ensures HasEntry(Entries(n, base, above, c), above + rel)
            <==> n.name == rel[0] && (|rel| == 1 || InTree(n.children, rel[1..]))
    decreases n
  {
    var own := above + [n.name];
    var head := [Entry(own, c(Path(base, own)))];
    var inside := if n.isDir then EntriesOfAll(n.children, base, own, c) else [];
    HasEntryConcat(head, inside, above + rel);
    assert HasEntry(head, above + rel) <==> rel == [n.name] by {
      assert head[0].rel == own;
      assert (above + rel)[|above|..] == rel && own[|above|..] == [n.name];
    }
    if n.isDir { EntriesBelow(n.children, base, own, c); }
    if rel[0] == n.name && |rel| > 1 {
      assert above + rel == own + rel[1..];
      if n.isDir { EntriesAreTree(n.children, base, own, c, rel[1..]); }
    } else {
      assert (above + rel)[|above|] == rel[0];
      forall k | 0 <= k < |inside| ensures inside[k].rel != above + rel {
        assert own < inside[k].rel && inside[k].rel[|above|] == n.name;
      }
    }
  }

  lemma {:induction false} EntriesBelow(ns: seq<Node>, base: string, above: seq<string>, c: Comments)
    ensures forall k :: 0 <= k < |EntriesOfAll(ns, base, above, c)| ==> above < EntriesOfAll(ns, base, above, c)[k].rel
    decreases ns, 0
  {
    if ns != [] {
      EntriesBelow(ns[1..], base, above, c);
      var own := above + [ns[0].name];
      if ns[0].isDir { EntriesBelow(ns[0].children, base, own, c); }
      forall k | 0 <= k < |Entries(ns[0], base, above, c)| ensures above < Entries(ns[0], base, above, c)[k].rel {
        assert own <= Entries(ns[0], base, above, c)[k].rel;
      }
    }
  }
}
