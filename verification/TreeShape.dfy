/** How the tree is drawn, in which order siblings come, and under which paths files are listed, character by character
    (scripts/generate_project_structure.py). */
module TreeShape {
  import opened Strings
  import opened TreeDoc
  import opened TreePaths
  import opened TreeRoundTrip
  import opened TreeFixedPoint
  import opened TreeRegeneration
  import opened TreeDocuments

  // ---------------------------------------------------------------- the lines

  /** A node's first line is its prefix, a corner if it is the last of its siblings and a tee otherwise, and its
      name; all lines below it continue the prefix with a bar exactly if more siblings follow. */
  lemma {:induction false} NodeIsDrawn(n: Node, base: string, above: seq<string>, prefix: string, last: bool,
                                       c: Comments)
    ensures var lines := FormatNode(n, base, above, prefix, last, c);
            && lines != []
            && prefix + (if last then "└── " else "├── ") + n.name + (if n.isDir then "/" else "") <= lines[0]
            && forall k :: 1 <= k < |lines| ==> prefix + (if last then "    " else "│   ") <= lines[k]
    decreases n, 1
  {
    HeadIsDrawn(n, prefix, last, c(Path(base, above + [n.name])));
    if n.isDir { SiblingsAreDrawn(n.children, base, above + [n.name], prefix + (if last then "    " else "│   "), c); }
  }

  lemma HeadIsDrawn(n: Node, prefix: string, last: bool, comment: string)
    ensures prefix + (if last then "└── " else "├── ") + n.name + (if n.isDir then "/" else "")
            <= AppendComment(Head(n, prefix, last), comment)
  {
    var drawn := prefix + (if last then "└── " else "├── ") + n.name + (if n.isDir then "/" else "");
    assert Head(n, prefix, last) == drawn;
  }

  /** Siblings are drawn one after the other, and only the last of them as the last. */
  lemma {:induction false} SiblingsAreDrawn(ns: seq<Node>, base: string, above: seq<string>, prefix: string,
                                            c: Comments)
    ensures var lines := FormatAll(ns, base, above, prefix, c);
            forall k :: 0 <= k < |lines| ==> prefix <= lines[k]
    ensures |ns| == 1 ==> FormatAll(ns, base, above, prefix, c) == FormatNode(ns[0], base, above, prefix, true, c)
    ensures |ns| > 1 ==> FormatAll(ns, base, above, prefix, c)
                         == FormatNode(ns[0], base, above, prefix, false, c)
                            + FormatAll(ns[1..], base, above, prefix, c)
    decreases ns, 0
  {
    if ns != [] {
      NodeIsDrawn(ns[0], base, above, prefix, |ns| == 1, c);
      SiblingsAreDrawn(ns[1..], base, above, prefix, c);
      var first := FormatNode(ns[0], base, above, prefix, |ns| == 1, c);
      var rest := FormatAll(ns[1..], base, above, prefix, c);
      forall k | 0 <= k < |first| ensures prefix <= first[k] {
        PrefixOfLine(prefix, first[k], |ns| == 1, ns[0].name + (if ns[0].isDir then "/" else ""), k == 0);
      }
      if |ns| == 1 { assert rest == [] && first + [] == first; }
    }
  }

  lemma PrefixOfLine(prefix: string, line: string, last: bool, name: string, head: bool)
    requires if head then prefix + (if last then "└── " else "├── ") + name <= line
             else prefix + (if last then "    " else "│   ") <= line
    ensures prefix <= line
  {
    if head {
      assert prefix + (if last then "└── " else "├── ") + name == prefix + ((if last then "└── " else "├── ") + name);
    }
  }

  /** A section: its title, a blank line, the label between fences with the tree below it, and a blank line. */
  lemma SectionIsFramed(x: Section, c: Comments)
    ensures var lines, tree := FormatSection(x, c), FormatAll(x.nodes, x.base, [], "", c);
            && |lines| == |tree| + 6 && lines[0] == "## " + x.title && lines[1] == "" && lines[2] == "```"
            && lines[3] == x.rootLabel && lines[4..4 + |tree|] == tree
            && lines[4 + |tree|] == "```" && lines[5 + |tree|] == ""
  {
    var tree := FormatAll(x.nodes, x.base, [], "", c);
    assert FormatSection(x, c) == ["## " + x.title, "", FENCE, x.rootLabel] + tree + [FENCE, ""];
  }

  // ---------------------------------------------------------------- the order of siblings

  /** Where a node stands in the known order; everything unknown comes after everything known. */
  function Standing(p: Place, n: Node): int
  {
    var path := Path(p.base, p.above + [n.name]);
    if path in p.order then p.order[path] else |p.order| + 1
  }

  /** `a` may come before `b`: earlier in the known order; else a directory before a file; else by lower-cased name. */
  ghost predicate MayPrecede(x: Settings, p: Place, a: Node, b: Node)
  {
    Standing(p, a) < Standing(p, b)
    || (Standing(p, a) == Standing(p, b)
        && ((a.isDir && !b.isDir) || (a.isDir == b.isDir && AtMost(x.lower(a.name), x.lower(b.name)))))
  }

  lemma KeyTransitive(a: SortKey, b: SortKey, c: SortKey)
    requires KeyLess(a, b) && KeyLess(b, c)
    ensures KeyLess(a, c)
  {
    if a.rank == b.rank == c.rank && a.kind == b.kind == c.kind { LessTransitive(a.name, b.name, c.name); }
  }

  ghost predicate InOrder(x: Settings, p: Place, ns: seq<Node>)
  {
    forall i, j :: 0 <= i < j < |ns| ==> !KeyLess(KeyOf(x, p, ns[j]), KeyOf(x, p, ns[i]))
  }

  lemma {:induction false} InsertInOrder(x: Settings, p: Place, n: Node, sorted: seq<Node>)
    requires InOrder(x, p, sorted)
    ensures InOrder(x, p, Insert(x, p, n, sorted))
    ensures forall m :: m in Insert(x, p, n, sorted) ==> m == n || m in sorted
  {
    if sorted == [] {
    } else if KeyLess(KeyOf(x, p, n), KeyOf(x, p, sorted[0])) {
      forall j | 0 <= j < |sorted| ensures !KeyLess(KeyOf(x, p, sorted[j]), KeyOf(x, p, n)) {
        if KeyLess(KeyOf(x, p, sorted[j]), KeyOf(x, p, n)) {
          KeyTransitive(KeyOf(x, p, sorted[j]), KeyOf(x, p, n), KeyOf(x, p, sorted[0]));
          KeyIrreflexive(KeyOf(x, p, sorted[0]));
        }
      }
    } else {
      InsertInOrder(x, p, n, sorted[1..]);
      var rest := Insert(x, p, n, sorted[1..]);
      forall j | 0 <= j < |rest| ensures !KeyLess(KeyOf(x, p, rest[j]), KeyOf(x, p, sorted[0])) {
        assert rest[j] in rest;
        if rest[j] != n {
          var i :| 0 <= i < |sorted[1..]| && sorted[1..][i] == rest[j];
          assert sorted[i + 1] == rest[j];
        }
      }
    }
  }

  lemma KeyIrreflexive(a: SortKey)
    ensures !KeyLess(a, a)
  {
    LessIrreflexive(a.name);
  }

  lemma {:induction false} SortInOrder(x: Settings, p: Place, ns: seq<Node>)
    ensures InOrder(x, p, SortChildren(x, p, ns))
  {
    if ns != [] {
      SortInOrder(x, p, ns[..|ns| - 1]);
      InsertInOrder(x, p, ns[|ns| - 1], SortChildren(x, p, ns[..|ns| - 1]));
    }
  }

  /** Of any two siblings, the one drawn first may precede the other. */
  lemma SiblingsInOrder(x: Settings, p: Place, ns: seq<Node>, i: nat, j: nat)
    requires i < j < |SortChildren(x, p, ns)|
    ensures MayPrecede(x, p, SortChildren(x, p, ns)[i], SortChildren(x, p, ns)[j])
  {
    SortInOrder(x, p, ns);
    var a, b := SortChildren(x, p, ns)[i], SortChildren(x, p, ns)[j];
    assert !KeyLess(KeyOf(x, p, b), KeyOf(x, p, a));
    LessTotal(x.lower(a.name), x.lower(b.name));
  }

  /** The nodes with one sort key, in their order. */
  function WithKey(x: Settings, p: Place, ns: seq<Node>, k: SortKey): seq<Node>
  {
    if ns == [] then []
    else if KeyOf(x, p, ns[0]) == k then [ns[0]] + WithKey(x, p, ns[1..], k)
    else WithKey(x, p, ns[1..], k)
  }

  lemma {:induction false} WithKeySnoc(x: Settings, p: Place, ns: seq<Node>, n: Node, k: SortKey)
    ensures WithKey(x, p, ns + [n], k) == WithKey(x, p, ns, k) + if KeyOf(x, p, n) == k then [n] else []
  {
    if ns == [] {
      assert WithKey(x, p, [n][1..], k) == [];
    } else {
      assert (ns + [n])[1..] == ns[1..] + [n];
      WithKeySnoc(x, p, ns[1..], n, k);
    }
  }

  lemma {:induction false} InsertIsStable(x: Settings, p: Place, n: Node, sorted: seq<Node>, k: SortKey)
    requires InOrder(x, p, sorted)
    ensures WithKey(x, p, Insert(x, p, n, sorted), k)
         == WithKey(x, p, sorted, k) + if KeyOf(x, p, n) == k then [n] else []
  {
    if sorted == [] {
    } else if KeyLess(KeyOf(x, p, n), KeyOf(x, p, sorted[0])) {
      assert ([n] + sorted)[1..] == sorted;
      if KeyOf(x, p, n) == k {
        NoneBelow(x, p, n, sorted);
        NoneWithKey(x, p, sorted, k);
      }
    } else {
      InsertIsStable(x, p, n, sorted[1..], k);
    }
  }

  lemma NoneBelow(x: Settings, p: Place, n: Node, sorted: seq<Node>)
    requires InOrder(x, p, sorted) && sorted != [] && KeyLess(KeyOf(x, p, n), KeyOf(x, p, sorted[0]))
    ensures forall j :: 0 <= j < |sorted| ==> KeyOf(x, p, sorted[j]) != KeyOf(x, p, n)
  {
    KeyIrreflexive(KeyOf(x, p, n));
  }

  lemma {:induction false} NoneWithKey(x: Settings, p: Place, ns: seq<Node>, k: SortKey)
    requires forall j :: 0 <= j < |ns| ==> KeyOf(x, p, ns[j]) != k
    ensures WithKey(x, p, ns, k) == []
  {
    if ns != [] { NoneWithKey(x, p, ns[1..], k); }
  }

  /** Siblings with equal keys stay in the order in which they were found. */
  lemma {:induction false} SortIsStable(x: Settings, p: Place, ns: seq<Node>, k: SortKey)
    ensures WithKey(x, p, SortChildren(x, p, ns), k) == WithKey(x, p, ns, k)
  {
    if ns != [] {
      var init, n := ns[..|ns| - 1], ns[|ns| - 1];
      SortIsStable(x, p, init, k);
      SortInOrder(x, p, init);
      InsertIsStable(x, p, n, SortChildren(x, p, init), k);
      WithKeySnoc(x, p, init, n, k);
      assert ns == init + [n];
    }
  }

  // ---------------------------------------------------------------- under which path a file is listed

  /** A path with no slash at its ends and no two in a row. */
  ghost predicate Normal(s: string)
  {
    && s != "" && s[0] != '/' && s[|s| - 1] != '/'
    && forall i :: 0 <= i < |s| - 1 ==> s[i] != '/' || s[i + 1] != '/'
  }

  lemma {:induction false} JoinOfParts(s: string)
    requires Normal(s)
    ensures Join(Parts(s)) == s && Parts(s) != []
    decreases |s|
  {
    var n := PartLength(s);
    PartEnds(s);
    if n < |s| {
      NormalRest(s, n);
      JoinOfParts(s[n + 1..]);
      FirstPart(s, n);
    } else {
      assert s[n..] == "" && s[..n] == s;
    }
  }

  lemma NormalRest(s: string, n: nat)
    requires Normal(s) && n < |s| && s[n] == '/'
    ensures Normal(s[n + 1..])
  {
    assert n < |s| - 1;
  }

  lemma FirstPart(s: string, n: nat)
    requires n == PartLength(s) && 0 < n < |s| && s[n] == '/' && Join(Parts(s[n + 1..])) == s[n + 1..] != ""
    ensures Join(Parts(s)) == s && Parts(s) != []
  {
    PartsFrom(s, n);
    JoinedParts(s, n, Parts(s[n + 1..]));
  }

  lemma JoinedParts(s: string, n: nat, parts: seq<string>)
    requires 0 < n < |s| && s[n] == '/' && Join(parts) == s[n + 1..] != ""
    ensures Join([s[..n]] + parts) == s
  {
    JoinFirst(s[..n], parts);
    assert s == s[..n] + "/" + s[n + 1..];
  }

  lemma PartsFrom(s: string, n: nat)
    requires n == PartLength(s) && 0 < n < |s| && s[n] == '/'
    ensures Parts(s) == [s[..n]] + Parts(s[n + 1..])
  {
    assert s[n..][1..] == s[n + 1..];
  }

  lemma JoinFirst(first: string, parts: seq<string>)
    requires first != "" && Join(parts) != ""
    ensures Join([first] + parts) == first + "/" + Join(parts)
  {
    assert ([first] + parts)[1..] == parts;
  }

  lemma {:induction false} PartEnds(s: string)
    ensures PartLength(s) < |s| ==> s[PartLength(s)] == '/'
  {
    if s != "" && s[0] != '/' { PartEnds(s[1..]); }
  }

  /** Every file below the base is listed, under its own path. */
  lemma FileIsInSection(l: Layout, roots: seq<string>, files: seq<string>, k: nat)
    requires l.recursive && l.base != "" && TitledBase(l) == l.base
    requires k < |files| && l.base + "/" <= files[k] && Normal(files[k])
    ensures Present(l, files) && InSection(l, roots, files, files[k])
  {
    var file := files[k];
    var rest := file[|l.base| + 1..];
    assert file == l.base + "/" + rest;
    NormalRest(file, |l.base|);
    JoinOfParts(rest);
    PartsAreParts(rest);
    PathUnder(l.base, Parts(rest));
    assert Shows(l.base, files, Parts(rest), k);
    assert ShowsAs(l, files, Parts(rest), file);
    assert HoldsFiles(l.base, files);
  }

  /** The top entries shown are exactly those that are a file or hold one, and they are drawn as directories exactly if
      they hold one. */
  lemma TopEntriesShown(l: Layout, roots: seq<string>, files: seq<string>, path: string)
    requires !l.recursive && TitledBase(l) == "" && forall i :: 0 <= i < |roots| ==> roots[i] != ""
    ensures InSection(l, roots, files, path)
            <==> path in roots && exists k :: 0 <= k < |files| && (files[k] == path || path + "/" <= files[k])
  {
    if r :| r in roots && PathExists(r, files) && path == Path(TitledBase(l), [r]) {
      SinglePath("", r);
      FilesOf(r, files);
    }
    if path in roots {
      SinglePath("", path);
      FilesOf(path, files);
    }
  }

  lemma FilesOf(path: string, files: seq<string>)
    ensures PathExists(path, files) <==> exists k :: 0 <= k < |files| && (files[k] == path || path + "/" <= files[k])
  {
  }

  lemma {:induction false} TopEntryIsDrawn(roots: seq<string>, files: seq<string>, n: Node)
    requires n in RootNodes(roots, files)
    ensures n.isDir <==> exists k :: 0 <= k < |files| && n.name + "/" <= files[k]
  {
    if n !in RootNodes(roots[1..], files) {
      assert n == Node(roots[0], HoldsFiles(roots[0], files), []);
    } else {
      TopEntryIsDrawn(roots[1..], files, n);
    }
  }

  /** Top entries are drawn in the order in which they are given. */
  lemma {:induction false} TopEntriesInOrder(first: seq<string>, more: seq<string>, files: seq<string>)
    ensures RootNodes(first + more, files) == RootNodes(first, files) + RootNodes(more, files)
  {
    if first == [] {
      assert first + more == more;
    } else {
      assert (first + more)[1..] == first[1..] + more;
      TopEntriesInOrder(first[1..], more, files);
    }
  }

  /** Sections come in the order in which they are given. */
  lemma {:induction false} SectionsInOrder(first: seq<Layout>, more: seq<Layout>, roots: seq<string>,
                                           files: seq<string>)
    ensures Sources(first + more, roots, files) == Sources(first, roots, files) + Sources(more, roots, files)
  {
    if first == [] {
      assert first + more == more;
    } else {
      assert (first + more)[1..] == first[1..] + more;
      SectionsInOrder(first[1..], more, roots, files);
    }
  }

  /** A tree section starts with its base path and a slash, the top section with the name of the project. */
  lemma SectionLabel(l: Layout, roots: seq<string>, files: seq<string>)
    ensures var src := SourceOf(l, roots, files);
            && src.title == l.title && src.base == l.base && src.recursive == l.recursive
            && (l.recursive && l.base != "" ==> src.rootLabel == l.base + "/")
            && (!l.recursive || l.base == "" ==> src.rootLabel == "ante/")
            && src.nodes == if l.recursive then Tree(l.base, files) else RootNodes(roots, files)
  {
  }
}
