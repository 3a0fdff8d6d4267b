/** The project-structure document: printing trees with box-drawing prefixes and comments, and reading them
    back (scripts/generate_project_structure.py). A document is its list of lines. */
module TreeDoc {
  import opened Collections
  import opened Strings

  const COMMENT_COLUMN := 38
  const FENCE := "```"
  const TOP_TITLE := "최상위 구조"
  const BAR := '│'
  const LAST := "└── "
  const MORE := "├── "

  datatype Node = Node(name: string, isDir: bool, children: seq<Node>)

  // ---------------------------------------------------------------- printing

  /** The non-empty parts, joined by slashes. */
  function Join(parts: seq<string>): string
  {
    if parts == [] then ""
    else if parts[0] == "" then Join(parts[1..])
    else if Join(parts[1..]) == "" then parts[0]
    else parts[0] + "/" + Join(parts[1..])
  }

  function Path(base: string, rel: seq<string>): string { Join([base] + rel) }

  function Spaces(n: nat): string { if n == 0 then "" else " " + Spaces(n - 1) }

  /** The comment starts at column 38, or one blank after a longer line. */
  function AppendComment(line: string, comment: string): string
  {
    if comment == "" then line
    else line + Spaces(if COMMENT_COLUMN - |line| > 1 then COMMENT_COLUMN - |line| else 1) + "# " + comment
  }

  lemma {:induction false} SpacesAre(n: nat)
    ensures |Spaces(n)| == n && forall i :: 0 <= i < n ==> Spaces(n)[i] == ' '
  {
    if n > 0 { SpacesAre(n - 1); }
  }

  /** Comments line up: at column 38, or one blank after a line that reaches it. */
  lemma CommentsAlign(line: string, comment: string)
    requires comment != ""
    ensures var at := if |line| + 1 > 38 then |line| + 1 else 38;
            var full := AppendComment(line, comment);
            && |full| == at + 2 + |comment| && full[..|line|] == line && full[at..] == "# " + comment
            && forall i :: |line| <= i < at ==> full[i] == ' '
  {
    var k := if COMMENT_COLUMN - |line| > 1 then COMMENT_COLUMN - |line| else 1;
    SpacesAre(k);
    assert AppendComment(line, comment) == line + Spaces(k) + ("# " + comment);
  }

  function Display(n: Node): string { if n.isDir then n.name + "/" else n.name }

  function Head(n: Node, prefix: string, last: bool): string
  {
    prefix + (if last then LAST else MORE) + Display(n)
  }

  /** The comment of a path; empty means none. */
  type Comments = string -> string

  /** `above` are the names of the directories between the base and the node. */
  function FormatNode(n: Node, base: string, above: seq<string>, prefix: string, last: bool, c: Comments): seq<string>
    decreases n, 1
  {
    [AppendComment(Head(n, prefix, last), c(Path(base, above + [n.name])))]
    + if n.isDir then FormatAll(n.children, base, above + [n.name], prefix + (if last then "    " else "│   "), c)
      else []
  }

  function FormatAll(ns: seq<Node>, base: string, above: seq<string>, prefix: string, c: Comments): seq<string>
    decreases ns, 0
  {
    if ns == [] then []
    else FormatNode(ns[0], base, above, prefix, |ns| == 1, c) + FormatAll(ns[1..], base, above, prefix, c)
  }

  // ---------------------------------------------------------------- reading

  predicate IsPrefixChar(c: char) { c == BAR || c == ' ' }

  function PrefixLength(line: string): nat
  {
    if line != "" && IsPrefixChar(line[0]) then 1 + PrefixLength(line[1..]) else 0
  }

  /** White space, then `#`: where a name gives way to its comment. */
  predicate Marks(s: string)
  {
    s != "" && IsSpace(s[0]) && StripLeft(s) != "" && StripLeft(s)[0] == '#'
  }

  /** The shortest name after which a comment, or nothing, follows. */
  function NameEnd(s: string): nat
  {
    if s == "" || Marks(s) then 0 else 1 + NameEnd(s[1..])
  }

  lemma {:induction false} NameEndBound(s: string)
    ensures NameEnd(s) <= |s| && (NameEnd(s) < |s| ==> Marks(s[NameEnd(s)..]))
  {
    if s != "" && !Marks(s) {
      NameEndBound(s[1..]);
      assert s[1..][NameEnd(s[1..])..] == s[NameEnd(s)..];
    }
  }

  datatype Match = Match(prefix: nat, name: string, comment: string)

  /** A tree line: `[│ ]*`, a connector, the shortest name, and a comment introduced by white space and `#`. */
  function MatchLine(line: string): Option<Match>
  {
    var p := PrefixLength(line);
    if p + 4 > |line| || !(line[p..p + 4] == LAST || line[p..p + 4] == MORE) then None
    else
      var rest := line[p + 4..];
      NameEndBound(rest);
      var k := NameEnd(rest);
      Some(Match(p, rest[..k], if k == |rest| then "" else StripLeft(StripLeft(rest[k..])[1..])))
  }

  function StripSlashes(s: string): string
  {
    if s != "" && s[|s| - 1] == '/' then StripSlashes(s[..|s| - 1]) else s
  }

  predicate EndsWithSlash(s: string) { s != "" && s[|s| - 1] == '/' }

  /** The part of a title before its first ` — `. */
  function BeforeDash(s: string): string
  {
    if |s| < 3 then s
    else if s[..3] == " — " then ""
    else [s[0]] + BeforeDash(s[1..])
  }

  function SectionBaseFromTitle(title: string): string
  {
    if title == TOP_TITLE then "" else StripSlashes(BeforeDash(title))
  }

  datatype Scan = Scan(base: string, fenced: bool, stack: seq<string>, comments: map<string, string>,
                       order: map<string, nat>)

  predicate IsTitle(line: string) { "## " <= line }

  function SetDefault(order: map<string, nat>, path: string): map<string, nat>
  {
    if path in order then order else order[path := |order|]
  }

  function PutComment(comments: map<string, string>, path: string, comment: string): map<string, string>
  {
    if comment == "" then comments else comments[path := StripRight(comment)]
  }

  function Take(stack: seq<string>, depth: nat): seq<string>
  {
    if depth <= |stack| then stack[..depth] else stack
  }

  function ReadEntry(s: Scan, m: Match): Scan
  {
    var raw := StripRight(m.name);
    var name := StripSlashes(raw);
    var stack := Take(s.stack, m.prefix / 4);
    var path := Path(s.base, stack + [name]);
    s.(stack := if EndsWithSlash(raw) then stack + [name] else stack,
       comments := PutComment(s.comments, path, m.comment),
       order := SetDefault(s.order, path))
  }

  function ReadLine(s: Scan, line: string): Scan
  {
    if IsTitle(line) then s.(base := SectionBaseFromTitle(Strip(line[3..])))
    else if line == FENCE then s.(fenced := !s.fenced, stack := [])
    else if !s.fenced then s
    else
      var m := MatchLine(line);
      if m.None? then s else ReadEntry(s, m.value)
  }

  function ReadLines(s: Scan, lines: seq<string>): Scan
    decreases lines
  {
    if lines == [] then s else ReadLines(ReadLine(s, lines[0]), lines[1..])
  }

  const START := Scan("", false, [], map[], map[])

  method ParseExistingDoc(lines: seq<string>) returns (comments: map<string, string>, order: map<string, nat>)
    ensures comments == ReadLines(START, lines).comments
    ensures order == ReadLines(START, lines).order
  {
    comments, order := map[], map[];
    var currentBase, inFence := "", false;
    var stack: seq<string> := [];
    for i := 0 to |lines|
      invariant ReadLines(START, lines) == ReadLines(Scan(currentBase, inFence, stack, comments, order), lines[i..])
    {
      var line := lines[i];
      assert lines[i..][0] == line && lines[i..][1..] == lines[i + 1..];
      if "## " <= line {
        currentBase := SectionBaseFromTitle(Strip(line[3..]));
        continue;
      }
      if line == FENCE {
        inFence, stack := !inFence, [];
        continue;
      }
      if !inFence { continue; }
      var m := MatchLine(line);
      if m.None? { continue; }
      var rawName := StripRight(m.value.name);
      var name := StripSlashes(rawName);
      stack := Take(stack, m.value.prefix / 4);
      var path := Path(currentBase, stack + [name]);
      if path !in order { order := order[path := |order|]; }
      if m.value.comment != "" { comments := comments[path := StripRight(m.value.comment)]; }
      if EndsWithSlash(rawName) { stack := stack + [name]; }
    }
  }

  lemma {:induction false} ReadConcat(s: Scan, a: seq<string>, b: seq<string>)
    ensures ReadLines(s, a + b) == ReadLines(ReadLines(s, a), b)
    decreases a
  {
    if a == [] {
      assert a + b == b;
    } else {
      assert (a + b)[1..] == a[1..] + b;
      ReadConcat(ReadLine(s, a[0]), a[1..], b);
    }
  }

  // ---------------------------------------------------------------- one line

  /** White space directly followed by `#` would be taken for the start of a comment. */
  predicate NoMark(s: string) { forall i :: 0 <= i < |s| - 1 ==> !(IsSpace(s[i]) && s[i + 1] == '#') }

  /** Names the document can hold: not empty, no `#` after white space, not ending in white space or a slash. */
  predicate GoodName(s: string)
  {
    s != "" && NoMark(s) && !IsSpace(s[|s| - 1]) && s[|s| - 1] != '/'
  }

  predicate Trimmed(s: string) { s == "" || (!IsSpace(s[0]) && !IsSpace(s[|s| - 1])) }

  lemma {:induction false} StripLeftKeeps(s: string, tail: string)
    requires s != "" && !IsSpace(s[|s| - 1])
    ensures StripLeft(s) != "" && StripLeft(s + tail) == StripLeft(s) + tail
    ensures NoMark(s) && IsSpace(s[0]) ==> StripLeft(s)[0] != '#'
  {
    assert (s + tail)[0] == s[0];
    if IsSpace(s[0]) {
      assert (s + tail)[1..] == s[1..] + tail;
      StripLeftKeeps(s[1..], tail);
      if NoMark(s) {
        forall i | 0 <= i < |s[1..]| - 1 ensures !(IsSpace(s[1..][i]) && s[1..][i + 1] == '#') {
          assert s[1..][i] == s[i + 1] && s[1..][i + 1] == s[i + 2];
        }
      }
    }
  }

  lemma {:induction false} NameEndsAfter(s: string, tail: string)
    requires NoMark(s) && (s == "" || !IsSpace(s[|s| - 1])) && (tail == "" || Marks(tail))
    ensures NameEnd(s + tail) == |s|
  {
    if s == "" {
      assert s + tail == tail;
    } else {
      StripLeftKeeps(s, tail);
      assert (s + tail)[1..] == s[1..] + tail;
      forall i | 0 <= i < |s[1..]| - 1 ensures !(IsSpace(s[1..][i]) && s[1..][i + 1] == '#') {
        assert s[1..][i] == s[i + 1] && s[1..][i + 1] == s[i + 2];
      }
      NameEndsAfter(s[1..], tail);
    }
  }

  lemma {:induction false} SpacesStrip(n: nat, tail: string)
    requires tail != "" && !IsSpace(tail[0])
    ensures StripLeft(Spaces(n) + tail) == tail
  {
    if n == 0 {
      assert Spaces(n) + tail == tail;
    } else {
      assert (Spaces(n) + tail)[1..] == Spaces(n - 1) + tail;
      SpacesStrip(n - 1, tail);
    }
  }

  lemma {:induction false} PrefixEnds(prefix: string, tail: string)
    requires (forall i :: 0 <= i < |prefix| ==> IsPrefixChar(prefix[i])) && tail != "" && !IsPrefixChar(tail[0])
    ensures PrefixLength(prefix + tail) == |prefix|
  {
    if prefix == "" {
      assert prefix + tail == tail;
    } else {
      assert (prefix + tail)[1..] == prefix[1..] + tail;
      PrefixEnds(prefix[1..], tail);
    }
  }

  ghost predicate IsPrefix(prefix: string) { forall i :: 0 <= i < |prefix| ==> IsPrefixChar(prefix[i]) }

  lemma SlashKeepsNoMark(name: string)
    requires GoodName(name)
    ensures NoMark(name + "/")
  {
    var s := name + "/";
    forall i | 0 <= i < |s| - 1 ensures !(IsSpace(s[i]) && s[i + 1] == '#') {
      if i < |name| - 1 { assert s[i] == name[i] && s[i + 1] == name[i + 1]; }
    }
  }

  lemma DisplayReads(n: Node)
    requires GoodName(n.name)
    ensures NoMark(Display(n)) && Display(n) != "" && !IsSpace(Display(n)[|Display(n)| - 1])
    ensures StripRight(Display(n)) == Display(n) && StripSlashes(Display(n)) == n.name
    ensures EndsWithSlash(Display(n)) == n.isDir
  {
    if n.isDir {
      SlashKeepsNoMark(n.name);
      assert Display(n)[..|n.name|] == n.name;
    }
  }

  function Tail(line: string, comment: string): string
  {
    if comment == "" then ""
    else Spaces(if COMMENT_COLUMN - |line| > 1 then COMMENT_COLUMN - |line| else 1) + ("# " + comment)
  }

  lemma TailReads(line: string, comment: string)
    requires Trimmed(comment) && comment != ""
    ensures Marks(Tail(line, comment))
    ensures StripLeft(StripLeft(Tail(line, comment))[1..]) == comment
  {
    var k := if COMMENT_COLUMN - |line| > 1 then COMMENT_COLUMN - |line| else 1;
    var mark := "# " + comment;
    SpacesStrip(k, mark);
    assert (Spaces(k) + mark)[0] == ' ';
    HashStrips(comment);
  }

  lemma HashStrips(comment: string)
    requires Trimmed(comment) && comment != ""
    ensures StripLeft(("# " + comment)[1..]) == comment
  {
    assert ("# " + comment)[1..] == Spaces(1) + comment by {
      assert Spaces(1) == " " + Spaces(0) == " ";
    }
    SpacesStrip(1, comment);
  }

  lemma Slices(a: string, b: string, c: string)
    ensures (a + b + c)[|a|..|a| + |b|] == b && (a + b + c)[|a| + |b|..] == c && a + b + c == a + (b + c)
    ensures (a + b)[..|a|] == a && (a + b)[|a|..] == b
  {
  }

  predicate IsConnector(s: string) { s == LAST || s == MORE }

  lemma ConnectorReads(prefix: string, connector: string, rest: string)
    requires IsPrefix(prefix) && IsConnector(connector)
    ensures var line := prefix + connector + rest;
            && |line| == |prefix| + 4 + |rest| && PrefixLength(line) == |prefix|
            && line[|prefix|..|prefix| + 4] == connector && line[|prefix| + 4..] == rest
            && !IsTitle(line) && line != FENCE
  {
    assert |connector| == 4 && !IsPrefixChar(connector[0]) && connector[0] != '#' && connector[0] != '`';
    Slices(prefix, connector, rest);
    assert (connector + rest)[0] == connector[0];
    PrefixEnds(prefix, connector + rest);
    var line := prefix + connector + rest;
    assert line[0] == if prefix == "" then connector[0] else prefix[0];
  }

  lemma RestReads(display: string, tail: string)
    requires NoMark(display) && display != "" && !IsSpace(display[|display| - 1]) && (tail == "" || Marks(tail))
    ensures var rest := display + tail;
            NameEnd(rest) == |display| && rest[..|display|] == display && rest[|display|..] == tail
  {
    NameEndsAfter(display, tail);
    Slices(display, tail, "");
  }

  /** A printed line reads back as its depth, its name and its comment. */
  lemma LineReads(n: Node, prefix: string, last: bool, comment: string)
    requires GoodName(n.name) && IsPrefix(prefix) && Trimmed(comment)
    ensures var line := AppendComment(Head(n, prefix, last), comment);
            MatchLine(line) == Some(Match(|prefix|, Display(n), comment)) && !IsTitle(line) && line != FENCE
  {
    var head, display := Head(n, prefix, last), Display(n);
    var tail := Tail(head, comment);
    DisplayReads(n);
    if comment != "" { TailReads(head, comment); }
    RestReads(display, tail);
    ConnectorReads(prefix, if last then LAST else MORE, display + tail);
    LineParts(n, prefix, last, comment);
    MatchParts(AppendComment(head, comment), |prefix|, display, tail);
  }

  lemma MatchParts(line: string, p: nat, display: string, tail: string)
    requires PrefixLength(line) == p && p + 4 <= |line| && IsConnector(line[p..p + 4])
    requires line[p + 4..] == display + tail
    requires NameEnd(display + tail) == |display|
    requires (display + tail)[..|display|] == display && (display + tail)[|display|..] == tail
    requires tail == "" || Marks(tail)
    ensures MatchLine(line) == Some(Match(p, display, if tail == "" then "" else StripLeft(StripLeft(tail)[1..])))
  {
  }

  lemma LineParts(n: Node, prefix: string, last: bool, comment: string)
    ensures AppendComment(Head(n, prefix, last), comment)
            == prefix + (if last then LAST else MORE) + (Display(n) + Tail(Head(n, prefix, last), comment))
  {
    var head, tail := Head(n, prefix, last), Tail(Head(n, prefix, last), comment);
    Slices(prefix + if last then LAST else MORE, Display(n), tail);
    if comment == "" {
      assert head + "" == head;
    } else {
      Slices(head, Spaces(if COMMENT_COLUMN - |head| > 1 then COMMENT_COLUMN - |head| else 1), "# " + comment);
      Slices(head + Spaces(if COMMENT_COLUMN - |head| > 1 then COMMENT_COLUMN - |head| else 1), "# ", comment);
    }
  }

  lemma {:induction false} TrimmedStays(s: string)
    requires Trimmed(s)
    ensures StripRight(s) == s
  {
  }
}
