/** Which lines a `//nolint` directive covers. */
module Nolint {
  import opened Wrappers
  import opened Strings
  import T = TagExpression

  /// ## Syntax trees

  /** A node from one source position up to another. */
  datatype Node = Node(pos: nat, end: nat, children: seq<Node>)

  /** Where a position lies in the file. */
  datatype Position = Position(line: nat, column: nat)

  type Layout = nat -> Position

  datatype Span = Span(pos: nat, column: nat, end: nat)

  function SpanOf(at: Layout, n: Node): Span {
    Span(n.pos, at(n.pos).column, at(n.end).line)
  }

  /** The nodes in the order of ast.Inspect. */
  function Preorder(n: Node): (ns: seq<Node>)
    ensures ns != [] && ns[0] == n
  {
    [n] + AllPreorder(n.children)
  }

  function AllPreorder(ns: seq<Node>): seq<Node> {
    if ns == [] then [] else Preorder(ns[0]) + AllPreorder(ns[1..])
  }

  /** `ns[i]` starts earliest among the nodes on its line, and first among those that start there. */
  predicate Outermost(at: Layout, ns: seq<Node>, i: nat) {
    && i < |ns|
    && (forall j :: 0 <= j < |ns| && at(ns[j].pos).line == at(ns[i].pos).line ==> ns[i].pos <= ns[j].pos)
    && (forall j :: 0 <= j < i && at(ns[j].pos).line == at(ns[i].pos).line ==> ns[i].pos < ns[j].pos)
  }

  predicate IsOutermost(at: Layout, ns: seq<Node>, line: nat, span: Span, i: nat) {
    Outermost(at, ns, i) && at(ns[i].pos).line == line && span == SpanOf(at, ns[i])
  }

  /** Every line on which a node starts is mapped to its outermost node. */
  ghost predicate MapsOutermost(at: Layout, spans: map<nat, Span>, ns: seq<Node>) {
    && (forall l :: l in spans ==> exists i: nat :: IsOutermost(at, ns, l, spans[l], i))
    && (forall i :: 0 <= i < |ns| ==> at(ns[i].pos).line in spans)
  }

  function WithNode(at: Layout, spans: map<nat, Span>, n: Node): map<nat, Span> {
    var l := at(n.pos).line;
    if l !in spans || n.pos < spans[l].pos then spans[l := SpanOf(at, n)] else spans
  }

  lemma {:induction false} OneNodeMore(at: Layout, spans: map<nat, Span>, ns: seq<Node>, n: Node)
    requires MapsOutermost(at, spans, ns)
    ensures MapsOutermost(at, WithNode(at, spans, n), ns + [n])
  {
    var l, spans', all := at(n.pos).line, WithNode(at, spans, n), ns + [n];
    forall k | k in spans' ensures exists i: nat :: IsOutermost(at, all, k, spans'[k], i) {
      if k == l && (l !in spans || n.pos < spans[l].pos) {
        NewOutermost(at, spans, ns, n);
        assert IsOutermost(at, all, k, spans'[k], |ns|);
      } else {
        var i: nat :| IsOutermost(at, ns, k, spans[k], i);
        StaysOutermost(at, ns, n, i);
        assert IsOutermost(at, all, k, spans'[k], i);
      }
    }
    forall i | 0 <= i < |all| ensures at(all[i].pos).line in spans' {
      if i < |ns| { assert all[i] == ns[i]; }
    }
  }

  lemma {:induction false} NewOutermost(at: Layout, spans: map<nat, Span>, ns: seq<Node>, n: Node)
    requires MapsOutermost(at, spans, ns)
    requires var l := at(n.pos).line; l !in spans || n.pos < spans[l].pos
    ensures Outermost(at, ns + [n], |ns|)
  {
    var l, all := at(n.pos).line, ns + [n];
    forall j | 0 <= j < |ns| && at(ns[j].pos).line == l ensures n.pos < all[j].pos {
      var i: nat :| IsOutermost(at, ns, l, spans[l], i);
    }
  }

  lemma {:induction false} StaysOutermost(at: Layout, ns: seq<Node>, n: Node, i: nat)
    requires Outermost(at, ns, i) && (at(n.pos).line == at(ns[i].pos).line ==> ns[i].pos <= n.pos)
    ensures Outermost(at, ns + [n], i)
  {
    assert forall j :: 0 <= j < |ns| ==> (ns + [n])[j] == ns[j];
  }

  /** The traversal of outermostNodes and the map that it fills. */
  class Inspector {
    const at: Layout
    var spans: map<nat, Span>
    ghost var seen: seq<Node>

    constructor (at: Layout)
      ensures this.at == at && seen == [] && Valid()
    {
      this.at, spans, seen := at, map[], [];
    }

    ghost predicate Valid()
      reads this
    {
      MapsOutermost(at, spans, seen)
    }

    /** One node: kept when it starts earlier than what its line has. */
    method Keep(n: Node)
      requires Valid()
      modifies this
      ensures Valid() && seen == old(seen) + [n]
    {
      var l := at(n.pos).line;
      OneNodeMore(at, spans, seen, n);
      if l !in spans || n.pos < spans[l].pos {
        spans := spans[l := SpanOf(at, n)];
      }
      seen := seen + [n];
    }

    method Inspect(n: Node)
      requires Valid()
      modifies this
      ensures Valid() && seen == old(seen) + Preorder(n)
      decreases n
    {
      hide MapsOutermost;
      Keep(n);
      for i := 0 to |n.children|
        invariant Valid() && seen + AllPreorder(n.children[i..]) == old(seen) + Preorder(n)
      {
        assert n.children[i..][0] == n.children[i] && n.children[i..][1..] == n.children[i + 1..];
        ghost var before := seen;
        Inspect(n.children[i]);
        assert before + (Preorder(n.children[i]) + AllPreorder(n.children[i + 1..])) == seen + AllPreorder(n.children[i + 1..]);
      }
      assert seen + [] == seen;
    }
  }

  method OutermostNodes(at: Layout, f: Node) returns (spans: map<nat, Span>)
    ensures MapsOutermost(at, spans, Preorder(f))
  {
    var inspector := new Inspector(at);
    inspector.Inspect(f);
    spans := inspector.spans;
    assert [] + Preorder(f) == Preorder(f);
  }

  /// ## The outermost node reaches furthest

  /** Children lie within their parent, one after the other. */
  predicate Nested(n: Node) {
    && (forall i :: 0 <= i < |n.children| ==> n.pos <= n.children[i].pos && n.children[i].end <= n.end && Nested(n.children[i]))
    && (forall i, j :: 0 <= i < j < |n.children| ==> Separate(n.children[i], n.children[j]))
  }

  /** Everything in `a` starts before `b` does. */
  predicate Separate(a: Node, b: Node) {
    forall i :: 0 <= i < |Preorder(a)| ==> Preorder(a)[i].pos < b.pos
  }

  lemma {:induction false} InChild(ns: seq<Node>, i: nat) returns (c: nat, j: nat)
    requires i < |AllPreorder(ns)|
    ensures c < |ns| && j < |Preorder(ns[c])| && AllPreorder(ns)[i] == Preorder(ns[c])[j]
    ensures AllPreorder(ns)[..i] == AllPreorder(ns[..c]) + Preorder(ns[c])[..j]
    decreases |ns|
  {
    var first := Preorder(ns[0]);
    if i < |first| {
      c, j := 0, i;
      assert ns[..0] == [];
      assert AllPreorder(ns)[..i] == [] + first[..i];
    } else {
      c, j := InChild(ns[1..], i - |first|);
      assert AllPreorder(ns)[..i] == first + AllPreorder(ns[1..])[..i - |first|];
      assert ns[..c + 1][0] == ns[0] && ns[..c + 1][1..] == ns[1..][..c];
      assert first + (AllPreorder(ns[1..][..c]) + Preorder(ns[1..][c])[..j]) == AllPreorder(ns[..c + 1]) + Preorder(ns[c + 1])[..j];
      c := c + 1;
    }
  }

  /** No node in a nested tree starts before the tree or ends after it. */
  lemma {:induction false} Within(n: Node, i: nat)
    requires Nested(n) && i < |Preorder(n)|
    ensures n.pos <= Preorder(n)[i].pos && Preorder(n)[i].end <= n.end
    decreases n
  {
    if i > 0 {
      assert Preorder(n)[i] == AllPreorder(n.children)[i - 1];
      var c, j := InChild(n.children, i - 1);
      Within(n.children[c], j);
    }
  }

  /** What comes before a node of a child's subtree, within that subtree. */
  lemma {:induction false} EarlierInChild(n: Node, c: nat, j: nat, i: nat)
    requires 0 < i < |Preorder(n)| && c < |n.children| && j < |Preorder(n.children[c])|
    requires AllPreorder(n.children)[..i - 1] == AllPreorder(n.children[..c]) + Preorder(n.children[c])[..j]
    ensures forall d :: d in Preorder(n.children[c])[..j] ==> d in Preorder(n)[..i]
  {
    assert Preorder(n)[..i] == [n] + AllPreorder(n.children)[..i - 1];
  }

  /** Of the nodes that start at one position, the first in preorder contains the others. */
  lemma {:induction false} FirstContains(n: Node, i: nat, k: nat)
    requires Nested(n) && i < |Preorder(n)| && k < |Preorder(n)| && Preorder(n)[k].pos == Preorder(n)[i].pos
    requires forall d :: d in Preorder(n)[..i] ==> d.pos != Preorder(n)[i].pos
    ensures Preorder(n)[k].end <= Preorder(n)[i].end
    decreases n
  {
    var ns, below := Preorder(n), AllPreorder(n.children);
    if i == 0 {
      Within(n, k);
    } else {
      assert n in ns[..i] by { assert ns[..i][0] == n; }
      assert ns[i] == below[i - 1] && ns[k] == below[k - 1];
      var c, j := InChild(n.children, i - 1);
      var d, l := InChild(n.children, k - 1);
      OneChild(n, c, j, d, l);
      EarlierInChild(n, c, j, i);
      FirstContains(n.children[c], j, l);
    }
  }

  /** Nodes that start at one position lie in one child. */
  lemma {:induction false} OneChild(n: Node, c: nat, j: nat, d: nat, l: nat)
    requires Nested(n) && c < |n.children| && d < |n.children|
    requires j < |Preorder(n.children[c])| && l < |Preorder(n.children[d])|
    requires Preorder(n.children[c])[j].pos == Preorder(n.children[d])[l].pos
    ensures c == d
  {
    hide Preorder;
    assert c < d ==> Separate(n.children[c], n.children[d]);
    assert d < c ==> Separate(n.children[d], n.children[c]);
    Within(n.children[c], j);
    Within(n.children[d], l);
  }

  /** In a nested tree a line is mapped to a node that ends no earlier than any other that starts where it does. */
  lemma {:induction false} OutermostReachesFurthest(at: Layout, f: Node, i: nat, k: nat)
    requires Nested(f) && Outermost(at, Preorder(f), i) && k < |Preorder(f)| && Preorder(f)[k].pos == Preorder(f)[i].pos
    ensures Preorder(f)[k].end <= Preorder(f)[i].end
  {
    hide Preorder, Nested;
    forall d | d in Preorder(f)[..i] ensures d.pos != Preorder(f)[i].pos {
      var j :| 0 <= j < i && Preorder(f)[j] == d;
    }
    FirstContains(f, i, k);
  }

  /// ## Directives

  const MARK := "nolint"

  function TrimBlanks(s: string): string {
    if s != "" && (s[0] == ' ' || s[0] == '\t') then TrimBlanks(s[1..]) else s
  }

  /** strings.Cut at "//": what comes before it, or all. */
  function BeforeSlashes(s: string): string {
    if s == "" || "//" <= s then "" else [s[0]] + BeforeSlashes(s[1..])
  }

  function Lower(s: string): string {
    if s == "" then "" else [if 'A' <= s[0] <= 'Z' then (s[0] as int + 32) as char else s[0]] + Lower(s[1..])
  }

  function Names(list: string): seq<string> {
    Normal(Split(list, ','))
  }

  function Normal(names: seq<string>): seq<string> {
    if names == [] then [] else [Lower(T.Trim(names[0]))] + Normal(names[1..])
  }

  /** What a comment suppresses: nothing, everything, or the linters named. */
  datatype Directive = NoDirective | Everything | Linters(names: set<string>)

  function AfterMark(text: string): Option<string> {
    var body := TrimBlanks(if "//" <= text then text[2..] else text);
    if MARK <= body then Some(body[|MARK|..]) else None
  }

  function DirectiveOf(names: seq<string>): Directive {
    var named := set n | n in names && n != "";
    if "all" in named || named == {} then Everything else Linters(named)
  }

  /** parseNolint */
  function Parse(text: string): Directive {
    match AfterMark(text)
    case None => NoDirective
    case Some(rest) =>
      if rest == "" || rest[0] == ' ' || rest[0] == '\t' then Everything
      else if rest[0] != ':' then NoDirective
      else DirectiveOf(Names(BeforeSlashes(rest[1..])))
  }

  method ParseNolint(text: string) returns (d: Directive)
    ensures d == Parse(text)
  {
    hide AfterMark, Names, BeforeSlashes;
    var after := AfterMark(text);
    if after == None { return NoDirective; }
    var rest := after.value;
    if rest == "" || rest[0] == ' ' || rest[0] == '\t' { return Everything; }
    if rest[0] != ':' { return NoDirective; }
    var pieces := Names(BeforeSlashes(rest[1..]));
    var names: set<string> := {};
    for i := 0 to |pieces|
      invariant names == set n | n in pieces[..i] && n != ""
      invariant "all" !in names
    {
      assert pieces[..i + 1] == pieces[..i] + [pieces[i]];
      if pieces[i] == "all" {
        assert "all" in pieces;
        return Everything;
      }
      if pieces[i] != "" { names := names + {pieces[i]}; }
    }
    assert pieces[..|pieces|] == pieces;
    d := if names == {} then Everything else Linters(names);
  }

  predicate Suppresses(d: Directive, linter: string) {
    d.Everything? || (d.Linters? && linter in d.names)
  }

  /** Linter names: lower case letters and digits. */
  predicate GoodName(name: string) {
    name != "" && name != "all" && forall i :: 0 <= i < |name| ==> 'a' <= name[i] <= 'z' || '0' <= name[i] <= '9'
  }

  lemma {:induction false} GoodNormal(names: seq<string>)
    requires forall i :: 0 <= i < |names| ==> GoodName(names[i])
    ensures Normal(names) == names
  {
    if names != [] {
      GoodNormal(names[1..]);
      LowerGood(names[0]);
      assert T.Trim(names[0]) == names[0];
      assert names == [names[0]] + names[1..];
    }
  }

  lemma {:induction false} LowerGood(s: string)
    requires forall i :: 0 <= i < |s| ==> 'a' <= s[i] <= 'z' || '0' <= s[i] <= '9'
    ensures Lower(s) == s
  {
    if s != "" {
      LowerGood(s[1..]);
      assert s == [s[0]] + s[1..];
    }
  }

  lemma {:induction false} CutExplanation(list: string, why: string)
    requires '/' !in list
    ensures BeforeSlashes(list + "//" + why) == list && BeforeSlashes(list) == list
  {
    if list == "" {
      assert list + "//" + why == "//" + why;
    } else {
      assert (list + "//" + why)[1..] == list[1..] + "//" + why;
      CutExplanation(list[1..], why);
      assert list == [list[0]] + list[1..];
    }
  }

  lemma {:induction false} JoinGoodNames(names: seq<string>)
    requires forall i :: 0 <= i < |names| ==> GoodName(names[i])
    ensures '/' !in Join(names, ",")
  {
    if |names| > 1 { JoinGoodNames(names[1..]); }
  }

  /** A directive that is written for some linters is read as one for those linters, with or without an explanation. */
  lemma {:induction false} ReadsWritten(names: seq<string>, why: string)
    requires names != [] && forall i :: 0 <= i < |names| ==> GoodName(names[i])
    ensures Parse("//nolint:" + Join(names, ",") + "//" + why) == Linters(set n | n in names)
    ensures Parse("//nolint:" + Join(names, ",")) == Linters(set n | n in names)
  {
    hide Parse, BeforeSlashes, Join, GoodName, Names, DirectiveOf;
    var list := Join(names, ",");
    JoinGoodNames(names);
    CutExplanation(list, why);
    NamesBack(names);
    MarkedList(list + "//" + why);
    assert "//nolint:" + list + "//" + why == "//nolint:" + (list + "//" + why);
    MarkedList(list);
  }

  lemma {:induction false} NamesBack(names: seq<string>)
    requires names != [] && forall i :: 0 <= i < |names| ==> GoodName(names[i])
    ensures DirectiveOf(Names(Join(names, ","))) == Linters(set n | n in names)
  {
    forall i | 0 <= i < |names| ensures ',' !in names[i] { assert GoodName(names[i]); }
    SplitJoin(names, ',');
    GoodNormal(names);
    hide Join, Split, Normal, GoodName, DirectiveOf;
    DirectiveGood(names);
  }

  lemma {:induction false} DirectiveGood(names: seq<string>)
    requires names != [] && forall i :: 0 <= i < |names| ==> GoodName(names[i])
    ensures DirectiveOf(names) == Linters(set n | n in names)
  {
    assert forall n :: n in names ==> n != "" && n != "all";
    var named := set n | n in names && n != "";
    assert names[0] in named;
    assert named == set n | n in names;
  }

  lemma {:induction false} MarkedList(list: string)
    ensures Parse("//nolint:" + list) == DirectiveOf(Names(BeforeSlashes(list)))
  {
    var text := "//nolint:" + list;
    assert text[..2] == "//" && text[2..] == "nolint:" + list;
    assert TrimBlanks(text[2..]) == text[2..];
    assert text[2..][..|MARK|] == MARK;
    assert text[2..][|MARK|..] == ":" + list && (":" + list)[1..] == list;
  }

  predicate Blank(s: string) {
    forall i :: 0 <= i < |s| ==> s[i] == ' ' || s[i] == '\t'
  }

  /** The comment starts with `nolint`, whatever blanks come before it, and its text ends there or goes on with a blank
      or a colon.  `//nolintfoo` does not. */
  ghost predicate Marked(text: string, blanks: string, rest: string) {
    && (text == "//" + blanks + "nolint" + rest || text == blanks + "nolint" + rest)
    && Blank(blanks) && (rest == "" || rest[0] == ' ' || rest[0] == '\t' || rest[0] == ':')
  }

  lemma {:induction false} TrimmedOf(blanks: string, s: string)
    requires Blank(blanks) && s != "" && s[0] != ' ' && s[0] != '\t'
    ensures TrimBlanks(blanks + s) == s
  {
    if blanks == "" {
      assert blanks + s == s;
    } else {
      assert (blanks + s)[1..] == blanks[1..] + s;
      TrimmedOf(blanks[1..], s);
    }
  }

  lemma {:induction false} BlanksOf(s: string) returns (blanks: string)
    ensures Blank(blanks) && s == blanks + TrimBlanks(s)
  {
    if s != "" && (s[0] == ' ' || s[0] == '\t') {
      var rest := BlanksOf(s[1..]);
      blanks := [s[0]] + rest;
      assert s == [s[0]] + s[1..];
    } else {
      blanks := "";
    }
  }

  lemma {:induction false} AfterMarkOf(text: string, blanks: string, rest: string)
    requires Blank(blanks) && (text == "//" + blanks + "nolint" + rest || text == blanks + "nolint" + rest)
    ensures AfterMark(text) == Some(rest)
  {
    var s := "nolint" + rest;
    TrimmedOf(blanks, s);
    assert blanks + "nolint" + rest == blanks + s;
    if text == "//" + blanks + "nolint" + rest {
      assert text[..2] == "//" && text[2..] == blanks + s;
    } else {
      assert text[0] == if blanks == "" then 'n' else blanks[0];
      assert !("//" <= text);
    }
    assert s[..|MARK|] == MARK && s[|MARK|..] == rest;
  }

  /** A comment is a directive exactly when it is marked as one, and one for all linters when nothing but an
      explanation follows the mark. */
  lemma {:induction false} MarkedIff(text: string)
    ensures Parse(text) != NoDirective <==> exists blanks, rest :: Marked(text, blanks, rest)
    ensures forall blanks, rest :: Marked(text, blanks, rest) && (rest == "" || rest[0] != ':') ==> Parse(text) == Everything
    ensures forall blanks, rest :: Marked(text, blanks, rest) && rest != "" && rest[0] == ':' ==> Parse(text) == Parse("//nolint" + rest)
  {
    hide Parse, Marked;
    forall blanks, rest | Marked(text, blanks, rest)
      ensures Parse(text) == if rest == "" || rest[0] != ':' then Everything else Parse("//nolint" + rest)
      ensures Parse(text) != NoDirective
    {
      ReadsMarked(text, blanks, rest);
    }
    if Parse(text) != NoDirective {
      var blanks, rest := MarkOf(text);
    }
  }

  lemma {:induction false} ReadsMarked(text: string, blanks: string, rest: string)
    requires Marked(text, blanks, rest)
    ensures Parse(text) == if rest == "" || rest[0] != ':' then Everything else Parse("//nolint" + rest)
    ensures Parse(text) != NoDirective
  {
    AfterMarkOf(text, blanks, rest);
    assert "//" + "" + "nolint" + rest == "//nolint" + rest;
    AfterMarkOf("//nolint" + rest, "", rest);
    hide AfterMark, Names, BeforeSlashes;
  }

  lemma {:induction false} MarkOf(text: string) returns (blanks: string, rest: string)
    requires Parse(text) != NoDirective
    ensures Marked(text, blanks, rest)
  {
    hide Names, BeforeSlashes, DirectiveOf;
    var lead := if "//" <= text then "//" else "";
    blanks := BlanksOf(text[|lead|..]);
    rest := AfterMark(text).value;
    hide TrimBlanks, Parse;
    assert TrimBlanks(text[|lead|..]) == "nolint" + rest;
    assert text == lead + text[|lead|..];
    assert text == lead + blanks + "nolint" + rest;
    if lead == "" { assert text == blanks + "nolint" + rest; }
  }

  /** A list suppresses the linters that it names, in capitals or not and with spaces or not, all of them when it
      names `all` and when it names none. */
  lemma {:induction false} ListSuppresses(names: seq<string>, why: string, linter: string)
    requires names != [] && forall i :: 0 <= i < |names| ==> ',' !in names[i] && '/' !in names[i]
    ensures Parse("//nolint:" + Join(names, ",") + "//" + why) == Parse("//nolint:" + Join(names, ","))
    ensures Suppresses(Parse("//nolint:" + Join(names, ",")), linter) <==>
            || (linter != "" && exists i :: 0 <= i < |names| && Lower(T.Trim(names[i])) == linter)
            || (exists i :: 0 <= i < |names| && Lower(T.Trim(names[i])) == "all")
            || (forall i :: 0 <= i < |names| ==> Lower(T.Trim(names[i])) == "")
  {
    hide Parse, BeforeSlashes, Lower, T.Trim, Split, Join, Normal;
    var list := Join(names, ",");
    NoSlash(names);
    CutExplanation(list, why);
    MarkedList(list);
    MarkedList(list + "//" + why);
    assert "//nolint:" + list + "//" + why == "//nolint:" + (list + "//" + why);
    SplitJoin(names, ',');
    NormalAt(names);
    NamedSuppresses(Normal(names), linter);
    hide DirectiveOf, Names;
    forall n ensures n in Normal(names) <==> exists i :: 0 <= i < |names| && Lower(T.Trim(names[i])) == n {
      if i :| 0 <= i < |names| && Lower(T.Trim(names[i])) == n { assert Normal(names)[i] == n; }
    }
    forall i | 0 <= i < |names| ensures Lower(T.Trim(names[i])) in Normal(names) { assert Normal(names)[i] in Normal(names); }
    assert DirectiveOf(Names(list)) == Parse("//nolint:" + list);
    assert (exists i :: 0 <= i < |names| && Lower(T.Trim(names[i])) == linter) <==> linter in Normal(names);
    assert (exists i :: 0 <= i < |names| && Lower(T.Trim(names[i])) == "all") <==> "all" in Normal(names);
    assert (forall i :: 0 <= i < |names| ==> Lower(T.Trim(names[i])) == "") <==> forall n :: n in Normal(names) ==> n == "";
  }

  lemma {:induction false} NamedSuppresses(names: seq<string>, linter: string)
    ensures Suppresses(DirectiveOf(names), linter) <==>
            (linter != "" && linter in names) || "all" in names || forall n :: n in names ==> n == ""
  {
    var named := set n | n in names && n != "";
    assert named == {} <==> forall n :: n in names ==> n == "" by {
      if n :| n in names && n != "" { assert n in named; }
    }
  }

  lemma {:induction false} NoSlash(names: seq<string>)
    requires forall i :: 0 <= i < |names| ==> '/' !in names[i]
    ensures '/' !in Join(names, ",")
  {
    if |names| > 1 { NoSlash(names[1..]); }
  }

  lemma {:induction false} NormalAt(names: seq<string>)
    ensures |Normal(names)| == |names| && forall i :: 0 <= i < |names| ==> Normal(names)[i] == Lower(T.Trim(names[i]))
  {
    if names != [] {
      NormalAt(names[1..]);
      forall i | 0 < i < |names| ensures Normal(names)[i] == Lower(T.Trim(names[i])) {
        assert Normal(names)[i] == Normal(names[1..])[i - 1] && names[i] == names[1..][i - 1];
      }
    }
  }

  /** Each capital becomes its small letter; anything else stays. */
  lemma {:induction false} LowerAt(s: string, i: nat)
    requires i < |s|
    ensures |Lower(s)| == |s|
    ensures forall k :: 0 <= k < 26 && s[i] == "ABCDEFGHIJKLMNOPQRSTUVWXYZ"[k] ==> Lower(s)[i] == "abcdefghijklmnopqrstuvwxyz"[k]
    ensures s[i] !in "ABCDEFGHIJKLMNOPQRSTUVWXYZ" ==> Lower(s)[i] == s[i]
  {
    LowerLength(s);
    if i > 0 {
      LowerAt(s[1..], i - 1);
    } else {
      LowerFirst(s[0]);
    }
  }

  lemma {:induction false} LowerFirst(c: char)
    ensures forall k :: 0 <= k < 26 && c == "ABCDEFGHIJKLMNOPQRSTUVWXYZ"[k] ==>
              'A' <= c <= 'Z' && (c as int + 32) as char == "abcdefghijklmnopqrstuvwxyz"[k]
    ensures 'A' <= c <= 'Z' ==> c in "ABCDEFGHIJKLMNOPQRSTUVWXYZ"
  {
    if 'A' <= c <= 'Z' {
      assert "ABCDEFGHIJKLMNOPQRSTUVWXYZ"[c as int - 'A' as int] == c;
    }
  }

  lemma {:induction false} LowerLength(s: string)
    ensures |Lower(s)| == |s|
  {
    if s != "" { LowerLength(s[1..]); }
  }

  /// ## Coverage

  /** A comment group: its position, its end and its comments. */
  datatype Group = Group(pos: nat, end: nat, comments: seq<string>)

  /** The node `i` starts its line, right below the group and in its column. */
  predicate Below(at: Layout, f: Node, g: Group, i: nat) {
    Outermost(at, Preorder(f), i) && at(Preorder(f)[i].pos) == Position(at(g.end).line + 1, at(g.pos).column)
  }

  /** The last line that a group covers: its own, or the last of the node below it. */
  ghost predicate LastLine(at: Layout, f: Node, g: Group, last: nat) {
    || (exists i: nat :: Below(at, f, g, i) && last == at(Preorder(f)[i].end).line)
    || (last == at(g.end).line && forall i: nat :: !Below(at, f, g, i))
  }

  ghost predicate GroupCovers(at: Layout, f: Node, g: Group, linter: string, line: nat) {
    && (exists last :: LastLine(at, f, g, last) && at(g.pos).line <= line <= last)
    && exists i :: 0 <= i < |g.comments| && Suppresses(Parse(g.comments[i]), linter)
  }

  /** Of the nodes on a line only one is its outermost. */
  lemma {:induction false} OneOutermost(at: Layout, ns: seq<Node>, i: nat, j: nat)
    requires Outermost(at, ns, i) && Outermost(at, ns, j) && at(ns[i].pos).line == at(ns[j].pos).line
    ensures i == j
  {
  }

  /** The map's entry for the line below a group tells which node, if any, lies below it. */
  lemma {:induction false} EntryBelow(at: Layout, f: Node, spans: map<nat, Span>, g: Group)
    requires MapsOutermost(at, spans, Preorder(f))
    ensures var l := at(g.end).line + 1;
            if l in spans && spans[l].column == at(g.pos).column
            then forall last :: LastLine(at, f, g, last) <==> last == spans[l].end
            else forall i: nat :: !Below(at, f, g, i)
  {
    hide Preorder;
    var ns, l := Preorder(f), at(g.end).line + 1;
    if l in spans {
      var k: nat :| IsOutermost(at, ns, l, spans[l], k);
      forall i: nat | Below(at, f, g, i) ensures i == k { OneOutermost(at, ns, i, k); }
      if spans[l].column == at(g.pos).column {
        assert at(ns[k].pos) == Position(l, at(g.pos).column);
        assert Below(at, f, g, k);
      }
    }
  }

  method GroupEnd(at: Layout, f: Node, spans: map<nat, Span>, g: Group) returns (last: nat)
    requires MapsOutermost(at, spans, Preorder(f))
    ensures forall l :: LastLine(at, f, g, l) <==> l == last
  {
    hide Preorder, MapsOutermost, Below;
    EntryBelow(at, f, spans, g);
    last := at(g.end).line;
    if last + 1 in spans && spans[last + 1].column == at(g.pos).column {
      last := spans[last + 1].end;
    }
  }

  /** nolinted: whether some comment group covers the line and holds a directive for the linter. */
  method Nolinted(at: Layout, f: Node, groups: seq<Group>, linter: string, line: nat) returns (covered: bool)
    ensures covered <==> exists g :: g in groups && GroupCovers(at, f, g, linter, line)
  {
    hide Parse, MapsOutermost, LastLine, Preorder;
    var spans := OutermostNodes(at, f);
    for i := 0 to |groups|
      invariant forall g :: g in groups[..i] ==> !GroupCovers(at, f, g, linter, line)
    {
      assert groups[..i + 1] == groups[..i] + [groups[i]];
      var g := groups[i];
      var last := GroupEnd(at, f, spans, g);
      if at(g.pos).line <= line <= last {
        for j := 0 to |g.comments|
          invariant forall k :: 0 <= k < j ==> !Suppresses(Parse(g.comments[k]), linter)
        {
          var d := ParseNolint(g.comments[j]);
          if Suppresses(d, linter) {
            assert LastLine(at, f, g, last);
            assert GroupCovers(at, f, g, linter, line);
            return true;
          }
        }
      }
    }
    assert groups[..|groups|] == groups;
    covered := false;
  }
}
