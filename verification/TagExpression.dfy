/** The tag expression by which a test suite selects its features: a flat AND of ORs. */
module TagExpression {
  import opened Wrappers
  import opened Strings
  import G = GoLang
  import C = CommonPath

  /// ## Reading an expression, as godog does

  predicate Space(c: char) {
    c == ' ' || c == '\t' || c == '\n' || c == '\r'
  }

  function TrimLeft(s: string): string {
    if s != "" && Space(s[0]) then TrimLeft(s[1..]) else s
  }

  function TrimRight(s: string): string {
    if s != "" && Space(s[|s| - 1]) then TrimRight(s[..|s| - 1]) else s
  }

  function Trim(s: string): string {
    TrimRight(TrimLeft(s))
  }

  /** strings.Split on "&&". */
  function SplitAnd(s: string): (r: seq<string>)
    ensures r != []
  {
    if s == "" then [""]
    else if |s| > 1 && s[0] == '&' && s[1] == '&' then [""] + SplitAnd(s[2..])
    else
      var rest := SplitAnd(s[1..]);
      [[s[0]] + rest[0]] + rest[1..]
  }

  function TrimAll(ss: seq<string>): seq<string> {
    if ss == [] then [] else [Trim(ss[0])] + TrimAll(ss[1..])
  }

  function ReadClauses(ss: seq<string>): seq<seq<string>> {
    if ss == [] then [] else [TrimAll(Split(ss[0], ','))] + ReadClauses(ss[1..])
  }

  function Read(expr: string): seq<seq<string>> {
    ReadClauses(SplitAnd(expr))
  }

  /** `~@tag` asks for a feature without the tag, `@tag` for one with it. */
  predicate AtomHolds(atom: string, tags: set<string>) {
    if "~@" <= atom then atom[2..] !in tags
    else "@" <= atom && atom[1..] in tags
  }

  predicate ClauseHolds(clause: seq<string>, tags: set<string>) {
    exists i :: 0 <= i < |clause| && AtomHolds(clause[i], tags)
  }

  predicate Holds(clauses: seq<seq<string>>, tags: set<string>) {
    forall i :: 0 <= i < |clauses| ==> ClauseHolds(clauses[i], tags)
  }

  /// ## Reading what was written

  predicate NoAnd(s: string) {
    forall i :: 0 <= i < |s| - 1 ==> !(s[i] == '&' && s[i + 1] == '&')
  }

  /** Tags that an expression can hold: without `&&` and commas, and not ending in a space. */
  predicate GoodTag(tag: string) {
    NoAnd(tag) && ',' !in tag && (tag != "" ==> !Space(tag[|tag| - 1]))
  }

  /** Atoms start with a mark, so a space at the start of a tag does no harm. */
  predicate GoodAtom(atom: string) {
    atom != "" && !Space(atom[0]) && atom[0] != '&' && GoodTag(atom)
  }

  predicate GoodClause(clause: seq<string>) {
    clause != [] && forall i :: 0 <= i < |clause| ==> GoodAtom(clause[i])
  }

  function Write(clauses: seq<seq<string>>): seq<string> {
    if clauses == [] then [] else [Join(clauses[0], ",")] + Write(clauses[1..])
  }

  lemma {:induction false} SplitAndOne(s: string)
    requires NoAnd(s)
    ensures SplitAnd(s) == [s]
  {
    if s != "" {
      SplitAndOne(s[1..]);
      assert s == [s[0]] + s[1..];
    }
  }

  lemma {:induction false} SplitAndFirst(s: string, rest: string)
    requires NoAnd(s) && (s != "" ==> s[|s| - 1] != '&')
    ensures SplitAnd(s + "&&" + rest) == [s] + SplitAnd(rest)
  {
    var all := s + "&&" + rest;
    if s == "" {
      assert all[2..] == rest;
    } else {
      assert all[1..] == s[1..] + "&&" + rest;
      SplitAndFirst(s[1..], rest);
      if |s| == 1 { assert all[0] != '&'; } else { assert all[0] == s[0] && all[1] == s[1]; }
      var tail := SplitAnd(all[1..]);
      assert tail[0] == s[1..] && tail[1..] == SplitAnd(rest);
      assert s == [s[0]] + s[1..];
    }
  }

  lemma {:induction false} JoinGood(clause: seq<string>)
    requires GoodClause(clause)
    ensures var s := Join(clause, ","); s != "" && !Space(s[0]) && s[0] != '&' && NoAnd(s) && !Space(s[|s| - 1])
  {
    if |clause| > 1 {
      JoinGood(clause[1..]);
      var a, b := clause[0], Join(clause[1..], ",");
      assert Join(clause, ",") == a + "," + b;
    }
  }

  lemma {:induction false} TrimAtom(atom: string, left: string, right: string)
    requires GoodAtom(atom) && (left == "" || left == " ") && (right == "" || right == " ")
    ensures Trim(left + atom + right) == atom
  {
    var s := left + atom + right;
    assert TrimLeft(atom + right) == atom + right;
    if left == " " { assert s[1..] == atom + right; } else { assert s == atom + right; }
    if right == " " { assert (atom + right)[..|atom|] == atom; } else { assert atom + right == atom; }
    assert TrimRight(atom) == atom;
  }

  /** The atoms of a clause come back trimmed, with or without a space on either side of the clause. */
  lemma {:induction false} ReadClause(clause: seq<string>, left: string, right: string)
    requires GoodClause(clause) && (left == "" || left == " ") && (right == "" || right == " ")
    ensures TrimAll(Split(left + Join(clause, ",") + right, ',')) == clause
  {
    hide Trim, Split, GoodAtom;
    if |clause| == 1 {
      ReadLastAtom(clause[0], left, right);
      assert clause == [clause[0]];
    } else {
      var more := Join(clause[1..], ",") + right;
      ReadFirstAtom(clause[0], left, more);
      assert left + Join(clause, ",") + right == left + clause[0] + "," + more;
      ReadClause(clause[1..], "", right);
      assert "" + Join(clause[1..], ",") + right == more;
      assert clause == [clause[0]] + clause[1..];
    }
  }

  lemma {:induction false} ReadLastAtom(atom: string, left: string, right: string)
    requires GoodAtom(atom) && (left == "" || left == " ") && (right == "" || right == " ")
    ensures TrimAll(Split(left + atom + right, ',')) == [atom]
  {
    var s := left + atom + right;
    TrimAtom(atom, left, right);
    hide Trim, Split;
    SplitOne(s, ',');
    assert [s][1..] == [];
  }

  lemma {:induction false} ReadFirstAtom(atom: string, left: string, more: string)
    requires GoodAtom(atom) && (left == "" || left == " ")
    ensures TrimAll(Split(left + atom + "," + more, ',')) == [atom] + TrimAll(Split(more, ','))
  {
    TrimAtom(atom, left, "");
    assert left + atom + "" == left + atom;
    hide Trim, Split;
    SplitFirst(left + atom, ',', more);
    assert ([left + atom] + Split(more, ','))[1..] == Split(more, ',');
  }

  /** Reading recovers the clauses that were written. */
  lemma {:induction false} ReadBack(clauses: seq<seq<string>>, left: string)
    requires clauses != [] && (forall i :: 0 <= i < |clauses| ==> GoodClause(clauses[i])) && (left == "" || left == " ")
    ensures Read(left + Join(Write(clauses), " && ")) == clauses
  {
    hide Read, GoodClause;
    var first := Join(clauses[0], ",");
    if |clauses| == 1 {
      assert Write(clauses[1..]) == [] && Write(clauses) == [first];
      assert Join([first], " && ") == first && clauses == [clauses[0]];
      ReadLastClause(clauses[0], left);
    } else {
      var rest := Join(Write(clauses[1..]), " && ");
      ReadBack(clauses[1..], " ");
      assert Write(clauses)[1..] == Write(clauses[1..]);
      assert left + Join(Write(clauses), " && ") == left + first + " && " + rest;
      ReadFirstClause(clauses[0], left, rest);
      assert clauses == [clauses[0]] + clauses[1..];
    }
  }

  lemma {:induction false} ReadLastClause(clause: seq<string>, left: string)
    requires GoodClause(clause) && (left == "" || left == " ")
    ensures Read(left + Join(clause, ",")) == [clause]
  {
    JoinGood(clause);
    ReadClause(clause, left, "");
    hide GoodClause, Join, TrimAll, Split;
    var s := left + Join(clause, ",");
    assert s + "" == s;
    SplitAndOne(s);
    assert [s][1..] == [];
    assert ReadClauses([s]) == [clause] + ReadClauses([]);
  }

  lemma {:induction false} ReadFirstClause(clause: seq<string>, left: string, rest: string)
    requires GoodClause(clause) && (left == "" || left == " ")
    ensures Read(left + Join(clause, ",") + " && " + rest) == [clause] + Read(" " + rest)
  {
    JoinGood(clause);
    ReadClause(clause, left, " ");
    hide GoodClause, Join, TrimAll, Split;
    var s := left + Join(clause, ",") + " ";
    assert left + Join(clause, ",") + " && " + rest == s + "&&" + (" " + rest);
    SplitAndFirst(s, " " + rest);
    assert ([s] + SplitAnd(" " + rest))[1..] == SplitAnd(" " + rest);
  }

  /// ## Writing

  const DEFAULT := "default"
  const NO_MATCH := "__no_matching_group__"

  function Effective(requested: seq<string>): set<string> {
    if requested == [] then {DEFAULT} else set g | g in requested
  }

  function OrNot(req: seq<string>, notReq: seq<string>): seq<seq<string>> {
    if notReq == [] then [] else OrNot(req, notReq[..|notReq| - 1]) + [req + [notReq[|notReq| - 1]]]
  }

  /** The clauses of the expression, given the atoms of the requested and of the other groups. */
  function Clauses(provider: string, anyGroups: bool, wanted: set<string>, req: seq<string>, notReq: seq<string>): seq<seq<string>> {
    [["~@skip:" + provider]] +
    if !anyGroups then []
    else if DEFAULT in wanted then OrNot(req, notReq)
    else if req == [] then [["@" + NO_MATCH]]
    else [req]
  }

  /** `atoms` holds the marked tags of the groups in `names`, each as often as there are such groups. */
  ghost predicate AtomsOf(atoms: seq<string>, mark: string, names: set<string>, registered: map<string, string>)
    requires names <= registered.Keys
  {
    forall a :: multiset(atoms)[a] == |Named(a, mark, names, registered)|
  }

  ghost function Named(a: string, mark: string, names: set<string>, registered: map<string, string>): set<string>
    requires names <= registered.Keys
  {
    set n | n in names && mark + registered[n] == a
  }

  /** A text that `buildTagExpression` may return. */
  ghost predicate IsExpression(expr: string, provider: string, registered: map<string, string>, requested: seq<string>) {
    exists req: seq<string>, notReq: seq<string> :: IsWritten(expr, provider, registered, requested, req, notReq)
  }

  ghost predicate IsWritten(expr: string, provider: string, registered: map<string, string>, requested: seq<string>,
                            req: seq<string>, notReq: seq<string>)
  {
    var wanted := Effective(requested);
    && C.Sorted(req) && AtomsOf(req, "@", registered.Keys * wanted, registered)
    && C.Sorted(notReq) && AtomsOf(notReq, "~@", registered.Keys - wanted, registered)
    && expr == Join(Write(Clauses(provider, registered != map[], wanted, req, notReq)), " && ")
  }

  /// ## Deterministic output

  lemma {:induction false} OneSorted(a: seq<string>, b: seq<string>)
    requires C.Sorted(a) && C.Sorted(b) && multiset(a) == multiset(b)
    ensures a == b
  {
    hide C.NotAfter;
    assert |b| == |multiset(b)| == |multiset(a)| == |a|;
    if a != [] {
      assert a[0] in multiset(b) && b[0] in multiset(a);
      FirstSame(a, b);
      assert a == [a[0]] + a[1..] && b == [b[0]] + b[1..];
      SortedTails(a, b);
      OneSorted(a[1..], b[1..]);
    }
  }

  lemma {:induction false} SortedTails(a: seq<string>, b: seq<string>)
    requires a != [] && b != [] && a[0] == b[0] && multiset(a) == multiset(b)
    ensures multiset(a[1..]) == multiset(b[1..])
  {
    assert a == [a[0]] + a[1..] && b == [b[0]] + b[1..];
    assert multiset(a[1..]) == multiset(a) - multiset{a[0]} && multiset(b[1..]) == multiset(b) - multiset{b[0]};
  }

  lemma {:induction false} FirstSame(a: seq<string>, b: seq<string>)
    requires C.Sorted(a) && C.Sorted(b) && a != [] && b != [] && a[0] in b && b[0] in a
    ensures a[0] == b[0]
  {
    assert C.NotAfter(a[0], b[0]) && C.NotAfter(b[0], a[0]);
    if a[0] != b[0] {
      BeforeTransitive(a[0], b[0], a[0]);
      BeforeIrreflexive(a[0]);
    }
  }

  /** The text does not depend on the order in which Go ranges over the groups. */
  lemma {:induction false} OneExpression(a: string, b: string, provider: string, registered: map<string, string>, requested: seq<string>)
    requires IsExpression(a, provider, registered, requested) && IsExpression(b, provider, registered, requested)
    ensures a == b
  {
    var r1, n1 :| IsWritten(a, provider, registered, requested, r1, n1);
    var r2, n2 :| IsWritten(b, provider, registered, requested, r2, n2);
    OneSorted(r1, r2);
    OneSorted(n1, n2);
  }

  /// ## What is selected

  predicate Carries(tags: set<string>, registered: map<string, string>, names: set<string>) {
    exists n :: n in names && n in registered && registered[n] in tags
  }

  /** A group is requested by its name; when no group is, the one of the name "default" is. */
  predicate Requested(name: string, requested: seq<string>) {
    name in requested || (requested == [] && name == "default")
  }

  /** The features a suite is to run: not skipped for the provider, and either untagged when the default group is
      requested, or tagged for a requested group.  Without registered groups all are. */
  ghost predicate Selected(tags: set<string>, provider: string, registered: map<string, string>, requested: seq<string>) {
    && "skip:" + provider !in tags
    && (registered == map[]
        || (Requested("default", requested) && forall n :: n in registered ==> registered[n] !in tags)
        || exists n :: n in registered && Requested(n, requested) && registered[n] in tags)
  }

  /** Only groups were requested that are not registered: nothing is to run. */
  ghost predicate NothingMatches(registered: map<string, string>, requested: seq<string>) {
    registered != map[] && !Requested("default", requested) && forall n :: n in registered ==> !Requested(n, requested)
  }

  lemma {:induction false} EffectiveIff(name: string, requested: seq<string>)
    ensures name in Effective(requested) <==> Requested(name, requested)
  {
  }

  lemma {:induction false} CarriesRequested(tags: set<string>, registered: map<string, string>, requested: seq<string>)
    ensures Carries(tags, registered, Effective(requested)) <==>
            exists n :: n in registered && Requested(n, requested) && registered[n] in tags
    ensures registered.Keys * Effective(requested) == {} <==> forall n :: n in registered ==> !Requested(n, requested)
  {
    forall n ensures n in Effective(requested) <==> Requested(n, requested) { EffectiveIff(n, requested); }
    forall n | n in registered.Keys * Effective(requested) ensures n in registered && Requested(n, requested) {
    }
    if n :| n in registered && Requested(n, requested) {
      assert n in registered.Keys * Effective(requested);
    }
  }

  lemma {:induction false} AtomNames(atoms: seq<string>, mark: string, names: set<string>, registered: map<string, string>, a: string)
    requires names <= registered.Keys && AtomsOf(atoms, mark, names, registered)
    ensures a in atoms <==> exists n :: n in names && mark + registered[n] == a
  {
    assert a in atoms <==> a in multiset(atoms);
    if a in atoms {
      assert |Named(a, mark, names, registered)| > 0;
      var n :| n in Named(a, mark, names, registered);
    }
    if n :| n in names && mark + registered[n] == a {
      assert n in Named(a, mark, names, registered);
    }
  }

  lemma {:induction false} MarkHolds(tag: string, tags: set<string>)
    ensures AtomHolds("@" + tag, tags) <==> tag in tags
    ensures AtomHolds("~@" + tag, tags) <==> tag !in tags
  {
    assert ("@" + tag)[0] == '@' && ("@" + tag)[1..] == tag && ("~@" + tag)[2..] == tag;
  }

  /** A clause of requested atoms holds for the features that carry a requested tag. */
  lemma {:induction false} RequestedHold(req: seq<string>, names: set<string>, registered: map<string, string>, tags: set<string>)
    requires names <= registered.Keys && AtomsOf(req, "@", names, registered)
    ensures ClauseHolds(req, tags) <==> Carries(tags, registered, names)
  {
    if ClauseHolds(req, tags) {
      var i :| 0 <= i < |req| && AtomHolds(req[i], tags);
      AtomNames(req, "@", names, registered, req[i]);
      var n :| n in names && "@" + registered[n] == req[i];
      MarkHolds(registered[n], tags);
    }
    if Carries(tags, registered, names) {
      var n :| n in names && n in registered && registered[n] in tags;
      AtomNames(req, "@", names, registered, "@" + registered[n]);
      var i :| 0 <= i < |req| && req[i] == "@" + registered[n];
      MarkHolds(registered[n], tags);
    }
  }

  lemma {:induction false} OrNotAt(req: seq<string>, notReq: seq<string>)
    ensures |OrNot(req, notReq)| == |notReq|
    ensures forall i :: 0 <= i < |notReq| ==> OrNot(req, notReq)[i] == req + [notReq[i]]
  {
    if notReq != [] { OrNotAt(req, notReq[..|notReq| - 1]); }
  }

  /** With the default group, the clauses hold for features that carry a requested tag or no other group's. */
  lemma {:induction false} DefaultHolds(req: seq<string>, notReq: seq<string>, others: set<string>, registered: map<string, string>, tags: set<string>)
    requires others <= registered.Keys && AtomsOf(notReq, "~@", others, registered)
    ensures Holds(OrNot(req, notReq), tags) <==> ClauseHolds(req, tags) || !Carries(tags, registered, others)
  {
    OrNotAt(req, notReq);
    var clauses := OrNot(req, notReq);
    forall i | 0 <= i < |notReq| ensures ClauseHolds(clauses[i], tags) <==> ClauseHolds(req, tags) || AtomHolds(notReq[i], tags) {
      var c := req + [notReq[i]];
      assert c[|req|] == notReq[i];
      if ClauseHolds(req, tags) {
        var j :| 0 <= j < |req| && AtomHolds(req[j], tags);
        assert c[j] == req[j];
      }
    }
    if Carries(tags, registered, others) {
      var n :| n in others && n in registered && registered[n] in tags;
      AtomNames(notReq, "~@", others, registered, "~@" + registered[n]);
      var i :| 0 <= i < |notReq| && notReq[i] == "~@" + registered[n];
      MarkHolds(registered[n], tags);
    } else {
      forall i | 0 <= i < |notReq| ensures AtomHolds(notReq[i], tags) {
        AtomNames(notReq, "~@", others, registered, notReq[i]);
        var n :| n in others && "~@" + registered[n] == notReq[i];
        MarkHolds(registered[n], tags);
      }
    }
  }

  lemma {:induction false} ConsHolds(c: seq<string>, rest: seq<seq<string>>, tags: set<string>)
    ensures Holds([c] + rest, tags) <==> ClauseHolds(c, tags) && Holds(rest, tags)
  {
    var all := [c] + rest;
    assert all[0] == c && forall i :: 0 <= i < |rest| ==> all[i + 1] == rest[i];
  }

  lemma {:induction false} SingleHolds(atom: string, tags: set<string>)
    ensures ClauseHolds([atom], tags) <==> AtomHolds(atom, tags)
  {
    assert [atom][0] == atom;
  }

  lemma {:induction false} ClausesSelect(provider: string, registered: map<string, string>, requested: seq<string>, req: seq<string>, notReq: seq<string>,
                      tags: set<string>)
    requires var wanted := Effective(requested);
             AtomsOf(req, "@", registered.Keys * wanted, registered) && AtomsOf(notReq, "~@", registered.Keys - wanted, registered)
    ensures Holds(Clauses(provider, registered != map[], Effective(requested), req, notReq), tags) <==>
            Selected(tags, provider, registered, requested)
            || (NothingMatches(registered, requested) && NO_MATCH in tags && "skip:" + provider !in tags)
  {
    var wanted := Effective(requested);
    var mine, others := registered.Keys * wanted, registered.Keys - wanted;
    CarriesRequested(tags, registered, requested);
    EffectiveIff(DEFAULT, requested);
    hide Effective, Requested;
    var skip := "~@skip:" + provider;
    assert skip == "~@" + ("skip:" + provider);
    MarkHolds("skip:" + provider, tags);
    MarkHolds(NO_MATCH, tags);
    SingleHolds(skip, tags);
    RequestedHold(req, mine, registered, tags);
    assert Carries(tags, registered, mine) <==> Carries(tags, registered, wanted);
    SplitCarries(tags, registered, mine, others);
    if registered == map[] {
      ConsHolds([skip], [], tags);
    } else if DEFAULT in wanted {
      ConsHolds([skip], OrNot(req, notReq), tags);
      DefaultHolds(req, notReq, others, registered, tags);
    } else if req == [] {
      SingleHolds("@" + NO_MATCH, tags);
      ConsHolds([skip], [["@" + NO_MATCH]], tags);
      assert [["@" + NO_MATCH]][0] == ["@" + NO_MATCH];
      NoneNamed(req, mine, registered);
    } else {
      ConsHolds([skip], [req], tags);
      assert [req][0] == req;
      NoneNamed(req, mine, registered);
    }
  }

  lemma {:induction false} SplitCarries(tags: set<string>, registered: map<string, string>, mine: set<string>, others: set<string>)
    requires mine + others == registered.Keys
    ensures Carries(tags, registered, registered.Keys) <==> Carries(tags, registered, mine) || Carries(tags, registered, others)
  {
  }

  lemma {:induction false} NoneNamed(req: seq<string>, names: set<string>, registered: map<string, string>)
    requires names <= registered.Keys && AtomsOf(req, "@", names, registered)
    ensures req == [] <==> names == {}
  {
    if req != [] { AtomNames(req, "@", names, registered, req[0]); }
    if n :| n in names { AtomNames(req, "@", names, registered, "@" + registered[n]); }
  }

  predicate GoodTags(provider: string, registered: map<string, string>) {
    GoodTag(provider) && forall n :: n in registered ==> GoodTag(registered[n])
  }

  /** Read back and evaluated, the expression accepts exactly the selected features.  The tag that stands for "no
      matching group" must not be a real one. */
  lemma {:induction false} ExpressionSelects(expr: string, provider: string, registered: map<string, string>, requested: seq<string>, tags: set<string>)
    requires IsExpression(expr, provider, registered, requested) && GoodTags(provider, registered)
    ensures Holds(Read(expr), tags) <==>
            Selected(tags, provider, registered, requested)
            || (NothingMatches(registered, requested) && "__no_matching_group__" in tags && "skip:" + provider !in tags)
  {
    var req, notReq :| IsWritten(expr, provider, registered, requested, req, notReq);
    var wanted := Effective(requested);
    var clauses := Clauses(provider, registered != map[], wanted, req, notReq);
    ClausesGood(provider, registered, requested, req, notReq);
    ReadBack(clauses, "");
    assert "" + expr == expr;
    ClausesSelect(provider, registered, requested, req, notReq, tags);
  }

  /** Without requested groups: whatever carries no tag of another group than the default one, or carries its tag. */
  lemma {:induction false} WithoutRequests(expr: string, provider: string, registered: map<string, string>, tags: set<string>)
    requires IsExpression(expr, provider, registered, []) && GoodTags(provider, registered)
    ensures Holds(Read(expr), tags) <==>
            && "skip:" + provider !in tags
            && (|| ("default" in registered && registered["default"] in tags)
                || forall n :: n in registered && n != "default" ==> registered[n] !in tags)
  {
    ExpressionSelects(expr, provider, registered, [], tags);
    hide IsExpression, Read, Holds;
    assert Requested("default", []);
  }

  lemma {:induction false} MarkGood(mark: string, tag: string)
    requires GoodTag(tag) && mark in {"@", "~@", "~@skip:"}
    ensures GoodAtom(mark + tag)
  {
  }

  lemma {:induction false} ClausesGood(provider: string, registered: map<string, string>, requested: seq<string>, req: seq<string>, notReq: seq<string>)
    requires GoodTags(provider, registered)
    requires var wanted := Effective(requested);
             AtomsOf(req, "@", registered.Keys * wanted, registered) && AtomsOf(notReq, "~@", registered.Keys - wanted, registered)
    ensures var clauses := Clauses(provider, registered != map[], Effective(requested), req, notReq);
            forall i :: 0 <= i < |clauses| ==> GoodClause(clauses[i])
  {
    var wanted := Effective(requested);
    MarkGood("~@skip:", provider);
    MarkGood("@", NO_MATCH);
    forall i | 0 <= i < |req| ensures GoodAtom(req[i]) {
      AtomNames(req, "@", registered.Keys * wanted, registered, req[i]);
      var n :| n in registered.Keys * wanted && "@" + registered[n] == req[i];
      MarkGood("@", registered[n]);
    }
    forall i | 0 <= i < |notReq| ensures GoodAtom(notReq[i]) {
      AtomNames(notReq, "~@", registered.Keys - wanted, registered, notReq[i]);
      var n :| n in registered.Keys - wanted && "~@" + registered[n] == notReq[i];
      MarkGood("~@", registered[n]);
    }
    OrNotAt(req, notReq);
  }

  /// ## The builder

  class SuiteBuilder {
    var provider: string
    var registeredGroups: map<string, string>
    var requestedGroups: seq<string>

    constructor (provider: string, requested: seq<string>)
      ensures this.provider == provider && requestedGroups == requested && registeredGroups == map[]
    {
      this.provider, requestedGroups, registeredGroups := provider, requested, map[];
    }

    method RegisterGroup(name: string, tag: string)
      modifies `registeredGroups
      ensures registeredGroups == old(registeredGroups)[name := tag]
    {
      registeredGroups := registeredGroups[name := tag];
    }

    /** buildTagExpression */
    method BuildTagExpression() returns (expr: string)
      ensures IsExpression(expr, provider, registeredGroups, requestedGroups)
    {
      hide AtomsOf, C.Sorted, Join, Effective;
      var providerFilter := "~@skip:" + provider;
      var wanted := Effective(requestedGroups);
      var req, notReq := Partition(registeredGroups, wanted);
      var clauses: seq<string> := [];
      if registeredGroups == map[] {
        expr := providerFilter;
      } else if DEFAULT in wanted {
        for i := 0 to |notReq|
          invariant clauses == Write(OrNot(req, notReq[..i]))
        {
          assert notReq[..i + 1][..i] == notReq[..i];
          WriteMore(OrNot(req, notReq[..i]), req + [notReq[i]]);
          clauses := clauses + [Join(req + [notReq[i]], ",")];
        }
        assert notReq[..|notReq|] == notReq;
        OrNotAt(req, notReq);
        WriteLength(OrNot(req, notReq));
        assert clauses == Write(OrNot(req, notReq));
        expr := if notReq == [] then providerFilter else providerFilter + " && " + Join(clauses, " && ");
      } else if req == [] {
        expr := providerFilter + " && @" + NO_MATCH;
        clauses := ["@" + NO_MATCH];
      } else {
        expr := providerFilter + " && " + Join(req, ",");
        clauses := [Join(req, ",")];
      }
      WriteOne(req);
      WriteOne(["@" + NO_MATCH]);
      JoinOne(Join(req, ","), " && ");
      JoinOne("@" + NO_MATCH, ",");
      JoinOne("@" + NO_MATCH, " && ");
      Assembled(expr, provider, registeredGroups != map[], wanted, req, notReq, clauses);
      assert IsWritten(expr, provider, registeredGroups, requestedGroups, req, notReq);
    }
  }

  lemma {:induction false} Assembled(expr: string, provider: string, anyGroups: bool, wanted: set<string>, req: seq<string>, notReq: seq<string>,
                  clauses: seq<string>)
    requires clauses == Write(Clauses(provider, anyGroups, wanted, req, notReq)[1..])
    requires expr == "~@skip:" + provider + if clauses == [] then "" else " && " + Join(clauses, " && ")
    ensures expr == Join(Write(Clauses(provider, anyGroups, wanted, req, notReq)), " && ")
  {
    var all, filter := Clauses(provider, anyGroups, wanted, req, notReq), "~@skip:" + provider;
    assert Join([filter], ",") == filter;
    assert Write(all) == [filter] + clauses;
    assert ([filter] + clauses)[1..] == clauses;
    if clauses != [] { assert filter + (" && " + Join(clauses, " && ")) == filter + " && " + Join(clauses, " && "); }
  }

  lemma {:induction false} WriteMore(clauses: seq<seq<string>>, c: seq<string>)
    ensures Write(clauses + [c]) == Write(clauses) + [Join(c, ",")]
  {
    var all := clauses + [c];
    if clauses == [] {
      assert all == [c] && [c][1..] == [];
    } else {
      assert all[1..] == clauses[1..] + [c];
      WriteMore(clauses[1..], c);
    }
  }

  lemma {:induction false} JoinOne(s: string, sep: string)
    ensures Join([s], sep) == s
  {
  }

  lemma {:induction false} WriteOne(c: seq<string>)
    ensures Write([c]) == [Join(c, ",")]
  {
    assert [c][1..] == [];
  }

  lemma {:induction false} WriteLength(clauses: seq<seq<string>>)
    ensures |Write(clauses)| == |clauses|
  {
    if clauses != [] { WriteLength(clauses[1..]); }
  }

  /** The loop over the registered groups, in Go's arbitrary order, and the two sorts. */
  method Partition(registered: map<string, string>, wanted: set<string>) returns (req: seq<string>, notReq: seq<string>)
    ensures C.Sorted(req) && AtomsOf(req, "@", registered.Keys * wanted, registered)
    ensures C.Sorted(notReq) && AtomsOf(notReq, "~@", registered.Keys - wanted, registered)
  {
    req, notReq := [], [];
    var left := registered.Keys;
    while left != {}
      invariant left <= registered.Keys
      invariant AtomsOf(req, "@", (registered.Keys - left) * wanted, registered)
      invariant AtomsOf(notReq, "~@", registered.Keys - left - wanted, registered)
      decreases |left|
    {
      var name :| name in left;
      var done := registered.Keys - left;
      assert registered.Keys - (left - {name}) == done + {name};
      if name in wanted {
        assert (done + {name}) * wanted == done * wanted + {name};
        assert done + {name} - wanted == done - wanted;
        OneAtomMore(req, "@", done * wanted, registered, name);
        req := req + ["@" + registered[name]];
      } else {
        assert (done + {name}) * wanted == done * wanted;
        assert done + {name} - wanted == done - wanted + {name};
        OneAtomMore(notReq, "~@", done - wanted, registered, name);
        notReq := notReq + ["~@" + registered[name]];
      }
      left := left - {name};
    }
    assert registered.Keys - {} == registered.Keys;
    req := SortTags(req);
    notReq := SortTags(notReq);
  }

  lemma {:induction false} OneAtomMore(atoms: seq<string>, mark: string, names: set<string>, registered: map<string, string>, name: string)
    requires names <= registered.Keys && name in registered && name !in names && AtomsOf(atoms, mark, names, registered)
    ensures AtomsOf(atoms + [mark + registered[name]], mark, names + {name}, registered)
  {
    var atom := mark + registered[name];
    forall a ensures multiset(atoms + [atom])[a] == |Named(a, mark, names + {name}, registered)| {
      if a == atom {
        assert Named(a, mark, names + {name}, registered) == Named(a, mark, names, registered) + {name};
      } else {
        assert Named(a, mark, names + {name}, registered) == Named(a, mark, names, registered);
      }
    }
  }

  method SortTags(tags: seq<string>) returns (sorted: seq<string>)
    ensures C.Sorted(sorted) && multiset(sorted) == multiset(tags)
  {
    var a := new string[|tags|](i requires 0 <= i < |tags| => tags[i]);
    assert a[..] == tags;
    C.SortStrings(a);
    sorted := a[..];
  }
}
