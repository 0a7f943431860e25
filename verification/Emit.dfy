/** The nodes that gotohelm emits, the writer that prints them as template actions, and the reading of
    such an action list by the template parser. */
module Emit {
  import opened Wrappers
  import opened HelmTemplate

  const FLAG := "_is_returning"

  /// ## Nodes

  datatype Node =
    | Assignment(x: string, isNew: bool, e: TExpr)
    | Capture(e: TExpr)             // Statement: an expression whose value is dropped
    | BreakNode                     // Statement with NoCapture
    | ContinueNode
    | Return(e: TExpr)
    | Block(nodes: seq<Node>)
    | Range(key: string, val: string, over: TExpr, body: Node)
    | IfStmt(init: Option<Node>, cond: TExpr, body: Node, els: Option<Node>)

  datatype FuncNode = FuncNode(name: string, params: seq<string>, statements: seq<Node>)

  /** A call: `(get (fromJson (include NAME (dict "a" (ENCAPSULATOR ARGS...)))) "r")`. */
  function CallNode(name: TExpr, encapsulator: Builtin, args: seq<TExpr>): TExpr {
    TApply(BGet("r"), [TApply(BFromJson, [TInclude(name, TApply(BDict(["a"]), [TApply(encapsulator, args)]))])])
  }

  /// ## Actions

  datatype Action =
    | ADefine(name: string)
    | AParam(x: string, i: nat)                    // {{ $x := (index .a i) }}
    | AAssign(x: string, isNew: bool, e: TExpr)
    | AEmit(e: TExpr)
    | ABreak
    | AContinue
    | AIf(cond: TExpr)
    | AElse
    | AEnd
    | ARange(decl: seq<string>, over: TExpr)

  function Actions(n: Node): seq<Action>
    decreases n, 0
  {
    match n
    case Assignment(x, isNew, e) => [AAssign(x, isNew, e)]
    case Capture(e) => [AAssign("_", true, e)]
    case BreakNode => [ABreak]
    case ContinueNode => [AContinue]
    case Return(e) =>
      [AAssign(FLAG, false, TLit(JBool(true))), AEmit(TApply(BDict(["r"]), [e])), ABreak]
    case Block(nodes) => AllActions(nodes)
    case Range(key, val, over, body) =>
      [ARange([key, val], over)] + Actions(body) + [AEnd, AIf(TVar(FLAG)), ABreak, AEnd]
    case IfStmt(init, cond, body, els) =>
      OptActions(init) + ([AIf(cond)] + Actions(body) + ElseActions(els) + [AEnd])
  }

  function OptActions(n: Option<Node>): seq<Action>
    decreases n, 1
  {
    if n.None? then [] else Actions(n.value)
  }

  function ElseActions(n: Option<Node>): seq<Action>
    decreases n, 1
  {
    if n.None? then [] else [AElse] + Actions(n.value)
  }

  function AllActions(nodes: seq<Node>): seq<Action>
    decreases nodes, 0
  {
    if nodes == [] then [] else Actions(nodes[0]) + AllActions(nodes[1..])
  }

  function ParamActions(params: seq<string>, i: nat): seq<Action>
    requires i <= |params|
    decreases |params| - i
  {
    if i == |params| then [] else [AParam(params[i], i)] + ParamActions(params, i + 1)
  }

  const WRAP: Action := ARange(["_"], TLit(JList([JNum(1)])))
  const START: Action := AAssign(FLAG, true, TLit(JBool(false)))

  /** The body is wrapped in a loop of one turn, so that `break` can leave it. */
  function FuncActions(f: FuncNode): seq<Action> {
    [ADefine(f.name)] + ParamActions(f.params, 0) + [WRAP, START]
    + AllActions(f.statements) + [AEnd, AEnd]
  }

  function FileActions(fs: seq<FuncNode>): seq<Action> {
    if fs == [] then [] else FuncActions(fs[0]) + FileActions(fs[1..])
  }

  /// ## Writing

  lemma {:induction false} AllActionsSnoc(nodes: seq<Node>, n: Node)
    ensures AllActions(nodes + [n]) == AllActions(nodes) + Actions(n)
  {
    if nodes == [] {
      assert [n] == nodes + [n];
      assert AllActions([n]) == Actions(n) + AllActions([]);
    } else {
      assert (nodes + [n])[1..] == nodes[1..] + [n];
      AllActionsSnoc(nodes[1..], n);
    }
  }

  lemma {:induction false} FileActionsSnoc(fs: seq<FuncNode>, f: FuncNode)
    ensures FileActions(fs + [f]) == FileActions(fs) + FuncActions(f)
  {
    if fs == [] {
      assert [f] == fs + [f];
      assert FileActions([f]) == FuncActions(f) + FileActions([]);
    } else {
      assert (fs + [f])[1..] == fs[1..] + [f];
      FileActionsSnoc(fs[1..], f);
    }
  }

  lemma {:induction false} ParamActionsPrefix(params: seq<string>, j: nat, i: nat)
    requires j <= i <= |params|
    ensures ParamActions(params, j) == ParamActions(params[..i], j) + ParamActions(params, i)
    decreases i - j
  {
    if j < i {
      ParamActionsPrefix(params, j + 1, i);
    }
  }

  lemma {:induction false} AppendIf(before: seq<Action>, n: Node)
    requires n.IfStmt?
    ensures before + OptActions(n.init) + [AIf(n.cond)] + Actions(n.body) + ElseActions(n.els) + [AEnd]
         == before + Actions(n)
  {
  }

  /** The writer that the Write methods append to. */
  class Writer {
    var out: seq<Action>

    constructor ()
      ensures out == []
    {
      out := [];
    }

    method Put(a: Action)
      modifies this
      ensures out == old(out) + [a]
    {
      out := out + [a];
    }

    method Write(n: Node)
      modifies this
      ensures out == old(out) + Actions(n)
      decreases n, 1
    {
      match n
      case Assignment(x, isNew, e) => Put(AAssign(x, isNew, e));
      case Capture(e) => Put(AAssign("_", true, e));
      case BreakNode => Put(ABreak);
      case ContinueNode => Put(AContinue);
      case Return(e) => WriteReturn(e);
      case Block(nodes) => WriteAll(nodes);
      case Range(_, _, _, _) => WriteRange(n);
      case IfStmt(_, _, _, _) => WriteIf(n);
    }

    method WriteReturn(e: TExpr)
      modifies this
      ensures out == old(out) + Actions(Return(e))
    {
      Put(AAssign(FLAG, false, TLit(JBool(true))));
      Put(AEmit(TApply(BDict(["r"]), [e])));
      Put(ABreak);
    }

    method WriteRange(n: Node)
      requires n.Range?
      modifies this
      ensures out == old(out) + Actions(n)
      decreases n, 0
    {
      Put(ARange([n.key, n.val], n.over));
      Write(n.body);
      Put(AEnd);
      Put(AIf(TVar(FLAG)));
      Put(ABreak);
      Put(AEnd);
    }

    method WriteIf(n: Node)
      requires n.IfStmt?
      modifies this
      ensures out == old(out) + Actions(n)
      decreases n, 0
    {
      if n.init.Some? { Write(n.init.value); }
      assert out == old(out) + OptActions(n.init);
      Put(AIf(n.cond));
      Write(n.body);
      label beforeElse:
      if n.els.Some? {
        Put(AElse);
        Write(n.els.value);
      }
      assert out == old@beforeElse(out) + ElseActions(n.els);
      Put(AEnd);
      AppendIf(old(out), n);
    }

    method WriteAll(nodes: seq<Node>)
      modifies this
      ensures out == old(out) + AllActions(nodes)
      decreases nodes, 0
    {
      for i := 0 to |nodes|
        invariant out == old(out) + AllActions(nodes[..i])
      {
        Write(nodes[i]);
        AllActionsSnoc(nodes[..i], nodes[i]);
        assert nodes[..i + 1] == nodes[..i] + [nodes[i]];
      }
      assert nodes[..|nodes|] == nodes;
    }

    method WriteFunc(f: FuncNode)
      modifies this
      ensures out == old(out) + FuncActions(f)
    {
      Put(ADefine(f.name));
      for i := 0 to |f.params|
        invariant out == old(out) + [ADefine(f.name)] + ParamActions(f.params[..i], 0)
      {
        Put(AParam(f.params[i], i));
        ParamActionsPrefix(f.params[..i + 1], 0, i);
        assert f.params[..i + 1][..i] == f.params[..i];
        assert ParamActions(f.params[..i + 1], i + 1) == [];
      }
      assert f.params[..|f.params|] == f.params;
      Put(WRAP);
      Put(START);
      WriteAll(f.statements);
      Put(AEnd);
      Put(AEnd);
    }

    method WriteFile(fs: seq<FuncNode>)
      modifies this
      ensures out == old(out) + FileActions(fs)
    {
      for i := 0 to |fs|
        invariant out == old(out) + FileActions(fs[..i])
      {
        WriteFunc(fs[i]);
        FileActionsSnoc(fs[..i], fs[i]);
        assert fs[..i + 1] == fs[..i] + [fs[i]];
      }
      assert fs[..|fs|] == fs;
    }
  }

  /// ## Reading

  datatype Parsed = Parsed(stmts: seq<TStmt>, rest: seq<Action>)

  /** Reads statements up to an `end` or `else` that belongs to an enclosing action. */
  function ParseList(acts: seq<Action>): (r: Option<Parsed>)
    ensures r.Some? ==> |r.value.rest| <= |acts|
    decreases |acts|
  {
    if acts == [] then Some(Parsed([], []))
    else match acts[0]
      case AEnd => Some(Parsed([], acts))
      case AElse => Some(Parsed([], acts))
      case AAssign(x, isNew, e) => Prepend([TAssign(x, isNew, e)], ParseList(acts[1..]))
      case AEmit(e) => Prepend([TEmit(e)], ParseList(acts[1..]))
      case ABreak => Prepend([TBreak], ParseList(acts[1..]))
      case AContinue => Prepend([TContinue], ParseList(acts[1..]))
      case AIf(cond) =>
        (match ParseList(acts[1..])
         case None => None
         case Some(Parsed(thn, rest)) =>
           if rest == [] then None
           else if rest[0] == AEnd then Prepend([TIf(cond, thn, [])], ParseList(rest[1..]))
           else
             match ParseList(rest[1..])
             case None => None
             case Some(Parsed(els, rest')) =>
               if rest' == [] || rest'[0] != AEnd then None
               else Prepend([TIf(cond, thn, els)], ParseList(rest'[1..])))
      case ARange(decl, over) =>
        (match ParseList(acts[1..])
         case None => None
         case Some(Parsed(body, rest)) =>
           if rest == [] || rest[0] != AEnd then None
           else Prepend([TRange(decl, over, body)], ParseList(rest[1..])))
      case _ => None
  }

  function Prepend(ss: seq<TStmt>, r: Option<Parsed>): Option<Parsed> {
    match r
    case None => None
    case Some(Parsed(ss', rest)) => Some(Parsed(ss + ss', rest))
  }

  /** `define "name"`, its parameters, its body. */
  function ParseParams(acts: seq<Action>, i: nat): (r: (seq<string>, seq<Action>))
    ensures |r.1| <= |acts|
    decreases |acts|
  {
    if acts != [] && acts[0].AParam? && acts[0].i == i then
      var more := ParseParams(acts[1..], i + 1);
      ([acts[0].x] + more.0, more.1)
    else ([], acts)
  }

  function ParseFile(acts: seq<Action>): Option<seq<Define>>
    decreases |acts|
  {
    if acts == [] then Some([])
    else if !acts[0].ADefine? then None
    else
      var (params, body) := ParseParams(acts[1..], 0);
      match ParseList(body)
      case None => None
      case Some(Parsed(stmts, rest)) =>
        if rest == [] || rest[0] != AEnd then None
        else match ParseFile(rest[1..])
          case None => None
          case Some(more) => Some([Define(acts[0].name, params, stmts)] + more)
  }

  /// ## The statements that the actions of a node stand for

  function Meaning(n: Node): seq<TStmt>
    decreases n, 0
  {
    match n
    case Assignment(x, isNew, e) => [TAssign(x, isNew, e)]
    case Capture(e) => [TAssign("_", true, e)]
    case BreakNode => [TBreak]
    case ContinueNode => [TContinue]
    case Return(e) =>
      [TAssign(FLAG, false, TLit(JBool(true))), TEmit(TApply(BDict(["r"]), [e])), TBreak]
    case Block(nodes) => Meanings(nodes)
    case Range(key, val, over, body) =>
      [TRange([key, val], over, Meaning(body)), TIf(TVar(FLAG), [TBreak], [])]
    case IfStmt(init, cond, body, els) =>
      OptMeaning(init) + [TIf(cond, Meaning(body), OptMeaning(els))]
  }

  function OptMeaning(n: Option<Node>): seq<TStmt>
    decreases n, 1
  {
    if n.None? then [] else Meaning(n.value)
  }

  function Meanings(nodes: seq<Node>): seq<TStmt>
    decreases nodes, 0
  {
    if nodes == [] then [] else Meaning(nodes[0]) + Meanings(nodes[1..])
  }

  function DefineOf(f: FuncNode): Define {
    Define(f.name, f.params,
           [TRange(["_"], TLit(JList([JNum(1)])), [TAssign(FLAG, true, TLit(JBool(false)))] + Meanings(f.statements))])
  }

  function DefinesOf(fs: seq<FuncNode>): seq<Define> {
    if fs == [] then [] else [DefineOf(fs[0])] + DefinesOf(fs[1..])
  }

  /// ## Reading undoes writing

  predicate Simple(a: Action) {
    a.AAssign? || a.AEmit? || a.ABreak? || a.AContinue?
  }

  function StmtOf(a: Action): TStmt
    requires Simple(a)
  {
    match a
    case AAssign(x, isNew, e) => TAssign(x, isNew, e)
    case AEmit(e) => TEmit(e)
    case ABreak => TBreak
    case AContinue => TContinue
  }

  lemma {:induction false} ParseSimple(a: Action, tail: seq<Action>)
    requires Simple(a)
    ensures ParseList([a] + tail) == Prepend([StmtOf(a)], ParseList(tail))
  {
    assert ([a] + tail)[1..] == tail;
  }

  lemma {:induction false} PrependNothing(r: Option<Parsed>)
    ensures Prepend([], r) == r
  {
    if r.Some? {
      assert [] + r.value.stmts == r.value.stmts;
    }
  }

  lemma {:induction false} PrependTwice(a: seq<TStmt>, b: seq<TStmt>, r: Option<Parsed>)
    ensures Prepend(a, Prepend(b, r)) == Prepend(a + b, r)
  {
    if r.Some? {
      assert a + (b + r.value.stmts) == (a + b) + r.value.stmts;
    }
  }

  /** `body` is read up to the `end` of a range, or of an `if` without `else`. */
  lemma {:induction false} ParseBracket(open: Action, body: seq<Action>, stmts: seq<TStmt>, tail: seq<Action>)
    requires open.ARange? || open.AIf?
    requires ParseList(body + ([AEnd] + tail)) == Some(Parsed(stmts + [], [AEnd] + tail))
    ensures ParseList([open] + (body + ([AEnd] + tail)))
         == Prepend([if open.AIf? then TIf(open.cond, stmts, []) else TRange(open.decl, open.over, stmts)], ParseList(tail))
  {
    assert stmts + [] == stmts;
    assert ([open] + (body + ([AEnd] + tail)))[1..] == body + ([AEnd] + tail);
    assert ([AEnd] + tail)[1..] == tail;
  }

  lemma {:induction false} ParseIfElse(cond: TExpr, body: seq<Action>, thn: seq<TStmt>, other: seq<Action>, els: seq<TStmt>, tail: seq<Action>)
    requires ParseList(body + ([AElse] + (other + ([AEnd] + tail))))
          == Some(Parsed(thn + [], [AElse] + (other + ([AEnd] + tail))))
    requires ParseList(other + ([AEnd] + tail)) == Some(Parsed(els + [], [AEnd] + tail))
    ensures ParseList([AIf(cond)] + (body + ([AElse] + (other + ([AEnd] + tail)))))
         == Prepend([TIf(cond, thn, els)], ParseList(tail))
  {
    assert thn + [] == thn && els + [] == els;
    var rest := [AElse] + (other + ([AEnd] + tail));
    assert ([AIf(cond)] + (body + rest))[1..] == body + rest;
    assert rest[1..] == other + ([AEnd] + tail);
    assert ([AEnd] + tail)[1..] == tail;
  }

  /** Whatever follows, the actions of a node are read as its statements. */
  lemma {:induction false} ParseNode(n: Node, tail: seq<Action>)
    ensures ParseList(Actions(n) + tail) == Prepend(Meaning(n), ParseList(tail))
    decreases n, 1
  {
    match n
    case Assignment(x, isNew, e) => ParseSimple(AAssign(x, isNew, e), tail);
    case Capture(e) => ParseSimple(AAssign("_", true, e), tail);
    case BreakNode => ParseSimple(ABreak, tail);
    case ContinueNode => ParseSimple(AContinue, tail);
    case Return(e) => ParseReturn(e, tail);
    case Block(nodes) => ParseNodes(nodes, tail);
    case Range(_, _, _, _) => ParseRange(n, tail);
    case IfStmt(_, _, _, _) => ParseIf(n, tail);
  }

  lemma {:induction false} ParseReturn(e: TExpr, tail: seq<Action>)
    ensures ParseList(Actions(Return(e)) + tail) == Prepend(Meaning(Return(e)), ParseList(tail))
  {
    var a, b, c := AAssign(FLAG, false, TLit(JBool(true))), AEmit(TApply(BDict(["r"]), [e])), ABreak;
    assert Actions(Return(e)) == [a, b, c];
    assert [a, b, c] + tail == [a] + ([b] + ([c] + tail));
    ParseSimple(a, [b] + ([c] + tail));
    ParseSimple(b, [c] + tail);
    ParseSimple(c, tail);
    PrependTwice([StmtOf(b)], [StmtOf(c)], ParseList(tail));
    PrependTwice([StmtOf(a)], [StmtOf(b)] + [StmtOf(c)], ParseList(tail));
    assert Meaning(Return(e)) == [StmtOf(a)] + ([StmtOf(b)] + [StmtOf(c)]);
  }

  lemma {:induction false} ParseRange(n: Node, tail: seq<Action>)
    requires n.Range?
    ensures ParseList(Actions(n) + tail) == Prepend(Meaning(n), ParseList(tail))
    decreases n, 0
  {
    var check := [AIf(TVar(FLAG))] + ([ABreak] + ([AEnd] + tail));
    var open := ARange([n.key, n.val], n.over);
    RangeTail(n, tail);
    ParseCheck(tail);
    ParseNode(n.body, [AEnd] + check);
    ParseEnd(check);
    ParseBracket(open, Actions(n.body), Meaning(n.body), check);
    var loop, leave := TRange(open.decl, open.over, Meaning(n.body)), TIf(TVar(FLAG), [TBreak], []);
    PrependTwice([loop], [leave], ParseList(tail));
    assert Meaning(n) == [loop] + [leave];
  }

  lemma {:induction false} RangeTail(n: Node, tail: seq<Action>)
    requires n.Range?
    ensures Actions(n) + tail
         == [ARange([n.key, n.val], n.over)]
            + (Actions(n.body) + ([AEnd] + ([AIf(TVar(FLAG))] + ([ABreak] + ([AEnd] + tail)))))
  {
  }

  lemma {:induction false} ParseEnd(tail: seq<Action>)
    ensures ParseList([AEnd] + tail) == Some(Parsed([], [AEnd] + tail))
  {
  }

  lemma {:induction false} ParseElse(tail: seq<Action>)
    ensures ParseList([AElse] + tail) == Some(Parsed([], [AElse] + tail))
  {
  }

  lemma {:induction false} ParseCheck(tail: seq<Action>)
    ensures ParseList([AIf(TVar(FLAG))] + ([ABreak] + ([AEnd] + tail)))
         == Prepend([TIf(TVar(FLAG), [TBreak], [])], ParseList(tail))
  {
    ParseSimple(ABreak, [AEnd] + tail);
    ParseEnd(tail);
    ParseBracket(AIf(TVar(FLAG)), [ABreak], [TBreak], tail);
  }

  lemma {:induction false} ParseIf(n: Node, tail: seq<Action>)
    requires n.IfStmt?
    ensures ParseList(Actions(n) + tail) == Prepend(Meaning(n), ParseList(tail))
    decreases n, 0
  {
    hide ParseList, Actions;
    var afterBody := ElseActions(n.els) + ([AEnd] + tail);
    var bare := [AIf(n.cond)] + (Actions(n.body) + afterBody);
    var stmt := TIf(n.cond, Meaning(n.body), OptMeaning(n.els));
    ParseNode(n.body, afterBody);
    ParseEnd(tail);
    if n.els.Some? {
      var els := n.els.value;
      ParseNode(els, [AEnd] + tail);
      assert afterBody == [AElse] + (Actions(els) + ([AEnd] + tail));
      ParseElse(Actions(els) + ([AEnd] + tail));
      ParseIfElse(n.cond, Actions(n.body), Meaning(n.body), Actions(els), Meaning(els), tail);
    } else {
      assert afterBody == [AEnd] + tail;
      ParseBracket(AIf(n.cond), Actions(n.body), Meaning(n.body), tail);
    }
    assert ParseList(bare) == Prepend([stmt], ParseList(tail));
    PrependInit(n, bare, [stmt], tail);
    AppendTail(n, tail);
  }

  lemma {:induction false} AppendTail(n: Node, tail: seq<Action>)
    requires n.IfStmt?
    ensures Actions(n) + tail
         == OptActions(n.init) + ([AIf(n.cond)] + (Actions(n.body) + (ElseActions(n.els) + ([AEnd] + tail))))
  {
  }

  lemma {:induction false} PrependInit(n: Node, bare: seq<Action>, stmts: seq<TStmt>, tail: seq<Action>)
    requires n.IfStmt?
    requires ParseList(bare) == Prepend(stmts, ParseList(tail))
    ensures ParseList(OptActions(n.init) + bare) == Prepend(OptMeaning(n.init) + stmts, ParseList(tail))
    decreases n, -1
  {
    if n.init.Some? {
      ParseNode(n.init.value, bare);
      PrependTwice(Meaning(n.init.value), stmts, ParseList(tail));
    } else {
      assert OptActions(n.init) + bare == bare;
      assert OptMeaning(n.init) + stmts == stmts;
    }
  }

  lemma {:induction false} ParseNodes(nodes: seq<Node>, tail: seq<Action>)
    ensures ParseList(AllActions(nodes) + tail) == Prepend(Meanings(nodes), ParseList(tail))
    decreases nodes, 0
  {
    if nodes == [] {
      assert AllActions(nodes) + tail == tail;
      PrependNothing(ParseList(tail));
    } else {
      ParseNodes(nodes[1..], tail);
      ParseNode(nodes[0], AllActions(nodes[1..]) + tail);
      assert AllActions(nodes) + tail == Actions(nodes[0]) + (AllActions(nodes[1..]) + tail);
      PrependTwice(Meaning(nodes[0]), Meanings(nodes[1..]), ParseList(tail));
    }
  }

  lemma {:induction false} ParseParam(x: string, i: nat, more: seq<Action>)
    ensures var rest := ParseParams(more, i + 1); ParseParams([AParam(x, i)] + more, i) == ([x] + rest.0, rest.1)
  {
    assert ([AParam(x, i)] + more)[1..] == more;
  }

  lemma {:induction false} ParseNoParam(i: nat, tail: seq<Action>)
    requires tail != [] && !tail[0].AParam?
    ensures ParseParams([] + tail, i) == ([], tail)
  {
    assert [] + tail == tail;
  }

  lemma {:induction false} ParamActionsTail(params: seq<string>, i: nat, tail: seq<Action>)
    requires i < |params|
    ensures ParamActions(params, i) + tail == [AParam(params[i], i)] + (ParamActions(params, i + 1) + tail)
  {
  }

  lemma {:induction false} ParseParamsOf(params: seq<string>, i: nat, tail: seq<Action>)
    requires i <= |params|
    requires tail != [] && !tail[0].AParam?
    ensures ParseParams(ParamActions(params, i) + tail, i) == (params[i..], tail)
    decreases |params| - i
  {
    hide ParseParams;
    if i == |params| {
      ParseNoParam(i, tail);
    } else {
      hide ParamActions;
      ParseParamsOf(params, i + 1, tail);
      ParamActionsTail(params, i, tail);
      ParseParam(params[i], i, ParamActions(params, i + 1) + tail);
      assert params[i..] == [params[i]] + params[i + 1..];
    }
  }

  /** The body of a `define`. */
  lemma {:induction false} ParseBody(f: FuncNode, tail: seq<Action>)
    ensures ParseList([WRAP] + ([START] + AllActions(f.statements) + ([AEnd] + ([AEnd] + tail))))
         == Some(Parsed(DefineOf(f).body, [AEnd] + tail))
  {
    var close := [AEnd] + ([AEnd] + tail);
    ParseNodes(f.statements, close);
    ParseEnd([AEnd] + tail);
    ParseEnd(tail);
    ParseStart(f.statements, close);
    ParseBracket(WRAP, [START] + AllActions(f.statements), [StmtOf(START)] + Meanings(f.statements), [AEnd] + tail);
    assert DefineOf(f).body + [] == DefineOf(f).body;
  }

  lemma {:induction false} JoinThree(a: seq<Action>, b: seq<Action>, c: seq<Action>)
    ensures a + (b + c) == a + b + c
  {
  }

  lemma {:induction false} ParseStart(nodes: seq<Node>, close: seq<Action>)
    requires ParseList(AllActions(nodes) + close) == Some(Parsed(Meanings(nodes) + [], close))
    ensures ParseList([START] + AllActions(nodes) + close)
         == Some(Parsed([StmtOf(START)] + Meanings(nodes) + [], close))
  {
    ParseSimple(START, AllActions(nodes) + close);
    hide ParseList, AllActions, Meanings, StmtOf;
    JoinThree([START], AllActions(nodes), close);
    assert [StmtOf(START)] + Meanings(nodes) + [] == [StmtOf(START)] + Meanings(nodes);
    assert Meanings(nodes) + [] == Meanings(nodes);
  }

  lemma {:induction false} FuncActionsTail(f: FuncNode, tail: seq<Action>)
    ensures FuncActions(f) + tail
         == [ADefine(f.name)] + (ParamActions(f.params, 0)
            + ([WRAP] + ([START] + AllActions(f.statements) + ([AEnd] + ([AEnd] + tail)))))
  {
  }

  /** A written file is read as one definition per function, in order: the function's parameters, and a
      one-turn loop around the statements of its body. */
  lemma {:induction false} ReadWritten(fs: seq<FuncNode>)
    ensures ParseFile(FileActions(fs)) == Some(DefinesOf(fs))
  {
    if fs != [] {
      var f := fs[0];
      var more := FileActions(fs[1..]);
      var body := [WRAP] + ([START] + AllActions(f.statements) + ([AEnd] + ([AEnd] + more)));
      FuncActionsTail(f, more);
      ParseParamsOf(f.params, 0, body);
      ParseBody(f, more);
      ReadWritten(fs[1..]);
      assert f.params[0..] == f.params;
      ReadOne(f, ParamActions(f.params, 0) + body, body, more);
    }
  }

  lemma {:induction false} ReadOne(f: FuncNode, afterName: seq<Action>, body: seq<Action>, more: seq<Action>)
    requires ParseParams(afterName, 0) == (f.params, body)
    requires ParseList(body) == Some(Parsed(DefineOf(f).body, [AEnd] + more))
    requires ParseFile(more).Some?
    ensures ParseFile([ADefine(f.name)] + afterName) == Some([DefineOf(f)] + ParseFile(more).value)
  {
    assert ([ADefine(f.name)] + afterName)[1..] == afterName;
    assert ([AEnd] + more)[1..] == more;
  }
}
