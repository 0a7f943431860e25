/** The emitted templates compute what the Go functions compute. */
module Simulation {
  import opened Wrappers
  import G = GoLang
  import opened HelmTemplate
  import opened Transpile
  import opened ExprProof
  import opened ScopeProof
  import E = Emit

  function Defs(p: G.Program): seq<Define> {
    E.DefinesOf(TranspileFuncs(p.funcs))
  }

  /** The fragment that the translation handles, after hoisting. */
  ghost predicate Good(p: G.Program) {
    GoodFuncs(p.funcs) && !p.eager && p.untyped
  }

  /// ## What is claimed of each construct

  ghost predicate ValueHolds(g: Res<G.Value>, t: Res<Json>) {
    match g
    case Ok(v) => t == Ok(Enc(v))
    case Stuck => true
    case _ => !t.Ok?
  }

  ghost predicate ValuesHold(g: Res<seq<G.Value>>, t: Res<seq<Json>>) {
    match g
    case Ok(vs) => t == Ok(EncAll(vs))
    case Stuck => true
    case _ => !t.Ok?
  }

  /** The JSON under the key "r": one result as it is, any other number as a list. */
  function ResultJson(vs: seq<G.Value>): Json {
    if |vs| == 1 then Enc(vs[0]) else JList(EncAll(vs))
  }

  /** A call without results has no value to speak of. */
  ghost predicate CallHolds(g: Res<seq<G.Value>>, t: Res<Json>) {
    match g
    case Ok(vs) => t.Ok? && (vs != [] ==> t.value == ResultJson(vs))
    case Stuck => true
    case _ => !t.Ok?
  }

  /** A function that returns prints one document, a function that falls off its end prints none. */
  function Output(sig: G.Signal): seq<Json> {
    if sig.Ret? then [JDict([("r", ResultJson(sig.vs))])] else []
  }

  ghost predicate InvokeHolds(g: Res<G.Signal>, t: Res<seq<Json>>) {
    match g
    case Ok(sig) => sig.Brk? || sig.Cont? || t == Ok(Output(sig))
    case Stuck => true
    case _ => !t.Ok?
  }

  function TSig(sig: G.Signal): TSignal {
    match sig
    case Next => TNext
    case Brk => TBrk
    case Cont => TCont
    case Ret(_) => TBrk
  }

  ghost predicate FlowHolds(env: G.Scopes, marks: seq<nat>, declared: set<string>, g: G.Flow, t: TFlow) {
    && t.sig == TSig(g.sig)
    && t.out == Output(g.sig)
    && Rel(g.env, t.vars, marks)
    && FindVar(t.vars, E.FLAG) == Some(JBool(g.sig.Ret?))
    && Grown(env, g.env, declared)
  }

  ghost predicate StmtHolds(env: G.Scopes, marks: seq<nat>, declared: set<string>, g: Res<G.Flow>, t: Res<TFlow>) {
    match g
    case Ok(flow) => t.Ok? && FlowHolds(env, marks, declared, flow, t.value)
    case Stuck => true
    case _ => !t.Ok?
  }

  /** Variables of `names` have the same values on both sides. */
  ghost predicate Agree(names: set<string>, env: G.Scopes, vars: seq<Binding>) {
    forall x :: x in names && G.Lookup(env, x).Some? ==> FindVar(vars, x) == Some(Enc(G.Lookup(env, x).value))
  }

  lemma {:induction false} RelAgrees(env: G.Scopes, vars: seq<Binding>, marks: seq<nat>, names: set<string>)
    requires Rel(env, vars, marks)
    ensures Agree(names, env, vars)
  {
    forall x | G.Lookup(env, x).Some? ensures FindVar(vars, x) == Some(Enc(G.Lookup(env, x).value)) {
      RelLookup(env, vars, marks, x);
    }
  }

  /// ## Expressions

  lemma {:induction false} SimExpr(p: G.Program, fuel: nat, env: G.Scopes, vars: seq<Binding>, e: G.Expr)
    requires Good(p) && Agree(FreeVars(e), env, vars)
    ensures ValueHolds(G.Eval(p, fuel, env, e), TEval(Defs(p), fuel, vars, TranspileExpr(e)))
    decreases fuel, e, 0
  {
    match e
    case Lit(_) =>
    case Var(_) =>
    case Apply(op, args) => SimApply(p, fuel, env, vars, op, args);
    case And(left, right) =>
      SimExpr(p, fuel, env, vars, left);
      SimExpr(p, fuel, env, vars, right);
    case Or(left, right) =>
      SimExpr(p, fuel, env, vars, left);
      SimExpr(p, fuel, env, vars, right);
    case FuncRef(f) => SimFuncRef(p, fuel, vars, f);
    case MethodRef(f, recv, kind) =>
      SimExpr(p, fuel, env, vars, recv);
      SimMethodRef(p, fuel, env, vars, f, recv, kind);
    case Call(call) => SimCall(p, fuel, env, vars, call);
  }

  lemma {:induction false} SimApply(p: G.Program, fuel: nat, env: G.Scopes, vars: seq<Binding>, op: G.Op, args: seq<G.Expr>)
    requires Good(p) && Agree(AllFreeVars(args), env, vars)
    ensures ValueHolds(G.Eval(p, fuel, env, G.Apply(op, args)), TEval(Defs(p), fuel, vars, TranspileOp(op, TranspileExprs(args))))
    decreases fuel, args, 1
  {
    SimExprs(p, fuel, env, vars, args);
    match G.EvalAll(p, fuel, env, args)
    case Ok(vs) => SimOp(Defs(p), fuel, vars, op, TranspileExprs(args), vs);
    case Stuck =>
    case _ => OpFails(Defs(p), fuel, vars, op, TranspileExprs(args));
  }

  lemma {:induction false} SimExprs(p: G.Program, fuel: nat, env: G.Scopes, vars: seq<Binding>, es: seq<G.Expr>)
    requires Good(p) && Agree(AllFreeVars(es), env, vars)
    ensures ValuesHold(G.EvalAll(p, fuel, env, es), TEvalAll(Defs(p), fuel, vars, TranspileExprs(es)))
    decreases fuel, es, 0
  {
    if es != [] {
      SimExpr(p, fuel, env, vars, es[0]);
      SimExprs(p, fuel, env, vars, es[1..]);
      EvalCons(Defs(p), fuel, vars, TranspileExpr(es[0]), TranspileExprs(es[1..]));
      var vs := G.EvalAll(p, fuel, env, es);
      if vs.Ok? {
        assert vs.value[0] == G.Eval(p, fuel, env, es[0]).value;
        assert vs.value[1..] == G.EvalAll(p, fuel, env, es[1..]).value;
      }
    }
  }

  lemma {:induction false} SimFuncRef(p: G.Program, fuel: nat, vars: seq<Binding>, f: string)
    ensures TEval(Defs(p), fuel, vars, TranspileExpr(G.FuncRef(f))) == Ok(Enc(G.Func(f, [])))
  {
    EvalOne(Defs(p), fuel, vars, TLit(JStr(f)));
    EvalList(Defs(p), fuel, vars, [TLit(JStr(f))]);
    assert [JStr(f)] + EncAll([]) == [JStr(f)];
  }

  /** deepCopy changes nothing, as nothing here is updated in place. */
  lemma {:induction false} EvalReceiver(defs: seq<Define>, fuel: nat, vars: seq<Binding>, e: TExpr, kind: G.Receiver)
    ensures var r := TEval(defs, fuel, vars, Receiver(kind, e));
            if TEval(defs, fuel, vars, e).Ok? then r == TEval(defs, fuel, vars, e) else !r.Ok?
  {
    EvalOne(defs, fuel, vars, e);
  }

  lemma {:induction false} SimMethodRef(p: G.Program, fuel: nat, env: G.Scopes, vars: seq<Binding>, f: string, recv: G.Expr, kind: G.Receiver)
    requires p.untyped && ValueHolds(G.Eval(p, fuel, env, recv), TEval(Defs(p), fuel, vars, TranspileExpr(recv)))
    ensures var e := G.MethodRef(f, recv, kind);
            ValueHolds(G.Eval(p, fuel, env, e), TEval(Defs(p), fuel, vars, TranspileExpr(e)))
  {
    var target := Receiver(kind, TranspileExpr(recv));
    EvalReceiver(Defs(p), fuel, vars, TranspileExpr(recv), kind);
    EvalTwo(Defs(p), fuel, vars, TLit(JStr(f)), target);
    EvalList(Defs(p), fuel, vars, [TLit(JStr(f)), target]);
    var r := G.Eval(p, fuel, env, recv);
    if r.Ok? {
      assert EncAll([r.value]) == [Enc(r.value)];
      assert [JStr(f)] + [Enc(r.value)] == [JStr(f), Enc(r.value)];
    }
  }

  /// ## Calls

  function CalleeName(c: G.Invocation): TExpr {
    match c.callee
    case Static(f) => TLit(JStr(f))
    case Method(f, _, _) => TLit(JStr(f))
    case FuncValue(e) => TApply(BFirst, [TranspileExpr(e)])
  }

  function Passed(c: G.Invocation): TExpr {
    match c.callee
    case Static(_) => TApply(BList, TranspileExprs(c.args))
    case Method(_, recv, kind) => TApply(BList, [Receiver(kind, TranspileExpr(recv))] + TranspileExprs(c.args))
    case FuncValue(e) => TApply(BConcat, [TApply(BRest, [TranspileExpr(e)]), TApply(BList, TranspileExprs(c.args))])
  }

  /** The name and the argument list that a call hands to `include`. */
  ghost predicate TargetHolds(g: Res<(string, seq<G.Value>)>, name: Res<Json>, passed: Res<Json>) {
    match g
    case Ok(target) => name == Ok(JStr(target.0)) && passed == Ok(JList(EncAll(target.1)))
    case Stuck => true
    case _ => !name.Ok? || !passed.Ok?
  }

  lemma {:induction false} SimTarget(p: G.Program, fuel: nat, env: G.Scopes, vars: seq<Binding>, c: G.Invocation)
    requires Good(p) && Agree(CallFreeVars(c), env, vars)
    ensures TargetHolds(G.Target(p, fuel, env, c), TEval(Defs(p), fuel, vars, CalleeName(c)), TEval(Defs(p), fuel, vars, Passed(c)))
    decreases fuel, c, 0
  {
    SimExprs(p, fuel, env, vars, c.args);
    EvalList(Defs(p), fuel, vars, TranspileExprs(c.args));
    match c.callee
    case Static(_) =>
    case Method(f, recv, kind) =>
      SimExpr(p, fuel, env, vars, recv);
      SimMethodTarget(p, fuel, env, vars, c);
    case FuncValue(e) =>
      SimExpr(p, fuel, env, vars, e);
      SimFuncTarget(p, fuel, env, vars, c);
  }

  lemma {:induction false} SimMethodTarget(p: G.Program, fuel: nat, env: G.Scopes, vars: seq<Binding>, c: G.Invocation)
    requires c.callee.Method? && p.untyped
    requires ValueHolds(G.Eval(p, fuel, env, c.callee.recv), TEval(Defs(p), fuel, vars, TranspileExpr(c.callee.recv)))
    requires ValuesHold(G.EvalAll(p, fuel, env, c.args), TEvalAll(Defs(p), fuel, vars, TranspileExprs(c.args)))
    ensures TargetHolds(G.Target(p, fuel, env, c), TEval(Defs(p), fuel, vars, CalleeName(c)), TEval(Defs(p), fuel, vars, Passed(c)))
  {
    var e := TranspileExpr(c.callee.recv);
    var target := Receiver(c.callee.kind, e);
    EvalReceiver(Defs(p), fuel, vars, e, c.callee.kind);
    EvalCons(Defs(p), fuel, vars, target, TranspileExprs(c.args));
    EvalList(Defs(p), fuel, vars, [target] + TranspileExprs(c.args));
    var r, vs := G.Eval(p, fuel, env, c.callee.recv), G.EvalAll(p, fuel, env, c.args);
    if r.Ok? && vs.Ok? {
      EncAppend([r.value], vs.value);
      assert EncAll([r.value]) == [Enc(r.value)];
    }
  }

  lemma {:induction false} SimFuncTarget(p: G.Program, fuel: nat, env: G.Scopes, vars: seq<Binding>, c: G.Invocation)
    requires c.callee.FuncValue?
    requires ValueHolds(G.Eval(p, fuel, env, c.callee.e), TEval(Defs(p), fuel, vars, TranspileExpr(c.callee.e)))
    requires ValuesHold(G.EvalAll(p, fuel, env, c.args), TEvalAll(Defs(p), fuel, vars, TranspileExprs(c.args)))
    ensures TargetHolds(G.Target(p, fuel, env, c), TEval(Defs(p), fuel, vars, CalleeName(c)), TEval(Defs(p), fuel, vars, Passed(c)))
  {
    var e, args := TranspileExpr(c.callee.e), TranspileExprs(c.args);
    FuncValueFails(Defs(p), fuel, vars, e, args);
    EvalList(Defs(p), fuel, vars, args);
    hide TEval, TEvalAll, G.Eval, G.EvalAll, TranspileExpr, TranspileExprs, EncAll, Defs;
    var h, vs := G.Eval(p, fuel, env, c.callee.e), G.EvalAll(p, fuel, env, c.args);
    if h.Ok? && h.value.Func? && vs.Ok? {
      SimCaptured(Defs(p), fuel, vars, e, TApply(BList, args), h.value, vs.value);
    }
  }

  lemma {:induction false} FuncValueFails(defs: seq<Define>, fuel: nat, vars: seq<Binding>, e: TExpr, args: seq<TExpr>)
    ensures !TEval(defs, fuel, vars, e).Ok? || TEval(defs, fuel, vars, e) == Ok(JNull) ==>
              !TEval(defs, fuel, vars, TApply(BFirst, [e])).Ok?
    ensures !TEvalAll(defs, fuel, vars, args).Ok? ==>
              !TEval(defs, fuel, vars, TApply(BConcat, [TApply(BRest, [e]), TApply(BList, args)])).Ok?
  {
    EvalOne(defs, fuel, vars, e);
    EvalTwo(defs, fuel, vars, TApply(BRest, [e]), TApply(BList, args));
  }

  lemma {:induction false} SplitFunc(defs: seq<Define>, fuel: nat, vars: seq<Binding>, e: TExpr, name: Json, captured: seq<Json>)
    requires TEval(defs, fuel, vars, e) == Ok(JList([name] + captured))
    ensures TEval(defs, fuel, vars, TApply(BFirst, [e])) == Ok(name)
    ensures TEval(defs, fuel, vars, TApply(BRest, [e])) == Ok(JList(captured))
  {
    EvalOne(defs, fuel, vars, e);
    assert ([name] + captured)[1..] == captured;
  }

  /** A function value is called with its captured receiver, then the arguments. */
  lemma {:induction false} SimCaptured(defs: seq<Define>, fuel: nat, vars: seq<Binding>, e: TExpr, list: TExpr, h: G.Value, vs: seq<G.Value>)
    requires h.Func? && TEval(defs, fuel, vars, e) == Ok(Enc(h)) && TEval(defs, fuel, vars, list) == Ok(JList(EncAll(vs)))
    ensures TEval(defs, fuel, vars, TApply(BFirst, [e])) == Ok(JStr(h.name))
    ensures TEval(defs, fuel, vars, TApply(BConcat, [TApply(BRest, [e]), list])) == Ok(JList(EncAll(h.captured + vs)))
  {
    SplitFunc(defs, fuel, vars, e, JStr(h.name), EncAll(h.captured));
    EvalConcat(defs, fuel, vars, TApply(BRest, [e]), list, EncAll(h.captured), EncAll(vs));
    EncAppend(h.captured, vs);
  }

  /** What `get "r"` of the parsed output of a template is. */
  function Unwrap(out: seq<Json>): Json {
    if |out| == 1 && out[0].JDict? then
      match Entry(out[0].entries, "r") case Some(v) => v case None => JStr("")
    else JStr("")
  }

  lemma {:induction false} IncludeRuns(defs: seq<Define>, fuel: nat, vars: seq<Binding>, name: TExpr, dot: TExpr, f: string, d: Json)
    requires TEval(defs, fuel, vars, name) == Ok(JStr(f)) && TEval(defs, fuel, vars, dot) == Ok(d)
    ensures var r := TEval(defs, fuel, vars, TInclude(name, dot));
            if fuel == 0 || !Render(defs, fuel - 1, f, d).Ok? then !r.Ok? else r == Ok(Text(Render(defs, fuel - 1, f, d).value))
  {
  }

  lemma {:induction false} ApplyOne(defs: seq<Define>, fuel: nat, vars: seq<Binding>, f: Builtin, e: TExpr)
    ensures var r, v := TEval(defs, fuel, vars, TApply(f, [e])), TEval(defs, fuel, vars, e);
            if v.Ok? then r == Run(f, [v.value]) else !r.Ok?
  {
    EvalOne(defs, fuel, vars, e);
    hide Run;
  }

  lemma {:induction false} ReadsResult(out: seq<Json>)
    ensures var j := Run(BFromJson, [Text(out)]); j.Ok? && Run(BGet("r"), [j.value]) == Ok(Unwrap(out))
  {
  }

  lemma {:induction false} EvalInclude(defs: seq<Define>, fuel: nat, vars: seq<Binding>, name: TExpr, dot: TExpr, f: string, d: Json)
    requires TEval(defs, fuel, vars, name) == Ok(JStr(f)) && TEval(defs, fuel, vars, dot) == Ok(d)
    ensures var r := TEval(defs, fuel, vars, TApply(BGet("r"), [TApply(BFromJson, [TInclude(name, dot)])]));
            if fuel == 0 || !Render(defs, fuel - 1, f, d).Ok? then !r.Ok?
            else r == Ok(Unwrap(Render(defs, fuel - 1, f, d).value))
  {
    var incl := TInclude(name, dot);
    IncludeRuns(defs, fuel, vars, name, dot, f, d);
    ApplyOne(defs, fuel, vars, BFromJson, incl);
    ApplyOne(defs, fuel, vars, BGet("r"), TApply(BFromJson, [incl]));
    hide TEval, TEvalAll, Render, Run, Unwrap;
    if fuel > 0 && Render(defs, fuel - 1, f, d).Ok? {
      ReadsResult(Render(defs, fuel - 1, f, d).value);
    }
  }

  function Dot(vs: seq<G.Value>): Json {
    JDict([("a", JList(EncAll(vs)))])
  }

  lemma {:induction false} EvalDot(defs: seq<Define>, fuel: nat, vars: seq<Binding>, key: string, e: TExpr)
    ensures var r := TEval(defs, fuel, vars, TApply(BDict([key]), [e]));
            var x := TEval(defs, fuel, vars, e);
            if x.Ok? then r == Ok(JDict([(key, x.value)])) else !r.Ok?
  {
    EvalOne(defs, fuel, vars, e);
    var x := TEval(defs, fuel, vars, e);
    if x.Ok? {
      assert DictOf([key], [x.value]) == [(key, x.value)] by {
        assert [key][..0] == [] && [x.value][..0] == [];
      }
    }
  }

  lemma {:induction false} SimCall(p: G.Program, fuel: nat, env: G.Scopes, vars: seq<Binding>, c: G.Invocation)
    requires Good(p) && Agree(CallFreeVars(c), env, vars)
    ensures CallHolds(G.EvalCall(p, fuel, env, c), TEval(Defs(p), fuel, vars, TranspileCall(c)))
    decreases fuel, c, 1
  {
    SimTarget(p, fuel, env, vars, c);
    var target := G.Target(p, fuel, env, c);
    if target.Ok? {
      if fuel > 0 { SimInvoke(p, fuel - 1, target.value.0, target.value.1); }
      FinishCall(p, fuel, env, vars, c, target.value.0, target.value.1);
    } else if !target.Stuck? {
      CallShape(c);
      IncludeFails(Defs(p), fuel, vars, CalleeName(c), Passed(c));
    }
  }

  lemma {:induction false} FinishCall(p: G.Program, fuel: nat, env: G.Scopes, vars: seq<Binding>, c: G.Invocation, f: string, vs: seq<G.Value>)
    requires G.Target(p, fuel, env, c) == Ok((f, vs))
    requires TEval(Defs(p), fuel, vars, CalleeName(c)) == Ok(JStr(f))
    requires TEval(Defs(p), fuel, vars, Passed(c)) == Ok(JList(EncAll(vs)))
    requires fuel > 0 ==> InvokeHolds(G.Invoke(p, fuel - 1, f, vs), Render(Defs(p), fuel - 1, f, Dot(vs)))
    ensures CallHolds(G.EvalCall(p, fuel, env, c), TEval(Defs(p), fuel, vars, TranspileCall(c)))
  {
    CallShape(c);
    var dot := TApply(BDict(["a"]), [Passed(c)]);
    EvalDot(Defs(p), fuel, vars, "a", Passed(c));
    EvalInclude(Defs(p), fuel, vars, CalleeName(c), dot, f, Dot(vs));
    if fuel > 0 {
      UnwrapOutput(G.Invoke(p, fuel - 1, f, vs), Render(Defs(p), fuel - 1, f, Dot(vs)));
    }
  }

  lemma {:induction false} CallShape(c: G.Invocation)
    ensures TranspileCall(c)
         == TApply(BGet("r"), [TApply(BFromJson, [TInclude(CalleeName(c), TApply(BDict(["a"]), [Passed(c)]))])])
  {
  }

  lemma {:induction false} IncludeFails(defs: seq<Define>, fuel: nat, vars: seq<Binding>, name: TExpr, passed: TExpr)
    requires !TEval(defs, fuel, vars, name).Ok? || !TEval(defs, fuel, vars, passed).Ok?
    ensures !TEval(defs, fuel, vars,
                   TApply(BGet("r"), [TApply(BFromJson, [TInclude(name, TApply(BDict(["a"]), [passed]))])])).Ok?
  {
    var dot := TApply(BDict(["a"]), [passed]);
    EvalDot(defs, fuel, vars, "a", passed);
    EvalOne(defs, fuel, vars, TInclude(name, dot));
    EvalOne(defs, fuel, vars, TApply(BFromJson, [TInclude(name, dot)]));
  }

  lemma {:induction false} UnwrapOutput(g: Res<G.Signal>, t: Res<seq<Json>>)
    requires InvokeHolds(g, t)
    ensures g.Ok? && g.value.Ret? ==> t.Ok? && Unwrap(t.value) == ResultJson(g.value.vs)
    ensures g.Ok? && g.value.Next? ==> t.Ok?
  {
  }

  /// ## Function bodies

  lemma {:induction false} FindTranspiled(fs: seq<G.FuncDecl>, f: string)
    ensures match G.Find(fs, f)
            case None => FindDefine(E.DefinesOf(TranspileFuncs(fs)), f).None?
            case Some(d) =>
              && FindDefine(E.DefinesOf(TranspileFuncs(fs)), f)
                 == Some(E.DefineOf(E.FuncNode(f, d.params, TranspileStatements(d.body))))
              && exists i :: 0 <= i < |fs| && fs[i] == d
  {
    if fs != [] {
      FindTranspiled(fs[1..], f);
      if fs[0].name != f && G.Find(fs, f).Some? {
        var d := G.Find(fs, f).value;
        var i :| 0 <= i < |fs[1..]| && fs[1..][i] == d;
        assert fs[i + 1] == d;
      }
    }
  }

  /** The bindings of the parameters from the `i`-th on. */
  function ParamBindings(params: seq<string>, vs: seq<G.Value>, i: nat): seq<Binding>
    requires |params| == |vs| && i <= |params|
    decreases |params| - i
  {
    if i == |params| then [] else [Binding(params[i], Enc(vs[i]))] + ParamBindings(params, vs, i + 1)
  }

  lemma {:induction false} IndexList(xs: seq<Json>, i: nat)
    requires i < |xs|
    ensures Run(BIndex, [JList(xs), JNum(i)]) == Ok(xs[i])
  {
  }

  lemma {:induction false} BindFirst(params: seq<string>, xs: seq<Json>, i: nat)
    requires |params| == |xs| && i < |params|
    ensures var rest := Bind(params, JList(xs), i + 1);
            rest.Ok? ==> Bind(params, JList(xs), i) == Ok([Binding(params[i], xs[i])] + rest.value)
  {
    IndexList(xs, i);
    hide Run;
  }

  lemma {:induction false} BindParams(params: seq<string>, vs: seq<G.Value>, i: nat)
    requires |params| == |vs| && i <= |params|
    ensures Bind(params, JList(EncAll(vs)), i) == Ok(ParamBindings(params, vs, i))
    decreases |params| - i
  {
    if i < |params| {
      BindFirst(params, EncAll(vs), i);
      hide Bind, Enc, EncAll;
      BindParams(params, vs, i + 1);
    }
  }

  /** The scope of the parameters, next to the bindings of the parameters. */
  ghost predicate ParamScope(scope: G.Scope, vars: seq<Binding>) {
    forall x :: x in scope ==> UserName(x) && FindVar(vars, x) == Some(Enc(scope[x]))
  }

  lemma {:induction false} StoreParams(scope: G.Scope, vars: seq<Binding>, params: seq<string>, vs: seq<G.Value>, i: nat)
    requires |params| == |vs| && i <= |params| && GoodNames(params)
    requires ParamScope(scope, vars)
    ensures var r := G.StoreAll(true, [scope], params[i..], vs[i..]);
            && r.Ok? && |r.value| == 1
            && ParamScope(r.value[0], vars + ParamBindings(params, vs, i))
            && r.value[0].Keys <= scope.Keys + (set x | x in params)
    decreases |params| - i
  {
    if i == |params| {
      assert vars + ParamBindings(params, vs, i) == vars;
    } else {
      var x, v := params[i], vs[i];
      assert GoodName(x);
      var scope' := BoundParam(scope, vars, x, v);
      StoreParams(scope', vars + [Binding(x, Enc(v))], params, vs, i + 1);
      assert params[i..][1..] == params[i + 1..] && vs[i..][1..] == vs[i + 1..];
      assert vars + ParamBindings(params, vs, i) == vars + [Binding(x, Enc(v))] + ParamBindings(params, vs, i + 1);
    }
  }

  lemma {:induction false} BoundParam(scope: G.Scope, vars: seq<Binding>, x: string, v: G.Value) returns (scope': G.Scope)
    requires ParamScope(scope, vars) && GoodName(x)
    ensures G.Store(true, [scope], x, v) == Ok([scope']) && scope'.Keys <= scope.Keys + {x}
    ensures ParamScope(scope', vars + [Binding(x, Enc(v))])
  {
    scope' := if x == G.BLANK then scope else scope[x := v];
    assert [scope][..0] + [scope'] == [scope'];
    forall y | y in scope'
      ensures UserName(y) && FindVar(vars + [Binding(x, Enc(v))], y) == Some(Enc(scope'[y]))
    {
      FindPush(vars, x, Enc(v), y);
    }
  }

  lemma {:induction false} RelStart(scope: G.Scope, vars: seq<Binding>)
    requires ParamScope(scope, vars)
    ensures var vars' := vars + [Binding(G.BLANK, JNum(1))] + [Binding(E.FLAG, JBool(false))];
            Rel([scope], vars', [0]) && FindVar(vars', E.FLAG) == Some(JBool(false))
  {
    var vars1 := vars + [Binding(G.BLANK, JNum(1))];
    var vars2 := vars1 + [Binding(E.FLAG, JBool(false))];
    forall y ensures UserName(y) ==> FindVar(vars2, y) == FindVar(vars, y) {
      FindPush(vars, G.BLANK, JNum(1), y);
      FindPush(vars1, E.FLAG, JBool(false), y);
    }
    FindPush(vars1, E.FLAG, JBool(false), E.FLAG);
    FindPush(vars1, E.FLAG, JBool(false), G.BLANK);
    FindPush(vars, G.BLANK, JNum(1), G.BLANK);
    assert vars2[0..] == vars2 && [scope][..0] == [];
  }

  /** The one-turn loop around a body: what the body prints is what the template prints. */
  lemma {:induction false} RunWrapped(defs: seq<Define>, fuel: nat, vars: seq<Binding>, body: seq<TStmt>)
    ensures var r := TExecAll(defs, fuel, vars, [TRange(["_"], TLit(JList([JNum(1)])), [TAssign(E.FLAG, true, TLit(JBool(false)))] + body)]);
            var t := TExecAll(defs, fuel, vars + [Binding(G.BLANK, JNum(1))] + [Binding(E.FLAG, JBool(false))], body);
            if t.Ok? then r.Ok? && r.value.out == t.value.out else !r.Ok?
  {
    var start := TAssign(E.FLAG, true, TLit(JBool(false)));
    var loop := TRange(["_"], TLit(JList([JNum(1)])), [start] + body);
    var vars1 := vars + [Binding(G.BLANK, JNum(1))];
    var vars2 := vars1 + [Binding(E.FLAG, JBool(false))];
    var t := TExecAll(defs, fuel, vars2, body);
    ExecCons(defs, fuel, vars1, start, body);
    if t.Ok? { assert [] + t.value.out == t.value.out; }
    var items := [(JNum(0), JNum(1))];
    assert RangeItems(JList([JNum(1)])) == Ok(items) by {
      assert RangeItems(JList([JNum(1)])).value == items;
    }
    assert Bindings(["_"], items[0]) == [Binding(G.BLANK, JNum(1))];
    assert items[1..] == [];
    ExecCons(defs, fuel, vars, loop, []);
    assert [loop] + [] == [loop];
    OneTurn(defs, fuel, vars, items[0], [start] + body);
  }

  lemma {:induction false} OneTurn(defs: seq<Define>, fuel: nat, vars: seq<Binding>, item: (Json, Json), body: seq<TStmt>)
    ensures var r := TLoop(defs, fuel, vars, ["_"], [item], body);
            var t := TExecAll(defs, fuel, vars + Bindings(["_"], item), body);
            if t.Ok? then r.Ok? && r.value.sig == TNext && r.value.out == t.value.out else !r.Ok?
  {
    assert [item][1..] == [];
    var t := TExecAll(defs, fuel, vars + Bindings(["_"], item), body);
    if t.Ok? { assert t.value.out + [] == t.value.out; }
  }

  lemma {:induction false} ExecCons(defs: seq<Define>, fuel: nat, vars: seq<Binding>, s: TStmt, rest: seq<TStmt>)
    ensures var r := TExecAll(defs, fuel, vars, [s] + rest);
            var first := TExec(defs, fuel, vars, s);
            if !first.Ok? then !r.Ok?
            else if !first.value.sig.TNext? then r == first
            else
              var more := TExecAll(defs, fuel, first.value.vars, rest);
              if more.Ok? then r == Ok(more.value.(out := first.value.out + more.value.out)) else !r.Ok?
  {
    assert ([s] + rest)[1..] == rest;
  }

  lemma {:induction false} ExecAppend(defs: seq<Define>, fuel: nat, vars: seq<Binding>, a: seq<TStmt>, b: seq<TStmt>)
    ensures var r := TExecAll(defs, fuel, vars, a + b);
            var first := TExecAll(defs, fuel, vars, a);
            if !first.Ok? then !r.Ok?
            else if !first.value.sig.TNext? then r == first
            else
              var more := TExecAll(defs, fuel, first.value.vars, b);
              if more.Ok? then r == Ok(more.value.(out := first.value.out + more.value.out)) else !r.Ok?
    decreases |a|
  {
    if a == [] {
      assert a + b == b;
      var more := TExecAll(defs, fuel, vars, b);
      if more.Ok? { assert [] + more.value.out == more.value.out; }
    } else {
      assert a == [a[0]] + a[1..];
      assert a + b == [a[0]] + (a[1..] + b);
      ExecCons(defs, fuel, vars, a[0], a[1..]);
      ExecCons(defs, fuel, vars, a[0], a[1..] + b);
      var first := TExec(defs, fuel, vars, a[0]);
      if first.Ok? && first.value.sig.TNext? {
        ExecAppend(defs, fuel, first.value.vars, a[1..], b);
        AppendOutputs(defs, fuel, first.value, a[1..], b);
      }
    }
  }

  lemma {:induction false} AppendOutputs(defs: seq<Define>, fuel: nat, first: TFlow, a: seq<TStmt>, b: seq<TStmt>)
    ensures var second := TExecAll(defs, fuel, first.vars, a);
            second.Ok? ==>
              var third := TExecAll(defs, fuel, second.value.vars, b);
              third.Ok? ==> first.out + (second.value.out + third.value.out) == (first.out + second.value.out) + third.value.out
  {
  }

  lemma {:induction false} SimInvoke(p: G.Program, fuel: nat, f: string, vs: seq<G.Value>)
    requires Good(p)
    ensures InvokeHolds(G.Invoke(p, fuel, f, vs), Render(Defs(p), fuel, f, Dot(vs)))
    decreases fuel
  {
    FindTranspiled(p.funcs, f);
    var found := G.Find(p.funcs, f);
    if found.Some? && |found.value.params| == |vs| {
      var d := found.value;
      assert GoodFunc(d);
      BindParams(d.params, vs, 0);
      var bound := ParamBindings(d.params, vs, 0);
      StoreParams(map[], [], d.params, vs, 0);
      assert d.params[0..] == d.params && vs[0..] == vs && [] + bound == bound;
      var env := G.StoreAll(true, [map[]], d.params, vs).value;
      var scope := env[0];
      assert env == [scope];
      RelStart(scope, bound);
      var vars := bound + [Binding(G.BLANK, JNum(1))] + [Binding(E.FLAG, JBool(false))];
      assert Names(env) == scope.Keys by { assert env[..0] == []; }
      SimStmts(p, fuel, env, vars, [0], d.body, set x | x in d.params);
      RunWrapped(Defs(p), fuel, bound, E.Meanings(TranspileStatements(d.body)));
      RenderBody(p, fuel, f, d, vs);
    }
  }

  lemma {:induction false} RenderBody(p: G.Program, fuel: nat, f: string, d: G.FuncDecl, vs: seq<G.Value>)
    requires FindDefine(Defs(p), f) == Some(E.DefineOf(E.FuncNode(f, d.params, TranspileStatements(d.body))))
    requires |d.params| == |vs| && Bind(d.params, JList(EncAll(vs)), 0) == Ok(ParamBindings(d.params, vs, 0))
    ensures var r := Render(Defs(p), fuel, f, Dot(vs));
            var body := E.DefineOf(E.FuncNode(f, d.params, TranspileStatements(d.body))).body;
            var t := TExecAll(Defs(p), fuel, ParamBindings(d.params, vs, 0), body);
            if t.Ok? then r == Ok(t.value.out) else !r.Ok?
  {
    assert Run(BField("a"), [Dot(vs)]) == Ok(JList(EncAll(vs)));
  }

  /// ## Assignments

  /** An assignment, in the form of a statement that yields no signal. */
  function Assigned(r: Res<G.Scopes>): Res<G.Flow> {
    match r
    case Ok(env) => Ok(G.Flow(G.Next, env))
    case Panic => Panic
    case Stuck => Stuck
    case Timeout => Timeout
  }

  lemma {:induction false} SimAssign(p: G.Program, fuel: nat, env: G.Scopes, vars: seq<Binding>, marks: seq<nat>, define: bool, a: G.Assign)
    requires Good(p) && GoodAssign(a) && Rel(env, vars, marks) && FindVar(vars, E.FLAG) == Some(JBool(false))
    ensures StmtHolds(env, marks, NewNames(define, Targets(a)),
                      Assigned(G.ExecAssign(p, fuel, env, define, a)),
                      TExecAll(Defs(p), fuel, vars, E.Meaning(TranspileAssign(define, a))))
    decreases fuel, a, 0
  {
    match a
    case Single(x, e) =>
      assert Targets(a)[0] == x;
      RelAgrees(env, vars, marks, FreeVars(e));
      SimExpr(p, fuel, env, vars, e);
      SimSingle(p, fuel, env, vars, marks, define, x, e);
    case Tuple(xs, es) =>
      RelAgrees(env, vars, marks, AllFreeVars(es));
      SimTuple(p, fuel, env, vars, marks, define, xs, es);
    case Multi(line, xs, rhs) =>
      RelAgrees(env, vars, marks, RhsFreeVars(rhs));
      SimRhs(p, fuel, env, vars, rhs);
      SimMulti(p, fuel, env, vars, marks, define, line, xs, rhs);
  }

  /** One emitted assignment. */
  lemma {:induction false} ExecAssignment(defs: seq<Define>, fuel: nat, vars: seq<Binding>, x: string, isNew: bool, e: TExpr, rest: seq<TStmt>)
    ensures var r := TExecAll(defs, fuel, vars, [TAssign(x, isNew, e)] + rest);
            var v := TEval(defs, fuel, vars, e);
            if !v.Ok? || !Put(vars, x, isNew, v.value).Ok? then !r.Ok?
            else
              var more := TExecAll(defs, fuel, Put(vars, x, isNew, v.value).value, rest);
              if more.Ok? then r == more else !r.Ok?
  {
    ExecCons(defs, fuel, vars, TAssign(x, isNew, e), rest);
    var v := TEval(defs, fuel, vars, e);
    if v.Ok? && Put(vars, x, isNew, v.value).Ok? {
      var more := TExecAll(defs, fuel, Put(vars, x, isNew, v.value).value, rest);
      if more.Ok? { assert [] + more.value.out == more.value.out; }
    }
  }

  lemma {:induction false} SimSingle(p: G.Program, fuel: nat, env: G.Scopes, vars: seq<Binding>, marks: seq<nat>, define: bool, x: string, e: G.Expr)
    requires Rel(env, vars, marks) && FindVar(vars, E.FLAG) == Some(JBool(false)) && GoodName(x)
    requires ValueHolds(G.Eval(p, fuel, env, e), TEval(Defs(p), fuel, vars, TranspileExpr(e)))
    ensures StmtHolds(env, marks, NewNames(define, [x]),
                      Assigned(G.ExecAssign(p, fuel, env, define, G.Single(x, e))),
                      TExecAll(Defs(p), fuel, vars, [TAssign(x, define, TranspileExpr(e))]))
  {
    var stmt := TAssign(x, define, TranspileExpr(e));
    ExecAssignment(Defs(p), fuel, vars, x, define, TranspileExpr(e), []);
    assert [stmt] + [] == [stmt];
    var v := G.Eval(p, fuel, env, e);
    if v.Ok? && G.Store(define, env, x, v.value).Ok? {
      StoreOne(define, env, x, v.value);
      SimStore(define, env, vars, marks, x, v.value);
      assert x != E.FLAG;
    }
    if v.Ok? { StoreOne(define, env, x, v.value); }
  }

  lemma {:induction false} StoreOne(define: bool, env: G.Scopes, x: string, v: G.Value)
    requires env != []
    ensures G.StoreAll(define, env, [x], [v]) == G.Store(define, env, x, v)
  {
    assert [x][1..] == [] && [v][1..] == [];
  }

  lemma {:induction false} SimTuple(p: G.Program, fuel: nat, env: G.Scopes, vars: seq<Binding>, marks: seq<nat>, define: bool,
                                    xs: seq<string>, es: seq<G.Expr>)
    requires Good(p) && GoodNames(xs) && InOrder(xs, es) && Rel(env, vars, marks) && FindVar(vars, E.FLAG) == Some(JBool(false))
    requires Agree(AllFreeVars(es), env, vars)
    ensures StmtHolds(env, marks, NewNames(define, xs),
                      Assigned(G.ExecAssign(p, fuel, env, define, G.Tuple(xs, es))),
                      TExecAll(Defs(p), fuel, vars, E.Meanings(Unroll(define, xs, es))))
    decreases fuel, es, 1
  {
    var vs := G.EvalAll(p, fuel, env, es);
    match vs
    case Ok(vs) =>
      if G.StoreAll(define, env, xs, vs).Ok? {
        SimUnrolled(p, fuel, env, env, vars, marks, define, xs, es, vs);
      }
    case Stuck =>
    case _ => UnrolledFails(p, fuel, env, vars, define, xs, es);
  }

  lemma {:induction false} AgreeAfter(names: set<string>, env: G.Scopes, vars: seq<Binding>, vars': seq<Binding>, x: string)
    requires Agree(names, env, vars) && x !in names
    requires forall y :: y != x ==> FindVar(vars', y) == FindVar(vars, y)
    ensures Agree(names, env, vars')
  {
  }

  lemma {:induction false} NotFreeInAny(x: string, es: seq<G.Expr>)
    requires forall i :: 0 <= i < |es| ==> x !in FreeVars(es[i])
    ensures x !in AllFreeVars(es)
  {
    if es != [] {
      forall i | 0 <= i < |es[1..]| ensures x !in FreeVars(es[1..][i]) {
        assert es[1..][i] == es[i + 1];
      }
      NotFreeInAny(x, es[1..]);
    }
  }

  lemma {:induction false} InOrderRest(xs: seq<string>, es: seq<G.Expr>)
    requires InOrder(xs, es) && xs != []
    ensures InOrder(xs[1..], es[1..]) && xs[0] !in AllFreeVars(es[1..])
  {
    forall i | 0 <= i < |es[1..]| ensures xs[0] !in FreeVars(es[1..][i]) {
      assert es[1..][i] == es[i + 1];
    }
    NotFreeInAny(xs[0], es[1..]);
  }

  lemma {:induction false} PutOthers(vars: seq<Binding>, x: string, isNew: bool, v: Json)
    ensures Put(vars, x, isNew, v).Ok? ==> forall y :: y != x ==> FindVar(Put(vars, x, isNew, v).value, y) == FindVar(vars, y)
  {
    if Put(vars, x, isNew, v).Ok? {
      forall y | y != x ensures FindVar(Put(vars, x, isNew, v).value, y) == FindVar(vars, y) {
        if isNew { FindPush(vars, x, v, y); } else { FindAfterSet(vars, x, v, y); }
      }
    }
  }

  /** A right side without a value stops the unrolled assignments too. */
  lemma {:induction false} UnrolledFails(p: G.Program, fuel: nat, env: G.Scopes, vars: seq<Binding>, define: bool,
                                         xs: seq<string>, es: seq<G.Expr>)
    requires Good(p) && InOrder(xs, es) && Agree(AllFreeVars(es), env, vars)
    requires var r := G.EvalAll(p, fuel, env, es); !r.Ok? && !r.Stuck?
    ensures !TExecAll(Defs(p), fuel, vars, E.Meanings(Unroll(define, xs, es))).Ok?
    decreases fuel, es, 0
  {
    var e := TranspileExpr(es[0]);
    SimExpr(p, fuel, env, vars, es[0]);
    ExecAssignment(Defs(p), fuel, vars, xs[0], define, e, E.Meanings(Unroll(define, xs[1..], es[1..])));
    UnrollShape(define, xs, es);
    var v := TEval(Defs(p), fuel, vars, e);
    if v.Ok? && Put(vars, xs[0], define, v.value).Ok? {
      var vars' := Put(vars, xs[0], define, v.value).value;
      InOrderRest(xs, es);
      PutOthers(vars, xs[0], define, v.value);
      AgreeAfter(AllFreeVars(es[1..]), env, vars, vars', xs[0]);
      UnrolledFails(p, fuel, env, vars', define, xs[1..], es[1..]);
    }
  }

  lemma {:induction false} UnrollShape(define: bool, xs: seq<string>, es: seq<G.Expr>)
    requires xs != [] && es != []
    ensures E.Meanings(Unroll(define, xs, es))
         == [TAssign(xs[0], define, TranspileExpr(es[0]))] + E.Meanings(Unroll(define, xs[1..], es[1..]))
  {
    var first := E.Assignment(xs[0], define, TranspileExpr(es[0]));
    assert ([first] + Unroll(define, xs[1..], es[1..]))[1..] == Unroll(define, xs[1..], es[1..]);
  }

  lemma {:induction false} GrownTwice(env: G.Scopes, env1: G.Scopes, env2: G.Scopes, a: set<string>, b: set<string>, c: set<string>)
    requires Grown(env, env1, a) && Grown(env1, env2, b) && a + b <= c
    ensures Grown(env, env2, c)
  {
  }

  /** The right sides were evaluated in `env0`; `env` and `vars` are what the assignments so far have made. */
  lemma {:induction false} SimUnrolled(p: G.Program, fuel: nat, env0: G.Scopes, env: G.Scopes, vars: seq<Binding>, marks: seq<nat>,
                                       define: bool, xs: seq<string>, es: seq<G.Expr>, vs: seq<G.Value>)
    requires Good(p) && GoodNames(xs) && InOrder(xs, es) && Rel(env, vars, marks) && FindVar(vars, E.FLAG) == Some(JBool(false))
    requires Agree(AllFreeVars(es), env0, vars)
    requires G.EvalAll(p, fuel, env0, es) == Ok(vs) && G.StoreAll(define, env, xs, vs).Ok?
    ensures StmtHolds(env, marks, NewNames(define, xs),
                      Ok(G.Flow(G.Next, G.StoreAll(define, env, xs, vs).value)),
                      TExecAll(Defs(p), fuel, vars, E.Meanings(Unroll(define, xs, es))))
    decreases fuel, es, 0
  {
    if es == [] {
      assert xs == [] && Unroll(define, xs, es) == [];
    } else {
      SimExpr(p, fuel, env0, vars, es[0]);
      EvalAllSplit(p, fuel, env0, es, vs);
      var r := StoreStep(Defs(p), fuel, env, vars, marks, define, xs, TranspileExpr(es[0]), vs,
                         E.Meanings(Unroll(define, xs[1..], es[1..])));
      UnrollShape(define, xs, es);
      InOrderRest(xs, es);
      AgreeAfter(AllFreeVars(es[1..]), env0, vars, r.1, xs[0]);
      SimUnrolled(p, fuel, env0, r.0, r.1, marks, define, xs[1..], es[1..], vs[1..]);
      GrownTwice(env, r.0, G.StoreAll(define, env, xs, vs).value, NewNames(define, [xs[0]]), NewNames(define, xs[1..]),
                 NewNames(define, xs));
    }
  }

  lemma {:induction false} EvalAllSplit(p: G.Program, fuel: nat, env: G.Scopes, es: seq<G.Expr>, vs: seq<G.Value>)
    requires es != [] && G.EvalAll(p, fuel, env, es) == Ok(vs)
    ensures vs != [] && G.Eval(p, fuel, env, es[0]) == Ok(vs[0]) && G.EvalAll(p, fuel, env, es[1..]) == Ok(vs[1..])
  {
    assert vs[1..] == G.EvalAll(p, fuel, env, es[1..]).value;
  }

  /** The first of a list of stores, and the emitted assignment that mirrors it. */
  lemma {:induction false} StoreStep(defs: seq<Define>, fuel: nat, env: G.Scopes, vars: seq<Binding>, marks: seq<nat>, define: bool,
                  xs: seq<string>, e: TExpr, vs: seq<G.Value>, rest: seq<TStmt>) returns (r: (G.Scopes, seq<Binding>))
    requires xs != [] && |vs| == |xs| && GoodNames(xs) && Rel(env, vars, marks)
    requires TEval(defs, fuel, vars, e) == Ok(Enc(vs[0])) && G.StoreAll(define, env, xs, vs).Ok?
    ensures r.0 != [] && Rel(r.0, r.1, marks) && FindVar(r.1, E.FLAG) == FindVar(vars, E.FLAG)
    ensures Grown(env, r.0, NewNames(define, [xs[0]]))
    ensures forall y :: y != xs[0] ==> FindVar(r.1, y) == FindVar(vars, y)
    ensures G.StoreAll(define, env, xs, vs) == G.StoreAll(define, r.0, xs[1..], vs[1..])
    ensures var t := TExecAll(defs, fuel, vars, [TAssign(xs[0], define, e)] + rest);
            var more := TExecAll(defs, fuel, r.1, rest);
            if more.Ok? then t == more else !t.Ok?
  {
    assert GoodName(xs[0]);
    SimStore(define, env, vars, marks, xs[0], vs[0]);
    ExecAssignment(defs, fuel, vars, xs[0], define, e, rest);
    r := (G.Store(define, env, xs[0], vs[0]).value, Put(vars, xs[0], define, Enc(vs[0])).value);
    assert xs[0] != E.FLAG;
  }

  /// ## Assignments of several results

  function RhsFreeVars(rhs: G.MultiRhs): set<string> {
    match rhs
    case MultiCall(call) => CallFreeVars(call)
    case MapTest(m, k, _) => FreeVars(m) + FreeVars(k)
  }

  lemma {:induction false} SimRhs(p: G.Program, fuel: nat, env: G.Scopes, vars: seq<Binding>, rhs: G.MultiRhs)
    requires Good(p) && Agree(RhsFreeVars(rhs), env, vars)
    ensures CallHolds(G.EvalRhs(p, fuel, env, rhs), TEval(Defs(p), fuel, vars, TranspileRhs(rhs)))
    decreases fuel, rhs, 0
  {
    match rhs
    case MultiCall(call) => SimCall(p, fuel, env, vars, call);
    case MapTest(m, k, zero) =>
      SimExpr(p, fuel, env, vars, m);
      SimExpr(p, fuel, env, vars, k);
      SimMapTest(p, fuel, env, vars, m, k, zero);
  }

  lemma {:induction false} SimMapTest(p: G.Program, fuel: nat, env: G.Scopes, vars: seq<Binding>, m: G.Expr, k: G.Expr, zero: G.Value)
    requires ValueHolds(G.Eval(p, fuel, env, m), TEval(Defs(p), fuel, vars, TranspileExpr(m)))
    requires ValueHolds(G.Eval(p, fuel, env, k), TEval(Defs(p), fuel, vars, TranspileExpr(k)))
    ensures var rhs := G.MapTest(m, k, zero);
            CallHolds(G.EvalRhs(p, fuel, env, rhs), TEval(Defs(p), fuel, vars, TranspileRhs(rhs)))
  {
    var tm, tk := TEval(Defs(p), fuel, vars, TranspileExpr(m)), TEval(Defs(p), fuel, vars, TranspileExpr(k));
    EvalThree(Defs(p), fuel, vars, TranspileExpr(m), TranspileExpr(k), TLit(Enc(zero)));
    var mv, kv := G.Eval(p, fuel, env, m), G.Eval(p, fuel, env, k);
    if mv.Ok? && kv.Ok? {
      DictTest(mv.value, kv.value, zero);
      assert TEval(Defs(p), fuel, vars, TranspileRhs(G.MapTest(m, k, zero)))
          == Run(BDictTest, [Enc(mv.value), Enc(kv.value), Enc(zero)]);
    }
  }

  lemma {:induction false} DictTest(m: G.Value, k: G.Value, zero: G.Value)
    ensures var g := G.TestKey(m, k, zero);
            g.Stuck? || (g.Ok? && |g.value| == 2 && Run(BDictTest, [Enc(m), Enc(k), Enc(zero)]) == Ok(JList(EncAll(g.value))))
  {
    if m.Map? && k.Str? {
      EncEntry(m.entries, k.s);
    }
    var g := G.TestKey(m, k, zero);
    if g.Ok? {
      assert EncAll(g.value) == [Enc(g.value[0]), Enc(g.value[1])];
    }
  }

  lemma {:induction false} SimMulti(p: G.Program, fuel: nat, env: G.Scopes, vars: seq<Binding>, marks: seq<nat>, define: bool,
                 line: nat, xs: seq<string>, rhs: G.MultiRhs)
    requires GoodNames(xs) && |xs| >= 2 && Rel(env, vars, marks) && FindVar(vars, E.FLAG) == Some(JBool(false))
    requires CallHolds(G.EvalRhs(p, fuel, env, rhs), TEval(Defs(p), fuel, vars, TranspileRhs(rhs)))
    ensures var a := G.Multi(line, xs, rhs);
            StmtHolds(env, marks, NewNames(define, xs),
                      Assigned(G.ExecAssign(p, fuel, env, define, a)),
                      TExecAll(Defs(p), fuel, vars, E.Meaning(TranspileAssign(define, a))))
  {
    assert env != [];
    MultiShape(define, line, xs, rhs);
    ExecMultiIs(p, fuel, env, define, line, xs, rhs);
    hide Rel, FindVar, E.Meanings, E.Meaning, TranspileAssign, Unpack, TranspileRhs, G.EvalRhs, G.ExecAssign, Assigned,
      TEval, TExecAll, G.StoreAll, FlowHolds, GoodNames, NewNames, Intermediate, Defs;
    var tmp := Intermediate(line, xs);
    var rest := E.Meanings(Unpack(define, tmp, xs, 0));
    ExecAssignment(Defs(p), fuel, vars, tmp, true, TranspileRhs(rhs), rest);
    var vs := G.EvalRhs(p, fuel, env, rhs);
    if vs.Ok? && |vs.value| == |xs| && G.StoreAll(define, env, xs, vs.value).Ok? {
      SimTmp(p, fuel, env, vars, marks, define, line, xs, vs.value);
    }
  }

  lemma {:induction false} ExecMultiIs(p: G.Program, fuel: nat, env: G.Scopes, define: bool, line: nat, xs: seq<string>, rhs: G.MultiRhs)
    requires env != []
    ensures var vs, r := G.EvalRhs(p, fuel, env, rhs), Assigned(G.ExecAssign(p, fuel, env, define, G.Multi(line, xs, rhs)));
            if !vs.Ok? then !r.Ok? && r.Stuck? == vs.Stuck?
            else if |vs.value| != |xs| || !G.StoreAll(define, env, xs, vs.value).Ok? then r.Stuck?
            else r == Ok(G.Flow(G.Next, G.StoreAll(define, env, xs, vs.value).value))
  {
  }

  /** The intermediate variable holds the values and they are assigned from it in order. */
  lemma {:induction false} SimTmp(p: G.Program, fuel: nat, env: G.Scopes, vars: seq<Binding>, marks: seq<nat>, define: bool,
               line: nat, xs: seq<string>, vs: seq<G.Value>)
    requires GoodNames(xs) && |xs| == |vs| && Rel(env, vars, marks) && FindVar(vars, E.FLAG) == Some(JBool(false)) && env != []
    requires G.StoreAll(define, env, xs, vs).Ok?
    ensures var tmp := Intermediate(line, xs);
            StmtHolds(env, marks, NewNames(define, xs), Ok(G.Flow(G.Next, G.StoreAll(define, env, xs, vs).value)),
                      TExecAll(Defs(p), fuel, vars + [Binding(tmp, JList(EncAll(vs)))], E.Meanings(Unpack(define, tmp, xs, 0))))
  {
    var tmp, list := Intermediate(line, xs), JList(EncAll(vs));
    IntermediateReserved(line, xs);
    PushTmp(env, vars, marks, tmp, list);
    assert vs[0..] == vs && xs[0..] == xs;
    SimUnpack(p, fuel, env, vars + [Binding(tmp, list)], marks, define, tmp, xs, vs, 0);
  }

  lemma {:induction false} PushTmp(env: G.Scopes, vars: seq<Binding>, marks: seq<nat>, tmp: string, list: Json)
    requires Rel(env, vars, marks) && !UserName(tmp) && tmp != E.FLAG
    ensures var vars' := vars + [Binding(tmp, list)];
            Rel(env, vars', marks) && FindVar(vars', tmp) == Some(list) && FindVar(vars', E.FLAG) == FindVar(vars, E.FLAG)
  {
    RelPush(env, vars, marks, tmp, list, env[|env| - 1]);
    assert env[..|env| - 1] + [env[|env| - 1]] == env;
    FindPush(vars, tmp, list, tmp);
    FindPush(vars, tmp, list, E.FLAG);
  }

  lemma {:induction false} MultiShape(define: bool, line: nat, xs: seq<string>, rhs: G.MultiRhs)
    ensures E.Meaning(TranspileAssign(define, G.Multi(line, xs, rhs)))
         == [TAssign(Intermediate(line, xs), true, TranspileRhs(rhs))]
            + E.Meanings(Unpack(define, Intermediate(line, xs), xs, 0))
  {
    var tmp := Intermediate(line, xs);
    var first := E.Assignment(tmp, true, TranspileRhs(rhs));
    var rest := Unpack(define, tmp, xs, 0);
    assert ([first] + rest)[1..] == rest;
    assert E.Meanings([first] + rest) == E.Meaning(first) + E.Meanings(rest);
  }

  lemma {:induction false} IntermediateReserved(line: nat, xs: seq<string>)
    ensures Reserved(Intermediate(line, xs)) && Intermediate(line, xs) != E.FLAG
  {
    assert Intermediate(line, xs)[1] == Digits(line)[0];
    assert E.FLAG[1] == 'i';
  }

  lemma {:induction false} UnpackShape(define: bool, tmp: string, xs: seq<string>, i: nat)
    requires i < |xs|
    ensures E.Meanings(Unpack(define, tmp, xs, i))
         == [TAssign(xs[i], define, TApply(BIndex, [TVar(tmp), TLit(JNum(i))]))] + E.Meanings(Unpack(define, tmp, xs, i + 1))
  {
    var first := E.Assignment(xs[i], define, TApply(BIndex, [TVar(tmp), TLit(JNum(i))]));
    assert ([first] + Unpack(define, tmp, xs, i + 1))[1..] == Unpack(define, tmp, xs, i + 1);
  }

  /** The intermediate list is indexed once for each variable. */
  lemma {:induction false} SimUnpack(p: G.Program, fuel: nat, env: G.Scopes, vars: seq<Binding>, marks: seq<nat>, define: bool,
                                     tmp: string, xs: seq<string>, vs: seq<G.Value>, i: nat)
    requires GoodNames(xs) && i <= |xs| == |vs| && Rel(env, vars, marks) && FindVar(vars, E.FLAG) == Some(JBool(false))
    requires Reserved(tmp) && FindVar(vars, tmp) == Some(JList(EncAll(vs)))
    requires G.StoreAll(define, env, xs[i..], vs[i..]).Ok?
    ensures StmtHolds(env, marks, NewNames(define, xs),
                      Ok(G.Flow(G.Next, G.StoreAll(define, env, xs[i..], vs[i..]).value)),
                      TExecAll(Defs(p), fuel, vars, E.Meanings(Unpack(define, tmp, xs, i))))
    decreases |xs| - i
  {
    if i < |xs| {
      var e := TApply(BIndex, [TVar(tmp), TLit(JNum(i))]);
      EvalTwo(Defs(p), fuel, vars, TVar(tmp), TLit(JNum(i)));
      IndexList(EncAll(vs), i);
      assert xs[i..][1..] == xs[i + 1..] && vs[i..][1..] == vs[i + 1..];
      var r := StoreStep(Defs(p), fuel, env, vars, marks, define, xs[i..], e, vs[i..],
                         E.Meanings(Unpack(define, tmp, xs, i + 1)));
      UnpackShape(define, tmp, xs, i);
      assert GoodName(xs[i]) && tmp != xs[i];
      SimUnpack(p, fuel, r.0, r.1, marks, define, tmp, xs, vs, i + 1);
      GrownTwice(env, r.0, G.StoreAll(define, env, xs[i..], vs[i..]).value, NewNames(define, [xs[i]]),
                 NewNames(define, xs), NewNames(define, xs));
    }
  }

  /// ## Statements

  lemma {:induction false} SimStmt(p: G.Program, fuel: nat, env: G.Scopes, vars: seq<Binding>, marks: seq<nat>, s: G.Stmt, visible: set<string>)
    requires Good(p) && GoodStmt(s, visible) && Names(env) <= visible
    requires Rel(env, vars, marks) && FindVar(vars, E.FLAG) == Some(JBool(false))
    ensures StmtHolds(env, marks, Declared(s), G.Exec(p, fuel, env, s),
                      TExecAll(Defs(p), fuel, vars, E.Meaning(TranspileStatement(s))))
    decreases fuel, s, 0
  {
    match s
    case AssignStmt(define, a) =>
      SimAssign(p, fuel, env, vars, marks, define, a);
      AssignMeaning(p, fuel, env, define, a);
    case ExprStmt(e) =>
      RelAgrees(env, vars, marks, FreeVars(e));
      SimAny(p, fuel, env, vars, e);
      SimExprStmt(p, fuel, env, vars, marks, e);
    case Break => SimJump(p, fuel, env, vars, marks, s);
    case Continue => SimJump(p, fuel, env, vars, marks, s);
    case Return(es) => SimReturn(p, fuel, env, vars, marks, es);
    case If(chain) =>
      SimChain(p, fuel, env, vars, marks, chain, visible);
      SimIf(p, fuel, env, vars, marks, chain);
    case Range(key, val, over, body) =>
      RelAgrees(env, vars, marks, FreeVars(over));
      SimExpr(p, fuel, env, vars, over);
      SimRange(p, fuel, env, vars, marks, key, val, over, body, visible);
    case Block(body) =>
      SimBlock(p, fuel, env, vars, marks, body, visible);
      BlockMeaning(p, fuel, env, body);
  }

  /** An expression in a context that takes any number of results. */
  lemma {:induction false} SimAny(p: G.Program, fuel: nat, env: G.Scopes, vars: seq<Binding>, e: G.Expr)
    requires Good(p) && Agree(FreeVars(e), env, vars)
    ensures if e.Call? then CallHolds(G.EvalCall(p, fuel, env, e.call), TEval(Defs(p), fuel, vars, TranspileExpr(e)))
            else ValueHolds(G.Eval(p, fuel, env, e), TEval(Defs(p), fuel, vars, TranspileExpr(e)))
    decreases fuel, e, 1
  {
    if e.Call? { SimCall(p, fuel, env, vars, e.call); } else { SimExpr(p, fuel, env, vars, e); }
  }

  lemma {:induction false} AssignMeaning(p: G.Program, fuel: nat, env: G.Scopes, define: bool, a: G.Assign)
    requires env != []
    ensures TranspileStatement(G.AssignStmt(define, a)) == TranspileAssign(define, a)
    ensures G.Exec(p, fuel, env, G.AssignStmt(define, a)) == Assigned(G.ExecAssign(p, fuel, env, define, a))
    ensures Declared(G.AssignStmt(define, a)) == NewNames(define, Targets(a))
  {
  }

  lemma {:induction false} BlockMeaning(p: G.Program, fuel: nat, env: G.Scopes, body: seq<G.Stmt>)
    requires env != []
    ensures E.Meaning(TranspileStatement(G.Block(body))) == E.Meanings(TranspileStatements(body))
    ensures G.Exec(p, fuel, env, G.Block(body)) == G.ExecScoped(p, fuel, env, body)
  {
  }

  lemma {:induction false} SimIf(p: G.Program, fuel: nat, env: G.Scopes, vars: seq<Binding>, marks: seq<nat>, chain: G.Chain)
    requires env != [] && !p.eager
    requires ScopedHolds(env, vars, marks, G.ExecChain(p, fuel, env, chain, []),
                         TExecAll(Defs(p), fuel, vars, E.Meaning(TranspileChain(chain))))
    requires chain.Cond? ==> var t := TExecAll(Defs(p), fuel, vars, E.Meaning(TranspileChain(chain)));
                             t.Ok? ==> |t.value.vars| == |vars|
    requires chain.Cond?
    ensures StmtHolds(env, marks, {}, G.Exec(p, fuel, env, G.If(chain)),
                      TExecAll(Defs(p), fuel, vars, E.Meaning(TranspileStatement(G.If(chain)))))
  {
    assert TranspileStatement(G.If(chain)) == TranspileChain(chain);
    assert G.Exec(p, fuel, env, G.If(chain)) == G.ExecChain(p, fuel, env, chain, []);
    var t := TExecAll(Defs(p), fuel, vars, E.Meaning(TranspileChain(chain)));
    if t.Ok? { assert t.value.vars[..|vars|] == t.value.vars; }
  }

  lemma {:induction false} SimJump(p: G.Program, fuel: nat, env: G.Scopes, vars: seq<Binding>, marks: seq<nat>, s: G.Stmt)
    requires s.Break? || s.Continue?
    requires Rel(env, vars, marks) && FindVar(vars, E.FLAG) == Some(JBool(false))
    ensures StmtHolds(env, marks, {}, G.Exec(p, fuel, env, s), TExecAll(Defs(p), fuel, vars, E.Meaning(TranspileStatement(s))))
  {
    ExecSingle(Defs(p), fuel, vars, if s.Break? then TBreak else TContinue);
  }

  /** A bare expression is assigned to the blank variable. */
  lemma {:induction false} ExecBlank(defs: seq<Define>, fuel: nat, vars: seq<Binding>, e: TExpr)
    ensures var v, t := TEval(defs, fuel, vars, e), TExecAll(defs, fuel, vars, [TAssign("_", true, e)]);
            if v.Ok? then t == Ok(TFlow(TNext, vars + [Binding("_", v.value)], [])) else !t.Ok?
  {
    ExecAssignment(defs, fuel, vars, "_", true, e, []);
    assert [TAssign("_", true, e)] + [] == [TAssign("_", true, e)];
  }

  /** The blank variable does not count. */
  lemma {:induction false} BlankKept(env: G.Scopes, vars: seq<Binding>, marks: seq<nat>, v: Json)
    requires Rel(env, vars, marks) && FindVar(vars, E.FLAG) == Some(JBool(false))
    ensures FlowHolds(env, marks, {}, G.Flow(G.Next, env), TFlow(TNext, vars + [Binding("_", v)], []))
  {
    BlankPush(env, vars, marks, v);
    hide Rel, FindVar;
    FindPush(vars, "_", v, E.FLAG);
  }

  lemma {:induction false} BlankPush(env: G.Scopes, vars: seq<Binding>, marks: seq<nat>, v: Json)
    requires Rel(env, vars, marks)
    ensures Rel(env, vars + [Binding("_", v)], marks) && Grown(env, env, {})
  {
    var top := env[|env| - 1];
    assert env[..|env| - 1] + [top] == env;
    RelPush(env, vars, marks, "_", v, top);
  }

  lemma {:induction false} SimExprStmt(p: G.Program, fuel: nat, env: G.Scopes, vars: seq<Binding>, marks: seq<nat>, e: G.Expr)
    requires Rel(env, vars, marks) && FindVar(vars, E.FLAG) == Some(JBool(false))
    requires if e.Call? then CallHolds(G.EvalCall(p, fuel, env, e.call), TEval(Defs(p), fuel, vars, TranspileExpr(e)))
             else ValueHolds(G.Eval(p, fuel, env, e), TEval(Defs(p), fuel, vars, TranspileExpr(e)))
    ensures StmtHolds(env, marks, {}, G.Exec(p, fuel, env, G.ExprStmt(e)),
                      TExecAll(Defs(p), fuel, vars, E.Meaning(TranspileStatement(G.ExprStmt(e)))))
  {
    ExecBlank(Defs(p), fuel, vars, TranspileExpr(e));
    var v := TEval(Defs(p), fuel, vars, TranspileExpr(e));
    if v.Ok? { BlankKept(env, vars, marks, v.value); }
    hide Rel, FlowHolds, TEval, TExecAll, FindVar;
  }

  /// ## Return

  lemma {:induction false} SimReturn(p: G.Program, fuel: nat, env: G.Scopes, vars: seq<Binding>, marks: seq<nat>, es: seq<G.Expr>)
    requires Good(p) && Rel(env, vars, marks) && FindVar(vars, E.FLAG) == Some(JBool(false))
    ensures StmtHolds(env, marks, {}, G.Exec(p, fuel, env, G.Return(es)),
                      TExecAll(Defs(p), fuel, vars, E.Meaning(TranspileStatement(G.Return(es)))))
    decreases fuel, es, 1
  {
    RelSpecial(env, vars, marks);
    RelSetSpecial(env, vars, marks, E.FLAG, JBool(true));
    var vars' := SetVar(vars, E.FLAG, JBool(true)).value;
    FindAfterSet(vars, E.FLAG, JBool(true), E.FLAG);
    RelAgrees(env, vars', marks, AllFreeVars(es));
    if |es| == 1 {
      assert FreeVars(es[0]) <= AllFreeVars(es);
      RelAgrees(env, vars', marks, FreeVars(es[0]));
      SimAny(p, fuel, env, vars', es[0]);
      EmitResult(Defs(p), fuel, vars, TranspileExpr(es[0]));
      if !es[0].Call? { EvalAllOne(p, fuel, env, es); }
    } else {
      SimExprs(p, fuel, env, vars', es);
      EvalList(Defs(p), fuel, vars', TranspileExprs(es));
      EmitResult(Defs(p), fuel, vars, TApply(BList, TranspileExprs(es)));
    }
  }

  lemma {:induction false} EvalAllOne(p: G.Program, fuel: nat, env: G.Scopes, es: seq<G.Expr>)
    requires |es| == 1
    ensures G.EvalAll(p, fuel, env, es)
         == match G.Eval(p, fuel, env, es[0]) { case Ok(v) => Ok([v]) case Panic => Panic case Stuck => Stuck case Timeout => Timeout }
  {
    assert es[1..] == [];
    var v := G.Eval(p, fuel, env, es[0]);
    if v.Ok? { assert [v.value] + [] == [v.value]; }
  }

  /** `return`: the flag is set, the result printed, the loop left. */
  lemma {:induction false} EmitResult(defs: seq<Define>, fuel: nat, vars: seq<Binding>, e: TExpr)
    requires SetVar(vars, E.FLAG, JBool(true)).Some?
    ensures var vars' := SetVar(vars, E.FLAG, JBool(true)).value;
            var r := TExecAll(defs, fuel, vars, E.Meaning(E.Return(e)));
            var x := TEval(defs, fuel, vars', e);
            if x.Ok? then r == Ok(TFlow(TBrk, vars', [JDict([("r", x.value)])])) else !r.Ok?
  {
    var vars' := SetVar(vars, E.FLAG, JBool(true)).value;
    var set', emit := TAssign(E.FLAG, false, TLit(JBool(true))), TEmit(TApply(BDict(["r"]), [e]));
    assert E.Meaning(E.Return(e)) == [set'] + ([emit] + [TBreak]);
    ExecAssignment(defs, fuel, vars, E.FLAG, false, TLit(JBool(true)), [emit] + [TBreak]);
    ExecCons(defs, fuel, vars', emit, [TBreak]);
    ExecCons(defs, fuel, vars', TBreak, []);
    assert [TBreak] + [] == [TBreak];
    EvalDot(defs, fuel, vars', "r", e);
    var x := TEval(defs, fuel, vars', e);
    if x.Ok? {
      assert [JDict([("r", x.value)])] + [] == [JDict([("r", x.value)])];
    }
  }

  /// ## Sequences and blocks

  lemma {:induction false} SimStmts(p: G.Program, fuel: nat, env: G.Scopes, vars: seq<Binding>, marks: seq<nat>, ss: seq<G.Stmt>, visible: set<string>)
    requires Good(p) && GoodStmts(ss, visible) && Names(env) <= visible
    requires Rel(env, vars, marks) && FindVar(vars, E.FLAG) == Some(JBool(false))
    ensures StmtHolds(env, marks, AllDeclared(ss), G.ExecAll(p, fuel, env, ss),
                      TExecAll(Defs(p), fuel, vars, E.Meanings(TranspileStatements(ss))))
    decreases fuel, ss, 0
  {
    if ss != [] {
      var first, rest := E.Meaning(TranspileStatement(ss[0])), E.Meanings(TranspileStatements(ss[1..]));
      assert TranspileStatements(ss)[1..] == TranspileStatements(ss[1..]);
      SimStmt(p, fuel, env, vars, marks, ss[0], visible);
      ExecAppend(Defs(p), fuel, vars, first, rest);
      var g := G.Exec(p, fuel, env, ss[0]);
      if g.Ok? && g.value.sig.Next? {
        var t := TExecAll(Defs(p), fuel, vars, first).value;
        GrownNames(env, g.value.env, Declared(ss[0]));
        SimStmts(p, fuel, g.value.env, t.vars, marks, ss[1..], visible + Declared(ss[0]));
        SimSequence(p, fuel, env, vars, marks, ss, t);
      }
    }
  }

  lemma {:induction false} SimSequence(p: G.Program, fuel: nat, env: G.Scopes, vars: seq<Binding>, marks: seq<nat>, ss: seq<G.Stmt>, t: TFlow)
    requires ss != [] && env != [] && TExecAll(Defs(p), fuel, vars, E.Meaning(TranspileStatement(ss[0]))) == Ok(t)
    requires var g := G.Exec(p, fuel, env, ss[0]);
             && g.Ok? && g.value.sig.Next? && FlowHolds(env, marks, Declared(ss[0]), g.value, t)
             && StmtHolds(g.value.env, marks, AllDeclared(ss[1..]), G.ExecAll(p, fuel, g.value.env, ss[1..]),
                          TExecAll(Defs(p), fuel, t.vars, E.Meanings(TranspileStatements(ss[1..]))))
    requires E.Meanings(TranspileStatements(ss)) == E.Meaning(TranspileStatement(ss[0])) + E.Meanings(TranspileStatements(ss[1..]))
    ensures StmtHolds(env, marks, AllDeclared(ss), G.ExecAll(p, fuel, env, ss),
                      TExecAll(Defs(p), fuel, vars, E.Meanings(TranspileStatements(ss))))
  {
    var first, rest := E.Meaning(TranspileStatement(ss[0])), E.Meanings(TranspileStatements(ss[1..]));
    ExecAppend(Defs(p), fuel, vars, first, rest);
    var g := G.Exec(p, fuel, env, ss[0]).value;
    var more := G.ExecAll(p, fuel, g.env, ss[1..]);
    if more.Ok? {
      var t2 := TExecAll(Defs(p), fuel, t.vars, rest).value;
      assert [] + t2.out == t2.out;
      GrownTwice(env, g.env, more.value.env, Declared(ss[0]), AllDeclared(ss[1..]), AllDeclared(ss));
    }
  }

  /** The outcome of statements that ran in a template scope of their own, after popping it. */
  ghost predicate ScopedHolds(env: G.Scopes, vars: seq<Binding>, marks: seq<nat>, g: Res<G.Flow>, t: Res<TFlow>) {
    match g
    case Ok(flow) => t.Ok? && |t.value.vars| >= |vars| && FlowHolds(env, marks, {}, flow, t.value.(vars := t.value.vars[..|vars|]))
    case Stuck => true
    case _ => !t.Ok?
  }

  lemma {:induction false} CloseScope(env: G.Scopes, top: G.Scope, vars: seq<Binding>, marks: seq<nat>, declared: set<string>, g: G.Flow, t: TFlow)
    requires env != [] && |t.vars| >= |vars|
    requires FlowHolds(env + [top], marks + [|vars|], declared, g, t)
    ensures |g.env| == |env| + 1
    ensures FlowHolds(env, marks, {}, G.Flow(g.sig, g.env[..|env|]), t.(vars := t.vars[..|vars|]))
  {
    assert g.env == g.env[..|env|] + [g.env[|env|]];
    PopScope(g.env[..|env|], g.env[|env|], t.vars, marks, |vars|);
    assert (env + [top])[..|env|] == env;
    assert SameKeys(g.env[..|env|], env);
  }

  lemma {:induction false} SimScoped(p: G.Program, fuel: nat, env: G.Scopes, vars: seq<Binding>, marks: seq<nat>, ss: seq<G.Stmt>, visible: set<string>)
    requires Good(p) && GoodStmts(ss, visible) && Names(env) <= visible
    requires Rel(env, vars, marks) && FindVar(vars, E.FLAG) == Some(JBool(false))
    ensures ScopedHolds(env, vars, marks, G.ExecScoped(p, fuel, env, ss),
                        TExecAll(Defs(p), fuel, vars, E.Meanings(TranspileStatements(ss))))
    decreases fuel, ss, 1
  {
    PushScope(env, vars, marks);
    assert (env + [map[]])[..|env|] == env;
    assert Names(env + [map[]]) == Names(env);
    SimStmts(p, fuel, env + [map[]], vars, marks + [|vars|], ss, visible);
    var g := G.ExecAll(p, fuel, env + [map[]], ss);
    if g.Ok? {
      var t := TExecAll(Defs(p), fuel, vars, E.Meanings(TranspileStatements(ss))).value;
      CloseScope(env, map[], vars, marks, AllDeclared(ss), g.value, t);
    }
  }

  /** A bare block shares the enclosing scope of the template. */
  lemma {:induction false} SimBlock(p: G.Program, fuel: nat, env: G.Scopes, vars: seq<Binding>, marks: seq<nat>, ss: seq<G.Stmt>, visible: set<string>)
    requires Good(p) && GoodStmts(ss, visible) && AllDeclared(ss) !! visible && Names(env) <= visible
    requires Rel(env, vars, marks) && FindVar(vars, E.FLAG) == Some(JBool(false))
    ensures StmtHolds(env, marks, {}, G.ExecScoped(p, fuel, env, ss),
                      TExecAll(Defs(p), fuel, vars, E.Meanings(TranspileStatements(ss))))
    decreases fuel, ss, 1
  {
    PushScope(env, vars, marks);
    assert (env + [map[]])[..|env|] == env;
    assert Names(env + [map[]]) == Names(env);
    SimStmts(p, fuel, env + [map[]], vars, marks + [|vars|], ss, visible);
    var g := G.ExecAll(p, fuel, env + [map[]], ss);
    if g.Ok? {
      var t := TExecAll(Defs(p), fuel, vars, E.Meanings(TranspileStatements(ss)));
      BlockFlow(env, marks, |vars|, AllDeclared(ss), g.value, t.value);
    }
  }

  lemma {:induction false} BlockFlow(env: G.Scopes, marks: seq<nat>, m: nat, declared: set<string>, g: G.Flow, t: TFlow)
    requires env != [] && declared !! Names(env) && |g.env| == |env| + 1
    requires FlowHolds(env + [map[]], marks + [m], declared, g, t)
    ensures FlowHolds(env, marks, {}, G.Flow(g.sig, g.env[..|env|]), t)
  {
    SplitLast(g.env);
    CloseBlock(env, marks, m, declared, g.env[..|env|], g.env[|env|], t.vars);
  }

  lemma {:induction false} SplitLast(env: G.Scopes)
    requires env != []
    ensures env[..|env| - 1] + [env[|env| - 1]] == env
  {
  }

  lemma {:induction false} CloseBlock(env: G.Scopes, marks: seq<nat>, m: nat, declared: set<string>, outer: G.Scopes, top: G.Scope, vars: seq<Binding>)
    requires env != [] && declared !! Names(env)
    requires Rel(outer + [top], vars, marks + [m]) && Grown(env + [map[]], outer + [top], declared)
    ensures Rel(outer, vars, marks) && Grown(env, outer, {})
  {
    BlockGrown(env, outer, top, declared);
    MergeScope(outer, top, vars, marks, m);
  }

  lemma {:induction false} BlockGrown(env: G.Scopes, outer: G.Scopes, top: G.Scope, declared: set<string>)
    requires env != [] && declared !! Names(env) && Grown(env + [map[]], outer + [top], declared)
    ensures |outer| == |env| && Grown(env, outer, {}) && top.Keys !! Names(outer)
  {
    assert (env + [map[]])[..|env|] == env;
    assert (outer + [top])[..|env|] == outer;
    SameNames(outer, env);
    assert (env + [map[]])[|env|] == map[] && (outer + [top])[|env|] == top;
  }

  /// ## Conditionals

  lemma {:induction false} SimChain(p: G.Program, fuel: nat, env: G.Scopes, vars: seq<Binding>, marks: seq<nat>, c: G.Chain, visible: set<string>)
    requires Good(p) && GoodChain(c, visible) && Names(env) <= visible
    requires Rel(env, vars, marks) && FindVar(vars, E.FLAG) == Some(JBool(false))
    ensures ScopedHolds(env, vars, marks, G.ExecChain(p, fuel, env, c, []),
                        TExecAll(Defs(p), fuel, vars, E.Meaning(TranspileChain(c))))
    ensures c.Cond? ==> var t := TExecAll(Defs(p), fuel, vars, E.Meaning(TranspileChain(c)));
                        t.Ok? ==> |t.value.vars| == |vars|
    decreases fuel, c, 0
  {
    match c
    case Else(body) => SimScoped(p, fuel, env, vars, marks, body, visible);
    case Cond(_, cond, body, rest) =>
      RelAgrees(env, vars, marks, FreeVars(cond));
      SimExpr(p, fuel, env, vars, cond);
      SimScoped(p, fuel, env, vars, marks, body, visible);
      SimChain(p, fuel, env, vars, marks, rest, visible);
      SimCond(p, fuel, env, vars, marks, c);
  }

  lemma {:induction false} ChainMeaning(c: G.Chain)
    requires c.Cond? && c.init.None?
    ensures E.Meaning(TranspileChain(c))
         == [TIf(TranspileExpr(c.cond), E.Meanings(TranspileStatements(c.body)), E.Meaning(TranspileChain(c.rest)))]
  {
    var stmt := TIf(TranspileExpr(c.cond), E.Meanings(TranspileStatements(c.body)), E.Meaning(TranspileChain(c.rest)));
    assert [] + [stmt] == [stmt];
  }

  lemma {:induction false} SimCond(p: G.Program, fuel: nat, env: G.Scopes, vars: seq<Binding>, marks: seq<nat>, c: G.Chain)
    requires !p.eager && c.Cond? && c.init.None? && Rel(env, vars, marks)
    requires ValueHolds(G.Eval(p, fuel, env, c.cond), TEval(Defs(p), fuel, vars, TranspileExpr(c.cond)))
    requires ScopedHolds(env, vars, marks, G.ExecScoped(p, fuel, env, c.body),
                         TExecAll(Defs(p), fuel, vars, E.Meanings(TranspileStatements(c.body))))
    requires ScopedHolds(env, vars, marks, G.ExecChain(p, fuel, env, c.rest, []),
                         TExecAll(Defs(p), fuel, vars, E.Meaning(TranspileChain(c.rest))))
    ensures ScopedHolds(env, vars, marks, G.ExecChain(p, fuel, env, c, []),
                        TExecAll(Defs(p), fuel, vars, E.Meaning(TranspileChain(c))))
    ensures var t := TExecAll(Defs(p), fuel, vars, E.Meaning(TranspileChain(c)));
            t.Ok? ==> |t.value.vars| == |vars|
  {
    hide Rel, Grown, G.ExecScoped, TEval, G.Eval;
    ChainMeaning(c);
    GoIf(p, fuel, env, c);
    var thn, els := E.Meanings(TranspileStatements(c.body)), E.Meaning(TranspileChain(c.rest));
    ExecIf(Defs(p), fuel, vars, TranspileExpr(c.cond), thn, els);
    var b := G.Eval(p, fuel, env, c.cond);
    if b.Ok? && b.value.Bool? {
      var t := TExecAll(Defs(p), fuel, vars, if b.value.b then thn else els);
      if t.Ok? {
        assert t.value.vars[..|vars|][..|vars|] == t.value.vars[..|vars|];
      }
    }
  }

  lemma {:induction false} ExecIf(defs: seq<Define>, fuel: nat, vars: seq<Binding>, cond: TExpr, thn: seq<TStmt>, els: seq<TStmt>)
    ensures var r := TExecAll(defs, fuel, vars, [TIf(cond, thn, els)]);
            var c := TEval(defs, fuel, vars, cond);
            if !c.Ok? then !r.Ok?
            else
              var t := TExecAll(defs, fuel, vars, if Truth(c.value) then thn else els);
              if t.Ok? then r == Ok(t.value.(vars := t.value.vars[..|vars|])) else !r.Ok?
  {
    ExecSingle(defs, fuel, vars, TIf(cond, thn, els));
  }

  lemma {:induction false} GoIf(p: G.Program, fuel: nat, env: G.Scopes, c: G.Chain)
    requires !p.eager && c.Cond? && c.init.None?
    ensures var b := G.Eval(p, fuel, env, c.cond);
            var r := G.ExecChain(p, fuel, env, c, []);
            if !b.Ok? then !r.Ok? && r.Stuck? == b.Stuck?
            else if !b.value.Bool? then r.Stuck?
            else r == if b.value.b then G.ExecScoped(p, fuel, env, c.body) else G.ExecChain(p, fuel, env, c.rest, [])
  {
    var b := G.Eval(p, fuel, env, c.cond);
    if b.Ok? && b.value.Bool? {
      var g := if b.value.b then G.ExecScoped(p, fuel, env, c.body) else G.ExecChain(p, fuel, env, c.rest, []);
      if g.Ok? { assert g.value.env[..|env|] == g.value.env; }
    }
  }

  lemma {:induction false} ExecSingle(defs: seq<Define>, fuel: nat, vars: seq<Binding>, s: TStmt)
    ensures var r := TExecAll(defs, fuel, vars, [s]);
            var t := TExec(defs, fuel, vars, s);
            if t.Ok? then r == t else !r.Ok?
  {
    ExecCons(defs, fuel, vars, s, []);
    assert [s] + [] == [s];
    var t := TExec(defs, fuel, vars, s);
    if t.Ok? { assert t.value.out + [] == t.value.out; }
  }

  /// ## Loops

  function EncItems(items: seq<(G.Value, G.Value)>): seq<(Json, Json)> {
    if items == [] then [] else [(Enc(items[0].0), Enc(items[0].1))] + EncItems(items[1..])
  }

  lemma {:induction false} EncItemsAt(items: seq<(G.Value, G.Value)>)
    ensures |EncItems(items)| == |items|
    ensures forall i :: 0 <= i < |items| ==> EncItems(items)[i] == (Enc(items[i].0), Enc(items[i].1))
  {
    if items != [] {
      EncItemsAt(items[1..]);
    }
  }

  lemma {:induction false} SameItems(v: G.Value)
    requires G.Items(v).Some?
    ensures RangeItems(Enc(v)) == Ok(EncItems(G.Items(v).value))
  {
    var items := G.Items(v).value;
    EncItemsAt(items);
    assert RangeItems(Enc(v)).value == EncItems(items);
  }

  /** After a loop: whatever its items were, the flag tells whether the body returned. */
  lemma {:induction false} SimRange(p: G.Program, fuel: nat, env: G.Scopes, vars: seq<Binding>, marks: seq<nat>,
                                    key: string, val: string, over: G.Expr, body: seq<G.Stmt>, visible: set<string>)
    requires Good(p) && GoodName(key) && GoodName(val) && GoodStmts(body, visible + {key, val}) && Names(env) <= visible
    requires Rel(env, vars, marks) && FindVar(vars, E.FLAG) == Some(JBool(false))
    requires ValueHolds(G.Eval(p, fuel, env, over), TEval(Defs(p), fuel, vars, TranspileExpr(over)))
    ensures var s := G.Range(key, val, over, body);
            StmtHolds(env, marks, {}, G.Exec(p, fuel, env, s), TExecAll(Defs(p), fuel, vars, E.Meaning(TranspileStatement(s))))
    decreases fuel, body, 4
  {
    var o := G.Eval(p, fuel, env, over);
    if o.Ok? && G.Items(o.value).Some? {
      var items := G.Items(o.value).value;
      SimLoop(p, fuel, env, vars, marks, key, val, items, body, visible);
      AfterLoop(p, fuel, env, vars, marks, key, val, over, body, o.value);
    } else {
      LoopFails(p, fuel, env, vars, key, val, over, body);
    }
  }

  lemma {:induction false} RangeShape(key: string, val: string, over: G.Expr, body: seq<G.Stmt>)
    ensures E.Meaning(TranspileStatement(G.Range(key, val, over, body)))
         == [TRange([key, val], TranspileExpr(over), E.Meanings(TranspileStatements(body)))] + [TIf(TVar(E.FLAG), [TBreak], [])]
  {
  }

  lemma {:induction false} LoopFails(p: G.Program, fuel: nat, env: G.Scopes, vars: seq<Binding>, key: string, val: string, over: G.Expr, body: seq<G.Stmt>)
    requires env != []
    requires ValueHolds(G.Eval(p, fuel, env, over), TEval(Defs(p), fuel, vars, TranspileExpr(over)))
    requires var o := G.Eval(p, fuel, env, over); !o.Ok? || G.Items(o.value).None?
    ensures var s := G.Range(key, val, over, body);
            var g := G.Exec(p, fuel, env, s);
            g.Stuck? || (!g.Ok? && !TExecAll(Defs(p), fuel, vars, E.Meaning(TranspileStatement(s))).Ok?)
  {
    RangeShape(key, val, over, body);
    ExecCons(Defs(p), fuel, vars, TRange([key, val], TranspileExpr(over), E.Meanings(TranspileStatements(body))),
             [TIf(TVar(E.FLAG), [TBreak], [])]);
  }

  /** The check that follows a loop leaves the enclosing loop too when the body returned. */
  lemma {:induction false} AfterLoop(p: G.Program, fuel: nat, env: G.Scopes, vars: seq<Binding>, marks: seq<nat>,
                  key: string, val: string, over: G.Expr, body: seq<G.Stmt>, o: G.Value)
    requires env != [] && G.Items(o).Some?
    requires G.Eval(p, fuel, env, over) == Ok(o) && TEval(Defs(p), fuel, vars, TranspileExpr(over)) == Ok(Enc(o))
    requires LoopHolds(env, marks, G.Loop(p, fuel, env, key, val, G.Items(o).value, body),
                       TLoop(Defs(p), fuel, vars, [key, val], EncItems(G.Items(o).value), E.Meanings(TranspileStatements(body))))
    ensures var s := G.Range(key, val, over, body);
            StmtHolds(env, marks, {}, G.Exec(p, fuel, env, s), TExecAll(Defs(p), fuel, vars, E.Meaning(TranspileStatement(s))))
  {
    var tbody := E.Meanings(TranspileStatements(body));
    var loop := TRange([key, val], TranspileExpr(over), tbody);
    RangeShape(key, val, over, body);
    SameItems(o);
    RangeRuns(p, fuel, env, key, val, over, body, o);
    TRangeRuns(Defs(p), fuel, vars, [key, val], TranspileExpr(over), tbody, Enc(o), EncItems(G.Items(o).value));
    hide G.Loop, TLoop, G.Exec, TExec, TExecAll, G.Eval, TEval, EncItems, E.Meaning, E.Meanings, TranspileStatements, TranspileStatement,
      TranspileExpr, RangeItems, Enc, Rel, Grown, FindVar;
    var g := G.Loop(p, fuel, env, key, val, G.Items(o).value, body);
    LoopChecked(Defs(p), fuel, vars, loop, TExec(Defs(p), fuel, vars, loop), g.Ok? && g.value.sig.Ret?);
  }

  lemma {:induction false} RangeRuns(p: G.Program, fuel: nat, env: G.Scopes, key: string, val: string, over: G.Expr, body: seq<G.Stmt>, o: G.Value)
    requires env != [] && G.Items(o).Some? && G.Eval(p, fuel, env, over) == Ok(o)
    ensures G.Exec(p, fuel, env, G.Range(key, val, over, body)) == G.Loop(p, fuel, env, key, val, G.Items(o).value, body)
  {
  }

  lemma {:induction false} TRangeRuns(defs: seq<Define>, fuel: nat, vars: seq<Binding>, decl: seq<string>, e: TExpr, body: seq<TStmt>,
                   o: Json, items: seq<(Json, Json)>)
    requires TEval(defs, fuel, vars, e) == Ok(o) && RangeItems(o) == Ok(items)
    ensures TExec(defs, fuel, vars, TRange(decl, e, body)) == TLoop(defs, fuel, vars, decl, items, body)
  {
  }

  /** The check of the flag after a loop. */
  lemma {:induction false} LoopChecked(defs: seq<Define>, fuel: nat, vars: seq<Binding>, loop: TStmt, t: Res<TFlow>, returning: bool)
    requires TExec(defs, fuel, vars, loop) == t
    ensures !t.Ok? ==> !TExecAll(defs, fuel, vars, [loop] + [TIf(TVar(E.FLAG), [TBreak], [])]).Ok?
    ensures t.Ok? && t.value.sig.TNext? && FindVar(t.value.vars, E.FLAG) == Some(JBool(returning)) ==>
              TExecAll(defs, fuel, vars, [loop] + [TIf(TVar(E.FLAG), [TBreak], [])])
              == Ok(TFlow(if returning then TBrk else TNext, t.value.vars, t.value.out))
  {
    ExecCons(defs, fuel, vars, loop, [TIf(TVar(E.FLAG), [TBreak], [])]);
    if t.Ok? && t.value.sig.TNext? && FindVar(t.value.vars, E.FLAG) == Some(JBool(returning)) {
      CheckFlag(defs, fuel, t.value.vars, returning);
      assert t.value.out + [] == t.value.out;
    }
  }

  lemma {:induction false} CheckFlag(defs: seq<Define>, fuel: nat, vars: seq<Binding>, returning: bool)
    requires FindVar(vars, E.FLAG) == Some(JBool(returning))
    ensures TExecAll(defs, fuel, vars, [TIf(TVar(E.FLAG), [TBreak], [])])
         == Ok(TFlow(if returning then TBrk else TNext, vars, []))
  {
    ExecSingle(defs, fuel, vars, TIf(TVar(E.FLAG), [TBreak], []));
    ExecSingle(defs, fuel, vars, TBreak);
    assert vars[..|vars|] == vars;
  }

  /** What holds when a loop is done: it never passes on a `break` or `continue` of its body. */
  ghost predicate LoopHolds(env: G.Scopes, marks: seq<nat>, g: Res<G.Flow>, t: Res<TFlow>) {
    match g
    case Ok(flow) =>
      && t.Ok? && (flow.sig.Next? || flow.sig.Ret?)
      && t.value.sig == TNext && t.value.out == Output(flow.sig)
      && Rel(flow.env, t.value.vars, marks)
      && FindVar(t.value.vars, E.FLAG) == Some(JBool(flow.sig.Ret?))
      && Grown(env, flow.env, {})
    case Stuck => true
    case _ => !t.Ok?
  }

  lemma {:induction false} SimLoop(p: G.Program, fuel: nat, env: G.Scopes, vars: seq<Binding>, marks: seq<nat>,
                                   key: string, val: string, items: seq<(G.Value, G.Value)>, body: seq<G.Stmt>, visible: set<string>)
    requires Good(p) && GoodName(key) && GoodName(val) && GoodStmts(body, visible + {key, val}) && Names(env) <= visible
    requires Rel(env, vars, marks) && FindVar(vars, E.FLAG) == Some(JBool(false))
    ensures LoopHolds(env, marks, G.Loop(p, fuel, env, key, val, items, body),
                      TLoop(Defs(p), fuel, vars, [key, val], EncItems(items), E.Meanings(TranspileStatements(body))))
    decreases fuel, body, 3, |items|
  {
    if items != [] {
      SimTurn(p, fuel, env, vars, marks, key, val, items[0], body, visible);
      var item := (Enc(items[0].0), Enc(items[0].1));
      var tbody := E.Meanings(TranspileStatements(body));
      var g := Turn(p, fuel, env, key, val, items[0], body);
      var t := TExecAll(Defs(p), fuel, vars + Bindings([key, val], item), tbody);
      if g.Ok? && !g.value.sig.Ret? && !g.value.sig.Brk? {
        GrownNames(env, g.value.env, {});
        SimLoop(p, fuel, g.value.env, t.value.vars[..|vars|], marks, key, val, items[1..], body, visible);
      }
      UnfoldLoop(p, fuel, env, key, val, items, body);
      EncItemsHead(items);
      LoopStep(Defs(p), fuel, env, vars, marks, [key, val], item, EncItems(items[1..]), tbody, g, t,
               if g.Ok? then G.Loop(p, fuel, g.value.env, key, val, items[1..], body) else g);
    }
  }

  lemma {:induction false} EncItemsHead(items: seq<(G.Value, G.Value)>)
    requires items != []
    ensures EncItems(items) == [(Enc(items[0].0), Enc(items[0].1))] + EncItems(items[1..])
  {
  }

  /** A turn, and the turns after it if there are any. */
  lemma {:induction false} LoopStep(defs: seq<Define>, fuel: nat, env: G.Scopes, vars: seq<Binding>, marks: seq<nat>, decl: seq<string>,
                 item: (Json, Json), rest: seq<(Json, Json)>, body: seq<TStmt>, g: Res<G.Flow>, t: Res<TFlow>, more: Res<G.Flow>)
    requires t == TExecAll(defs, fuel, vars + Bindings(decl, item), body)
    requires ScopedHolds(env, vars, marks, g, t)
    requires g.Ok? && !g.value.sig.Ret? && !g.value.sig.Brk? ==>
               LoopHolds(g.value.env, marks, more, TLoop(defs, fuel, t.value.vars[..|vars|], decl, rest, body))
    ensures LoopHolds(env, marks, AfterTurn(g, more), TLoop(defs, fuel, vars, decl, [item] + rest, body))
  {
    var items := [item] + rest;
    assert items[1..] == rest && items[0] == item;
    if g.Ok? {
      if g.value.sig.Ret? || g.value.sig.Brk? {
        LastTurn(defs, fuel, env, vars, marks, decl, items, body, g.value, t.value);
      } else {
        NextTurns(defs, fuel, env, vars, marks, decl, items, body, g.value, t.value, more);
      }
    }
  }

  /** How a loop goes on after a turn. */
  function AfterTurn(turn: Res<G.Flow>, more: Res<G.Flow>): Res<G.Flow> {
    if !turn.Ok? || turn.value.sig.Ret? then turn
    else if turn.value.sig.Brk? then Ok(G.Flow(G.Next, turn.value.env))
    else more
  }

  lemma {:induction false} LastTurn(defs: seq<Define>, fuel: nat, env: G.Scopes, vars: seq<Binding>, marks: seq<nat>, decl: seq<string>,
                 items: seq<(Json, Json)>, body: seq<TStmt>, g: G.Flow, t: TFlow)
    requires items != [] && TExecAll(defs, fuel, vars + Bindings(decl, items[0]), body) == Ok(t)
    requires |t.vars| >= |vars| && FlowHolds(env, marks, {}, g, t.(vars := t.vars[..|vars|]))
    requires g.sig.Ret? || g.sig.Brk?
    ensures LoopHolds(env, marks, Ok(if g.sig.Brk? then G.Flow(G.Next, g.env) else g), TLoop(defs, fuel, vars, decl, items, body))
  {
  }

  lemma {:induction false} NextTurns(defs: seq<Define>, fuel: nat, env: G.Scopes, vars: seq<Binding>, marks: seq<nat>, decl: seq<string>,
                  items: seq<(Json, Json)>, body: seq<TStmt>, g: G.Flow, t: TFlow, more: Res<G.Flow>)
    requires items != [] && TExecAll(defs, fuel, vars + Bindings(decl, items[0]), body) == Ok(t)
    requires |t.vars| >= |vars| && t.out == [] && !t.sig.TBrk? && Grown(env, g.env, {})
    requires LoopHolds(g.env, marks, more, TLoop(defs, fuel, t.vars[..|vars|], decl, items[1..], body))
    ensures LoopHolds(env, marks, more, TLoop(defs, fuel, vars, decl, items, body))
  {
    hide Rel, Grown, TExecAll;
    var tmore := TLoop(defs, fuel, t.vars[..|vars|], decl, items[1..], body);
    if more.Ok? {
      GrownTwice(env, g.env, more.value.env, {}, {}, {});
      assert [] + tmore.value.out == tmore.value.out;
    }
  }

  /** One turn of a Go loop. */
  function Turn(p: G.Program, fuel: nat, env: G.Scopes, key: string, val: string, item: (G.Value, G.Value), body: seq<G.Stmt>): (r: Res<G.Flow>)
    ensures r.Ok? ==> |r.value.env| == |env|
  {
    var env1 :- G.StoreAll(true, env + [map[]], [key, val], [item.0, item.1]);
    var flow :- G.ExecScoped(p, fuel, env1, body);
    Ok(G.Flow(flow.sig, flow.env[..|env|]))
  }

  lemma {:induction false} UnfoldLoop(p: G.Program, fuel: nat, env: G.Scopes, key: string, val: string, items: seq<(G.Value, G.Value)>, body: seq<G.Stmt>)
    requires items != []
    ensures var turn := Turn(p, fuel, env, key, val, items[0], body);
            G.Loop(p, fuel, env, key, val, items, body)
            == AfterTurn(turn, if turn.Ok? then G.Loop(p, fuel, turn.value.env, key, val, items[1..], body) else turn)
  {
  }

  lemma {:induction false} SimTurn(p: G.Program, fuel: nat, env: G.Scopes, vars: seq<Binding>, marks: seq<nat>,
                                   key: string, val: string, item: (G.Value, G.Value), body: seq<G.Stmt>, visible: set<string>)
    requires Good(p) && GoodName(key) && GoodName(val) && GoodStmts(body, visible + {key, val}) && Names(env) <= visible
    requires Rel(env, vars, marks) && FindVar(vars, E.FLAG) == Some(JBool(false))
    ensures ScopedHolds(env, vars, marks, Turn(p, fuel, env, key, val, item, body),
                        TExecAll(Defs(p), fuel, vars + Bindings([key, val], (Enc(item.0), Enc(item.1))),
                                 E.Meanings(TranspileStatements(body))))
    decreases fuel, body, 2
  {
    var vars1 := vars + Bindings([key, val], (Enc(item.0), Enc(item.1)));
    BindItem(env, vars, marks, key, val, item);
    var top := ItemScope(key, val, item);
    var env1 := env + [top];
    assert env1[..|env|] == env;
    SimScoped(p, fuel, env1, vars1, marks + [|vars|], body, visible + {key, val});
    CloseItem(env, top, vars, vars1, marks, G.ExecScoped(p, fuel, env1, body),
              TExecAll(Defs(p), fuel, vars1, E.Meanings(TranspileStatements(body))));
  }

  lemma {:induction false} CloseItem(env: G.Scopes, top: G.Scope, vars: seq<Binding>, vars1: seq<Binding>, marks: seq<nat>, g: Res<G.Flow>, t: Res<TFlow>)
    requires env != [] && |vars1| >= |vars| && ScopedHolds(env + [top], vars1, marks + [|vars|], g, t)
    requires g.Ok? ==> |g.value.env| > |env|
    ensures ScopedHolds(env, vars, marks, if g.Ok? then Ok(G.Flow(g.value.sig, g.value.env[..|env|])) else g, t)
  {
    if g.Ok? {
      var popped := t.value.(vars := t.value.vars[..|vars1|]);
      CloseScope(env, top, vars, marks, {}, g.value, popped);
      assert popped.vars[..|vars|] == t.value.vars[..|vars|];
    }
  }

  /** The scope that a turn of a loop declares its key and element in. */
  function ItemScope(key: string, val: string, item: (G.Value, G.Value)): G.Scope {
    var k: G.Scope := if key == G.BLANK then map[] else map[key := item.0];
    if val == G.BLANK then k else k[val := item.1]
  }

  lemma {:induction false} StoreItem(env: G.Scopes, key: string, val: string, item: (G.Value, G.Value))
    ensures G.StoreAll(true, env + [map[]], [key, val], [item.0, item.1]) == Ok(env + [ItemScope(key, val, item)])
    ensures G.Store(true, G.Store(true, env + [map[]], key, item.0).value, val, item.1) == Ok(env + [ItemScope(key, val, item)])
  {
    var env0 := env + [map[]];
    var env1 := G.Store(true, env0, key, item.0).value;
    assert [key, val][1..] == [val] && [item.0, item.1][1..] == [item.1];
    StoreOne(true, env1, val, item.1);
    assert env0[..|env|] == env;
    assert env1 == env + [if key == G.BLANK then map[] else map[key := item.0]];
  }

  lemma {:induction false} BindItem(env: G.Scopes, vars: seq<Binding>, marks: seq<nat>, key: string, val: string, item: (G.Value, G.Value))
    requires GoodName(key) && GoodName(val)
    requires Rel(env, vars, marks) && FindVar(vars, E.FLAG) == Some(JBool(false))
    ensures var vars1 := vars + Bindings([key, val], (Enc(item.0), Enc(item.1)));
            && Rel(env + [ItemScope(key, val, item)], vars1, marks + [|vars|])
            && FindVar(vars1, E.FLAG) == Some(JBool(false))
    ensures G.StoreAll(true, env + [map[]], [key, val], [item.0, item.1]) == Ok(env + [ItemScope(key, val, item)])
  {
    hide Rel, FindVar, G.StoreAll, G.Declare;
    StoreItem(env, key, val, item);
    var env0, marks1 := env + [map[]], marks + [|vars|];
    PushScope(env, vars, marks);
    SimDeclare(env0, vars, marks1, key, item.0);
    SimDeclare(G.Store(true, env0, key, item.0).value, vars + [Binding(key, Enc(item.0))], marks1, val, item.1);
    assert vars + [Binding(key, Enc(item.0))] + [Binding(val, Enc(item.1))] == vars + Bindings([key, val], (Enc(item.0), Enc(item.1)));
  }

  lemma {:induction false} SimDeclare(env: G.Scopes, vars: seq<Binding>, marks: seq<nat>, x: string, v: G.Value)
    requires Rel(env, vars, marks) && GoodName(x) && env != []
    ensures var vars1 := vars + [Binding(x, Enc(v))];
            && Rel(G.Store(true, env, x, v).value, vars1, marks) && FindVar(vars1, E.FLAG) == FindVar(vars, E.FLAG)
  {
    SimStore(true, env, vars, marks, x, v);
  }

  /// ## The main result

  /** Calling any function of a file, with any arguments and any budget of nested calls: when Go returns
      `vs`, the template prints `{"r": ...}` once and nothing else; when Go falls off the end, it prints
      nothing; and it prints nothing at all, because rendering fails or does not end, when Go panics or
      does not end. */
  lemma {:induction false} TemplatesComputeGo(p: G.Program, defs: seq<Define>, fuel: nat, f: string, vs: seq<G.Value>)
    requires Good(p)
    requires E.ParseFile(E.FileActions(TranspileFuncs(p.funcs))) == Some(defs)
    ensures InvokeHolds(G.Invoke(p, fuel, f, vs), Render(defs, fuel, f, Dot(vs)))
  {
    E.ReadWritten(TranspileFuncs(p.funcs));
    SimInvoke(p, fuel, f, vs);
  }
}
