/** When evaluating all initialisers of a chain first is harmless. */
module EagerProof {
  import opened Wrappers
  import opened GoLang

  /// ## Total initialisers

  /** An expression that always has a value: no call, no index into a slice, nothing through a pointer, no panic. */
  predicate Total(e: Expr)
    decreases e, 0
  {
    match e
    case Lit(_) => true
    case Var(_) => true
    case Apply(op, args) => !op.Index? && !op.Fail? && !op.Counted? && !op.Deref? && !(op.Field? && op.pointer) && AllTotal(args)
    case And(left, right) => Total(left) && Total(right)
    case Or(left, right) => Total(left) && Total(right)
    case FuncRef(_) => true
    case MethodRef(_, recv, kind) => !kind.Through? && Total(recv)
    case Call(_) => false
  }

  predicate AllTotal(es: seq<Expr>)
    decreases es, 0
  {
    es != [] ==> Total(es[0]) && AllTotal(es[1..])
  }

  predicate TotalAssign(a: Assign) {
    match a
    case Single(_, e) => Total(e)
    case Tuple(_, es) => AllTotal(es)
    case Multi(_, _, MapTest(m, k, _)) => Total(m) && Total(k)
    case Multi(_, _, MultiCall(_)) => false
  }

  /** In every chain, all initialisers but the first are total. */
  predicate Harmless(s: Stmt)
    decreases s, 0
  {
    match s
    case If(chain) => chain.Cond? && AllHarmless(chain.body) && HarmlessRest(chain.rest)
    case Range(_, _, _, body) => AllHarmless(body)
    case Block(body) => AllHarmless(body)
    case _ => true
  }

  predicate AllHarmless(ss: seq<Stmt>)
    decreases ss, 0
  {
    ss != [] ==> Harmless(ss[0]) && AllHarmless(ss[1..])
  }

  predicate HarmlessRest(c: Chain)
    decreases c, 0
  {
    match c
    case Else(body) => AllHarmless(body)
    case Cond(init, _, body, rest) =>
      (init.Some? ==> TotalAssign(init.value)) && AllHarmless(body) && HarmlessRest(rest)
  }

  /** As `HarmlessRest`, with no condition on the initialisers of this chain. */
  predicate HarmlessBodies(c: Chain) {
    match c
    case Else(body) => AllHarmless(body)
    case Cond(_, _, body, rest) => AllHarmless(body) && HarmlessBodies(rest)
  }

  lemma {:induction false} RestBodies(c: Chain)
    requires HarmlessRest(c)
    ensures HarmlessBodies(c)
  {
    if c.Cond? { RestBodies(c.rest); }
  }

  predicate HarmlessFuncs(fs: seq<FuncDecl>) {
    forall i :: 0 <= i < |fs| ==> AllHarmless(fs[i].body)
  }

  /// ## Totality

  lemma {:induction false} TotalEval(p: Program, fuel: nat, env: Scopes, e: Expr)
    requires Total(e) && !p.untyped
    ensures var r := Eval(p, fuel, env, e); r.Ok? || r.Stuck?
    decreases e, 0
  {
    match e
    case Lit(_) =>
    case Var(_) =>
    case Apply(op, args) => TotalEvalAll(p, fuel, env, args);
    case And(left, right) =>
      TotalEval(p, fuel, env, left);
      TotalEval(p, fuel, env, right);
    case Or(left, right) =>
      TotalEval(p, fuel, env, left);
      TotalEval(p, fuel, env, right);
    case FuncRef(_) =>
    case MethodRef(_, recv, _) => TotalEval(p, fuel, env, recv);
  }

  lemma {:induction false} TotalEvalAll(p: Program, fuel: nat, env: Scopes, es: seq<Expr>)
    requires AllTotal(es) && !p.untyped
    ensures var r := EvalAll(p, fuel, env, es); r.Ok? || r.Stuck?
    decreases es, 0
  {
    if es != [] {
      TotalEval(p, fuel, env, es[0]);
      TotalEvalAll(p, fuel, env, es[1..]);
    }
  }

  lemma {:induction false} TotalInit(p: Program, fuel: nat, env: Scopes, a: Assign)
    requires TotalAssign(a) && env != [] && !p.untyped
    ensures var r := ExecAssign(p, fuel, env, true, a); r.Ok? || r.Stuck?
  {
    match a
    case Single(_, e) => TotalEval(p, fuel, env, e);
    case Tuple(_, es) => TotalEvalAll(p, fuel, env, es);
    case Multi(_, _, MapTest(m, k, _)) =>
      TotalEval(p, fuel, env, m);
      TotalEval(p, fuel, env, k);
  }

  lemma {:induction false} TotalRest(p: Program, fuel: nat, env: Scopes, c: Chain)
    requires HarmlessRest(c) && !p.untyped
    ensures var r := InitFrames(p, fuel, env, c); r.Ok? || r.Stuck?
    decreases c
  {
    if c.Cond? {
      if c.init.Some? {
        TotalInit(p, fuel, env + [map[]], c.init.value);
      }
      var g := ExecInit(p, fuel, env, c.init);
      if g.Ok? {
        TotalRest(p, fuel, g.value, c.rest);
      }
    }
  }

  /// ## Both orders agree

  ghost predicate Same<X>(a: Res<X>, b: Res<X>) {
    a.Stuck? || b == a
  }

  ghost predicate Ready(p: Program) {
    p.eager && !p.untyped && HarmlessFuncs(p.funcs)
  }

  function Lazy(p: Program): Program {
    Program(p.funcs, false, p.untyped)
  }

  lemma {:induction false} SameExpr(p: Program, fuel: nat, env: Scopes, e: Expr)
    requires Ready(p)
    ensures Same(Eval(p, fuel, env, e), Eval(Lazy(p), fuel, env, e))
    decreases fuel, e, 0
  {
    match e
    case Lit(_) =>
    case Var(_) =>
    case Apply(op, args) => SameExprs(p, fuel, env, args);
    case And(left, right) =>
      SameExpr(p, fuel, env, left);
      SameExpr(p, fuel, env, right);
    case Or(left, right) =>
      SameExpr(p, fuel, env, left);
      SameExpr(p, fuel, env, right);
    case FuncRef(_) =>
    case MethodRef(_, recv, _) => SameExpr(p, fuel, env, recv);
    case Call(call) => SameCall(p, fuel, env, call);
  }

  lemma {:induction false} SameExprs(p: Program, fuel: nat, env: Scopes, es: seq<Expr>)
    requires Ready(p)
    ensures Same(EvalAll(p, fuel, env, es), EvalAll(Lazy(p), fuel, env, es))
    decreases fuel, es, 0
  {
    if es != [] {
      SameExpr(p, fuel, env, es[0]);
      SameExprs(p, fuel, env, es[1..]);
    }
  }

  lemma {:induction false} SameCall(p: Program, fuel: nat, env: Scopes, c: Invocation)
    requires Ready(p)
    ensures Same(EvalCall(p, fuel, env, c), EvalCall(Lazy(p), fuel, env, c))
    decreases fuel, c, 1
  {
    SameTarget(p, fuel, env, c);
    var target := Target(p, fuel, env, c);
    if target.Ok? && fuel > 0 {
      SameInvoke(p, fuel - 1, target.value.0, target.value.1);
    }
  }

  lemma {:induction false} SameTarget(p: Program, fuel: nat, env: Scopes, c: Invocation)
    requires Ready(p)
    ensures Same(Target(p, fuel, env, c), Target(Lazy(p), fuel, env, c))
    decreases fuel, c, 0
  {
    SameExprs(p, fuel, env, c.args);
    match c.callee
    case Static(_) =>
    case Method(_, recv, _) => SameExpr(p, fuel, env, recv);
    case FuncValue(e) => SameExpr(p, fuel, env, e);
  }

  lemma {:induction false} SameInvoke(p: Program, fuel: nat, f: string, vs: seq<Value>)
    requires Ready(p)
    ensures Same(Invoke(p, fuel, f, vs), Invoke(Lazy(p), fuel, f, vs))
    decreases fuel
  {
    var found := Find(p.funcs, f);
    if found.Some? && |found.value.params| == |vs| {
      FoundHarmless(p.funcs, f);
      var env := StoreAll(true, [map[]], found.value.params, vs);
      if env.Ok? {
        SameStmts(p, fuel, env.value, found.value.body);
      }
    }
  }

  lemma {:induction false} FoundHarmless(fs: seq<FuncDecl>, f: string)
    requires HarmlessFuncs(fs) && Find(fs, f).Some?
    ensures AllHarmless(Find(fs, f).value.body)
  {
    if fs[0].name != f {
      FoundHarmless(fs[1..], f);
    }
  }

  lemma {:induction false} SameAssign(p: Program, fuel: nat, env: Scopes, define: bool, a: Assign)
    requires Ready(p) && env != []
    ensures Same(ExecAssign(p, fuel, env, define, a), ExecAssign(Lazy(p), fuel, env, define, a))
    decreases fuel, a, 0
  {
    match a
    case Single(_, e) => SameExpr(p, fuel, env, e);
    case Tuple(_, es) => SameExprs(p, fuel, env, es);
    case Multi(_, _, rhs) => SameRhs(p, fuel, env, rhs);
  }

  lemma {:induction false} SameRhs(p: Program, fuel: nat, env: Scopes, rhs: MultiRhs)
    requires Ready(p)
    ensures Same(EvalRhs(p, fuel, env, rhs), EvalRhs(Lazy(p), fuel, env, rhs))
    decreases fuel, rhs, 0
  {
    match rhs
    case MultiCall(call) => SameCall(p, fuel, env, call);
    case MapTest(m, k, _) =>
      SameExpr(p, fuel, env, m);
      SameExpr(p, fuel, env, k);
  }

  lemma {:induction false} SameAny(p: Program, fuel: nat, env: Scopes, e: Expr)
    requires Ready(p)
    ensures Same(Eval(p, fuel, env, e), Eval(Lazy(p), fuel, env, e))
    ensures e.Call? ==> Same(EvalCall(p, fuel, env, e.call), EvalCall(Lazy(p), fuel, env, e.call))
    decreases fuel, e, 1
  {
    SameExpr(p, fuel, env, e);
    if e.Call? {
      SameCall(p, fuel, env, e.call);
    }
  }

  lemma {:induction false} SameStmt(p: Program, fuel: nat, env: Scopes, s: Stmt)
    requires Ready(p) && env != [] && Harmless(s)
    ensures Same(Exec(p, fuel, env, s), Exec(Lazy(p), fuel, env, s))
    decreases fuel, s, 0
  {
    match s
    case AssignStmt(define, a) => SameAssign(p, fuel, env, define, a);
    case ExprStmt(e) => SameAny(p, fuel, env, e);
    case Break =>
    case Continue =>
    case Return(es) =>
      SameExprs(p, fuel, env, es);
      if |es| == 1 {
        SameAny(p, fuel, env, es[0]);
      }
    case If(chain) => SameIf(p, fuel, env, chain);
    case Range(key, val, over, body) =>
      SameExpr(p, fuel, env, over);
      var o := Eval(p, fuel, env, over);
      if o.Ok? && Items(o.value).Some? {
        SameLoop(p, fuel, env, key, val, Items(o.value).value, body);
      }
    case Block(body) => SameScoped(p, fuel, env, body);
  }

  lemma {:induction false} SameStmts(p: Program, fuel: nat, env: Scopes, ss: seq<Stmt>)
    requires Ready(p) && env != [] && AllHarmless(ss)
    ensures Same(ExecAll(p, fuel, env, ss), ExecAll(Lazy(p), fuel, env, ss))
    decreases fuel, ss, 0
  {
    if ss != [] {
      SameStmt(p, fuel, env, ss[0]);
      var g := Exec(p, fuel, env, ss[0]);
      if g.Ok? && g.value.sig.Next? {
        SameStmts(p, fuel, g.value.env, ss[1..]);
      }
    }
  }

  lemma {:induction false} SameScoped(p: Program, fuel: nat, env: Scopes, ss: seq<Stmt>)
    requires Ready(p) && AllHarmless(ss)
    ensures Same(ExecScoped(p, fuel, env, ss), ExecScoped(Lazy(p), fuel, env, ss))
    decreases fuel, ss, 1
  {
    SameStmts(p, fuel, env + [map[]], ss);
  }

  lemma {:induction false} SameLoop(p: Program, fuel: nat, env: Scopes, key: string, val: string, items: seq<(Value, Value)>, body: seq<Stmt>)
    requires Ready(p) && AllHarmless(body)
    ensures Same(Loop(p, fuel, env, key, val, items, body), Loop(Lazy(p), fuel, env, key, val, items, body))
    decreases fuel, body, 2, |items|
  {
    if items != [] {
      var env1 := StoreAll(true, env + [map[]], [key, val], [items[0].0, items[0].1]);
      if env1.Ok? {
        SameScoped(p, fuel, env1.value, body);
        var flow := ExecScoped(p, fuel, env1.value, body);
        if flow.Ok? && (flow.value.sig.Next? || flow.value.sig.Cont?) {
          SameLoop(p, fuel, flow.value.env[..|env|], key, val, items[1..], body);
        }
      }
    }
  }

  lemma {:induction false} SameInit(p: Program, fuel: nat, env: Scopes, init: Option<Assign>)
    requires Ready(p)
    ensures Same(ExecInit(p, fuel, env, init), ExecInit(Lazy(p), fuel, env, init))
    decreases fuel, init, 0
  {
    if init.Some? {
      SameAssign(p, fuel, env + [map[]], true, init.value);
    }
  }

  lemma {:induction false} DeclareAbove(env: Scopes, scope: Scope, xs: seq<string>, vs: seq<Value>)
    requires |xs| == |vs|
    ensures var r := StoreAll(true, env + [scope], xs, vs); r.Ok? && r.value[..|env|] == env
    decreases |xs|
  {
    assert (env + [scope])[..|env|] == env;
    if xs != [] {
      var env1 := Store(true, env + [scope], xs[0], vs[0]).value;
      assert env1 == env + [env1[|env|]];
      DeclareAbove(env, env1[|env|], xs[1..], vs[1..]);
    }
  }

  /** An initialiser only adds a scope. */
  lemma {:induction false} InitAbove(p: Program, fuel: nat, env: Scopes, init: Option<Assign>)
    ensures var r := ExecInit(p, fuel, env, init);
            r.Ok? ==> r.value == Enter(env, init, if init.None? then map[] else r.value[|env|])
  {
    if init.Some? {
      AssignAbove(p, fuel, env, init.value);
      var r := ExecInit(p, fuel, env, init);
      if r.Ok? { assert r.value == env + [r.value[|env|]]; }
    }
  }

  lemma {:induction false} AssignAbove(p: Program, fuel: nat, env: Scopes, a: Assign)
    ensures var r := ExecAssign(p, fuel, env + [map[]], true, a); r.Ok? ==> r.value[..|env|] == env
  {
    var env0 := env + [map[]];
    match a
    case Single(x, e) =>
      var v := Eval(p, fuel, env0, e);
      if v.Ok? { DeclareAbove(env, map[], [x], [v.value]); }
    case Tuple(xs, es) =>
      var vs := EvalAll(p, fuel, env0, es);
      if vs.Ok? && |vs.value| == |xs| { DeclareAbove(env, map[], xs, vs.value); }
    case Multi(_, xs, rhs) =>
      var vs := EvalRhs(p, fuel, env0, rhs);
      if vs.Ok? && |vs.value| == |xs| { DeclareAbove(env, map[], xs, vs.value); }
  }

  lemma {:induction false} SameIf(p: Program, fuel: nat, env: Scopes, c: Chain)
    requires Ready(p) && env != [] && c.Cond? && AllHarmless(c.body) && HarmlessRest(c.rest)
    ensures Same(Exec(p, fuel, env, If(c)), Exec(Lazy(p), fuel, env, If(c)))
    decreases fuel, c, 3
  {
    RestBodies(c.rest);
    var fs := InitFrames(p, fuel, env, c);
    if fs.Ok? {
      SameChain(p, fuel, env, c, fs.value);
    } else {
      SameInit(p, fuel, env, c.init);
      var g := ExecInit(p, fuel, env, c.init);
      if g.Ok? {
        TotalRest(p, fuel, g.value, c.rest);
      }
    }
  }

  /** The scopes that were made up front are the ones that clauses make when they are reached. */
  lemma {:induction false} SameChain(p: Program, fuel: nat, env: Scopes, c: Chain, fs: seq<Scope>)
    requires Ready(p) && InitFrames(p, fuel, env, c) == Ok(fs)
    requires HarmlessBodies(c)
    ensures Same(ExecChain(p, fuel, env, c, fs), ExecChain(Lazy(p), fuel, env, c, []))
    decreases fuel, c, 0
  {
    match c
    case Else(body) => SameScoped(p, fuel, env, body);
    case Cond(init, cond, body, rest) =>
      SameInit(p, fuel, env, init);
      InitAbove(p, fuel, env, init);
      var env1 := ExecInit(p, fuel, env, init).value;
      assert env1 == Enter(env, init, fs[0]);
      assert InitFrames(p, fuel, env1, rest) == Ok(fs[1..]) by {
        assert fs == [fs[0]] + InitFrames(p, fuel, env1, rest).value;
      }
      SameExpr(p, fuel, env1, cond);
      SameScoped(p, fuel, env1, body);
      SameChain(p, fuel, env1, rest, fs[1..]);
  }

  /** For any chain that Go runs through: evaluating all initialisers first makes no difference exactly when all of them
      have values. */
  lemma {:induction false} EagerIff(p: Program, fuel: nat, env: Scopes, c: Chain)
    requires Ready(p) && env != [] && HarmlessBodies(c)
    requires !Exec(p, fuel, env, If(c)).Stuck? && Exec(Lazy(p), fuel, env, If(c)).Ok?
    ensures Exec(p, fuel, env, If(c)) == Exec(Lazy(p), fuel, env, If(c)) <==> InitFrames(p, fuel, env, c).Ok?
  {
    var fs := InitFrames(p, fuel, env, c);
    if fs.Ok? { SameChain(p, fuel, env, c, fs.value); }
  }

  /** `if true {} else if x := <panic>; true {}` runs through in Go, and not with its initialisers first. */
  lemma {:induction false} PanicHoisted(p: Program, fuel: nat, env: Scopes, x: string)
    requires p.eager && env != []
    ensures var c := Cond(None, Lit(Bool(true)), [], Cond(Some(Single(x, Apply(Fail, []))), Lit(Bool(true)), [], Else([])));
            Exec(Lazy(p), fuel, env, If(c)) == Ok(Flow(Next, env)) && Exec(p, fuel, env, If(c)).Panic?
  {
    var rest := Cond(Some(Single(x, Apply(Fail, []))), Lit(Bool(true)), [], Else([]));
    var c := Cond(None, Lit(Bool(true)), [], rest);
    var env0 := env + [map[]];
    assert EvalAll(p, fuel, env0, []) == Ok([]);
    assert ExecAssign(p, fuel, env0, true, rest.init.value).Panic?;
    assert InitFrames(p, fuel, env, rest).Panic?;
    assert ExecInit(p, fuel, env, None) == Ok(env);
    assert InitFrames(p, fuel, env, c).Panic?;
    assert ExecAll(Lazy(p), fuel, env0, []) == Ok(Flow(Next, env0));
    assert env0[..|env|] == env && env[..|env|] == env;
    assert ExecScoped(Lazy(p), fuel, env, []) == Ok(Flow(Next, env));
    assert ExecChain(Lazy(p), fuel, env, c, []) == Ok(Flow(Next, env));
  }
}
