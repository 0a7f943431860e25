/** Where the translation and the rewrite part from Go: the code behind each condition they ask for. */
module Limits {
  import opened Wrappers
  import C = CountedLoop
  import G = GoLang
  import opened HelmTemplate
  import opened Transpile
  import opened ExprProof
  import opened ScopeProof
  import opened Simulation
  import E = Emit
  import EP = EagerProof

  /// ## Unrolled assignments

  /** The assignments of a tuple, one statement each. */
  function Singles(define: bool, xs: seq<string>, es: seq<G.Expr>): seq<G.Stmt> {
    if xs == [] || es == [] then []
    else [G.AssignStmt(define, G.Single(xs[0], es[0]))] + Singles(define, xs[1..], es[1..])
  }

  /** What the right sides evaluate to one after the other, each after the assignments before it, and the end. */
  function OneByOne(p: G.Program, fuel: nat, env: G.Scopes, define: bool, xs: seq<string>, es: seq<G.Expr>): (r: Res<(seq<G.Value>, G.Scopes)>)
    requires env != [] && |xs| == |es|
    ensures r.Ok? ==> |r.value.0| == |xs| && |r.value.1| == |env|
    decreases |xs|
  {
    if xs == [] then Ok(([], env))
    else
      var v :- G.Eval(p, fuel, env, es[0]);
      var env1 :- G.Store(define, env, xs[0], v);
      var rest :- OneByOne(p, fuel, env1, define, xs[1..], es[1..]);
      Ok(([v] + rest.0, rest.1))
  }

  lemma {:induction false} SinglesMeaning(define: bool, xs: seq<string>, es: seq<G.Expr>)
    requires |xs| == |es|
    ensures E.Meanings(TranspileStatements(Singles(define, xs, es))) == E.Meanings(Unroll(define, xs, es))
    decreases |xs|
  {
    if xs != [] {
      SinglesMeaning(define, xs[1..], es[1..]);
      var s, rest := G.AssignStmt(define, G.Single(xs[0], es[0])), Singles(define, xs[1..], es[1..]);
      assert ([s] + rest)[1..] == rest;
      var node := TranspileStatement(s);
      assert ([node] + TranspileStatements(rest))[1..] == TranspileStatements(rest);
      UnrollShape(define, xs, es);
    }
  }

  lemma {:induction false} SinglesGood(define: bool, xs: seq<string>, es: seq<G.Expr>, visible: set<string>)
    requires |xs| == |es| && GoodNames(xs)
    ensures GoodStmts(Singles(define, xs, es), visible)
    decreases |xs|
  {
    if xs != [] {
      var s, rest := G.AssignStmt(define, G.Single(xs[0], es[0])), Singles(define, xs[1..], es[1..]);
      assert ([s] + rest)[1..] == rest;
      assert GoodName(xs[0]);
      SinglesGood(define, xs[1..], es[1..], visible + Declared(s));
    }
  }

  lemma {:induction false} SinglesRun(p: G.Program, fuel: nat, env: G.Scopes, define: bool, xs: seq<string>, es: seq<G.Expr>)
    requires env != [] && |xs| == |es|
    ensures var g, r := G.ExecAll(p, fuel, env, Singles(define, xs, es)), OneByOne(p, fuel, env, define, xs, es);
            match r
            case Ok(end) => g == Ok(G.Flow(G.Next, end.1))
            case Stuck => g.Stuck?
            case Panic => g.Panic?
            case Timeout => g.Timeout?
    decreases |xs|
  {
    if xs != [] {
      var s, rest := G.AssignStmt(define, G.Single(xs[0], es[0])), Singles(define, xs[1..], es[1..]);
      assert ([s] + rest)[1..] == rest;
      FirstRuns(p, fuel, env, define, xs[0], es[0]);
      var v := G.Eval(p, fuel, env, es[0]);
      if v.Ok? {
        var env1 := G.Store(define, env, xs[0], v.value);
        if env1.Ok? { SinglesRun(p, fuel, env1.value, define, xs[1..], es[1..]); }
      }
      hide G.Exec, G.Eval, G.Store;
    }
  }

  lemma {:induction false} FirstRuns(p: G.Program, fuel: nat, env: G.Scopes, define: bool, x: string, e: G.Expr)
    requires env != []
    ensures var g, v := G.Exec(p, fuel, env, G.AssignStmt(define, G.Single(x, e))), G.Eval(p, fuel, env, e);
            match v
            case Ok(value) =>
              var env1 := G.Store(define, env, x, value);
              if env1.Ok? then g == Ok(G.Flow(G.Next, env1.value)) else g.Stuck?
            case Stuck => g.Stuck?
            case Panic => g.Panic?
            case Timeout => g.Timeout?
  {
    var v := G.Eval(p, fuel, env, e);
    if v.Ok? { StoreOne(define, env, x, v.value); }
    var a := G.ExecAssign(p, fuel, env, define, G.Single(x, e));
    assert v.Ok? ==> a == G.StoreAll(define, env, [x], [v.value]);
    assert v.Panic? ==> a.Panic?;
    assert v.Timeout? ==> a.Timeout?;
    assert v.Stuck? ==> a.Stuck?;
  }

  lemma {:induction false} StoreOther(define: bool, env: G.Scopes, x: string, v: G.Value, y: string)
    requires env != [] && x != G.BLANK && G.Store(define, env, x, v).Ok?
    ensures G.Lookup(G.Store(define, env, x, v).value, y) == if y == x then Some(v) else G.Lookup(env, y)
  {
    if define {
      var env' := G.Declare(env, x, v);
      assert env'[..|env| - 1] == env[..|env| - 1];
    } else {
      LookupAfterUpdate(env, x, v, y);
    }
  }

  predicate Distinct(xs: seq<string>) {
    forall i, j :: 0 <= i < j < |xs| ==> xs[i] != xs[j]
  }

  lemma {:induction false} OthersKept(p: G.Program, fuel: nat, env: G.Scopes, define: bool, xs: seq<string>, es: seq<G.Expr>, y: string)
    requires env != [] && |xs| == |es| && OneByOne(p, fuel, env, define, xs, es).Ok? && y !in xs && G.BLANK !in xs
    ensures G.Lookup(OneByOne(p, fuel, env, define, xs, es).value.1, y) == G.Lookup(env, y)
    decreases |xs|
  {
    if xs != [] {
      var v := G.Eval(p, fuel, env, es[0]).value;
      StoreOther(define, env, xs[0], v, y);
      OthersKept(p, fuel, G.Store(define, env, xs[0], v).value, define, xs[1..], es[1..], y);
    }
  }

  /** Each target ends with what its right side evaluated to in its turn. */
  lemma {:induction false} TargetsHold(p: G.Program, fuel: nat, env: G.Scopes, define: bool, xs: seq<string>, es: seq<G.Expr>, j: nat)
    requires env != [] && |xs| == |es| && j < |xs| && OneByOne(p, fuel, env, define, xs, es).Ok? && Distinct(xs) && G.BLANK !in xs
    ensures var end := OneByOne(p, fuel, env, define, xs, es).value; G.Lookup(end.1, xs[j]) == Some(end.0[j])
    decreases |xs|
  {
    var v := G.Eval(p, fuel, env, es[0]).value;
    var env1 := G.Store(define, env, xs[0], v).value;
    if j == 0 {
      StoreOther(define, env, xs[0], v, xs[0]);
      OthersKept(p, fuel, env1, define, xs[1..], es[1..], xs[0]);
    } else {
      TargetsHold(p, fuel, env1, define, xs[1..], es[1..], j - 1);
    }
  }

  /** `x, y, ... = e, f, ...` is unrolled.  A target is right exactly when its right side reads the same after the
      assignments to the targets before it. */
  lemma {:induction false} TupleUnrolled(p: G.Program, fuel: nat, env: G.Scopes, vars: seq<Binding>, marks: seq<nat>, define: bool,
                      xs: seq<string>, es: seq<G.Expr>, vs: seq<G.Value>)
    requires Good(p) && Rel(env, vars, marks) && FindVar(vars, E.FLAG) == Some(JBool(false))
    requires |xs| == |es| && Distinct(xs) && forall i :: 0 <= i < |xs| ==> UserName(xs[i])
    requires G.EvalAll(p, fuel, env, es) == Ok(vs)
    ensures var r := OneByOne(p, fuel, env, define, xs, es);
            var t := TExecAll(Defs(p), fuel, vars, E.Meaning(TranspileAssign(define, G.Tuple(xs, es))));
            if r.Ok? then
              t.Ok? && forall j :: 0 <= j < |xs| ==> (FindVar(t.value.vars, xs[j]) == Some(Enc(vs[j])) <==> Enc(r.value.0[j]) == Enc(vs[j]))
            else r.Stuck? || !t.Ok?
  {
    UnrolledRuns(p, fuel, env, vars, marks, define, xs, es);
    hide TExecAll, Rel, FindVar, Enc, G.EvalAll, OneByOne, E.Meaning, TranspileAssign, Good;
    var r := OneByOne(p, fuel, env, define, xs, es);
    if r.Ok? {
      var t := TExecAll(Defs(p), fuel, vars, E.Meaning(TranspileAssign(define, G.Tuple(xs, es)))).value;
      forall j | 0 <= j < |xs| ensures FindVar(t.vars, xs[j]) == Some(Enc(r.value.0[j])) {
        TargetsHold(p, fuel, env, define, xs, es, j);
        RelLookup(r.value.1, t.vars, marks, xs[j]);
      }
    }
  }

  lemma {:induction false} UnrolledRuns(p: G.Program, fuel: nat, env: G.Scopes, vars: seq<Binding>, marks: seq<nat>, define: bool,
                     xs: seq<string>, es: seq<G.Expr>)
    requires Good(p) && Rel(env, vars, marks) && FindVar(vars, E.FLAG) == Some(JBool(false))
    requires |xs| == |es| && forall i :: 0 <= i < |xs| ==> UserName(xs[i])
    ensures env != []
    ensures var r := OneByOne(p, fuel, env, define, xs, es);
            var t := TExecAll(Defs(p), fuel, vars, E.Meaning(TranspileAssign(define, G.Tuple(xs, es))));
            if r.Ok? then t.Ok? && Rel(r.value.1, t.value.vars, marks) else r.Stuck? || !t.Ok?
  {
    forall i | 0 <= i < |xs| ensures GoodName(xs[i]) { assert UserName(xs[i]); }
    SinglesMeaning(define, xs, es);
    SinglesGood(define, xs, es, Names(env));
    SinglesRun(p, fuel, env, define, xs, es);
    hide G.ExecAll, TExecAll, Rel, FindVar, Singles, OneByOne, E.Meaning, E.Meanings, TranspileAssign, TranspileStatements, Unroll, Good, GoodStmts, Names;
    SimStmts(p, fuel, env, vars, marks, Singles(define, xs, es), Names(env));
  }

  /** The swap `a, b = b, a` of two different values does not swap. */
  lemma {:induction false} SwapFails(defs: seq<Define>, fuel: nat)
    ensures var vars := [Binding("a", JNum(1)), Binding("b", JNum(2))];
            var env: G.Scopes := [map["a" := G.Num(1), "b" := G.Num(2)]];
            var swap := G.Tuple(["a", "b"], [G.Var("b"), G.Var("a")]);
            var t := TExecAll(defs, fuel, vars, E.Meaning(TranspileAssign(false, swap)));
            var g := G.ExecAssign(G.Program([], false, false), fuel, env, false, swap);
            && g.Ok? && G.Lookup(g.value, "b") == Some(G.Num(1))
            && t.Ok? && FindVar(t.value.vars, "b") == Some(JNum(2))
  {
    SwapResult(defs, fuel);
    SwapInGo(fuel);
  }

  lemma {:induction false} SwapResult(defs: seq<Define>, fuel: nat)
    ensures var vars := [Binding("a", JNum(1)), Binding("b", JNum(2))];
            TExecAll(defs, fuel, vars, E.Meanings(Unroll(false, ["a", "b"], [G.Var("b"), G.Var("a")])))
            == Ok(TFlow(TNext, [Binding("a", JNum(2)), Binding("b", JNum(2))], []))
  {
    var va, vb, vc := Binding("a", JNum(1)), Binding("b", JNum(2)), Binding("a", JNum(2));
    assert [va, vb][..1] == [va] && [va][..0] == [] && [vc, vb][..1] == [vc];
    assert SetVar([va], "a", JNum(2)) == Some([] + [vc]);
    assert [] + [vc] == [vc] && [vc] + [vb] == [vc, vb];
    assert SetVar([va, vb], "a", JNum(2)) == Some([vc, vb]);
    assert SetVar([vc, vb], "b", JNum(2)) == Some([vc] + [vb]);
    assert ["a", "b"][1..] == ["b"] && ["b"][1..] == [];
    assert [G.Var("b"), G.Var("a")][1..] == [G.Var("a")] && [G.Var("a")][1..] == [];
    UnrollShape(false, ["a", "b"], [G.Var("b"), G.Var("a")]);
    UnrollShape(false, ["b"], [G.Var("a")]);
    ExecAssignment(defs, fuel, [va, vb], "a", false, TVar("b"), E.Meanings(Unroll(false, ["b"], [G.Var("a")])));
    ExecAssignment(defs, fuel, [vc, vb], "b", false, TVar("a"), []);
    assert FindVar([vc, vb], "a") == Some(JNum(2)) by { assert FindVar([vc], "a") == Some(JNum(2)); }
  }

  lemma {:induction false} SwapInGo(fuel: nat)
    ensures var env: G.Scopes := [map["a" := G.Num(1), "b" := G.Num(2)]];
            var g := G.ExecAssign(G.Program([], false, false), fuel, env, false, G.Tuple(["a", "b"], [G.Var("b"), G.Var("a")]));
            g.Ok? && G.Lookup(g.value, "b") == Some(G.Num(1))
  {
    var scope: G.Scope := map["a" := G.Num(1), "b" := G.Num(2)];
    var env := [scope];
    SwapReads(G.Program([], false, false), fuel, env);
    hide G.EvalAll, G.Update, G.Lookup;
    SwapWrites(scope);
  }

  lemma {:induction false} SwapReads(p: G.Program, fuel: nat, env: G.Scopes)
    requires G.Lookup(env, "a") == Some(G.Num(1)) && G.Lookup(env, "b") == Some(G.Num(2))
    ensures G.EvalAll(p, fuel, env, [G.Var("b"), G.Var("a")]) == Ok([G.Num(2), G.Num(1)])
  {
    assert [G.Var("b"), G.Var("a")][1..] == [G.Var("a")] && [G.Var("a")][1..] == [];
    assert G.EvalAll(p, fuel, env, [G.Var("a")]) == Ok([G.Num(1)] + []);
    assert [G.Num(1)] + [] == [G.Num(1)] && [G.Num(2)] + [G.Num(1)] == [G.Num(2), G.Num(1)];
  }

  lemma {:induction false} SwapWrites(scope: G.Scope)
    requires "a" in scope && "b" in scope
    ensures var r := G.StoreAll(false, [scope], ["a", "b"], [G.Num(2), G.Num(1)]);
            r.Ok? && G.Lookup(r.value, "b") == Some(G.Num(1))
  {
    assert ["a", "b"][1..] == ["b"] && ["b"][1..] == [];
    assert [G.Num(2), G.Num(1)][1..] == [G.Num(1)] && [G.Num(1)][1..] == [];
    StoreOther(false, [scope], "a", G.Num(2), "b");
    var env1 := G.Store(false, [scope], "a", G.Num(2)).value;
    StoreOther(false, env1, "b", G.Num(1), "b");
    assert G.StoreAll(false, env1, ["b"], [G.Num(1)]) == G.Store(false, env1, "b", G.Num(1));
  }

  /// ## Bare blocks

  /** After a bare block, however it shadows: a variable of the surrounding scopes is right exactly when the block did not
      declare it anew, or its last value inside is the one that it has outside. */
  lemma {:induction false} BareBlockIff(p: G.Program, fuel: nat, env: G.Scopes, vars: seq<Binding>, marks: seq<nat>, body: seq<G.Stmt>, x: string)
    requires Good(p) && GoodStmts(body, Names(env)) && Rel(env, vars, marks) && FindVar(vars, E.FLAG) == Some(JBool(false))
    requires G.ExecAll(p, fuel, env + [map[]], body).Ok? && x in Names(env)
    ensures var inner := G.ExecAll(p, fuel, env + [map[]], body).value.env;
            var after := G.ExecScoped(p, fuel, env, body).value.env;
            var t := TExecAll(Defs(p), fuel, vars, E.Meaning(TranspileStatement(G.Block(body))));
            && t.Ok? && G.Lookup(after, x).Some?
            && (FindVar(t.value.vars, x) == Some(Enc(G.Lookup(after, x).value))
                <==> x !in inner[|env|] || Enc(inner[|env|][x]) == Enc(G.Lookup(after, x).value))
  {
    BlockRuns(p, fuel, env, vars, marks, body);
    BlockCloses(p, fuel, env, body);
    hide G.ExecAll, G.ExecScoped, TExecAll, Rel, Grown, E.Meaning, TranspileStatement, FindVar, GoodStmts, Good;
    var g := G.ExecAll(p, fuel, env + [map[]], body).value;
    var t := TExecAll(Defs(p), fuel, vars, E.Meaning(TranspileStatement(G.Block(body)))).value;
    BlockVariable(env, g.env, t.vars, marks + [|vars|], AllDeclared(body), x);
  }

  /** The block's statements run in the scope that they are not given. */
  lemma {:induction false} BlockRuns(p: G.Program, fuel: nat, env: G.Scopes, vars: seq<Binding>, marks: seq<nat>, body: seq<G.Stmt>)
    requires Good(p) && GoodStmts(body, Names(env)) && Rel(env, vars, marks) && FindVar(vars, E.FLAG) == Some(JBool(false))
    ensures StmtHolds(env + [map[]], marks + [|vars|], AllDeclared(body), G.ExecAll(p, fuel, env + [map[]], body),
                      TExecAll(Defs(p), fuel, vars, E.Meaning(TranspileStatement(G.Block(body)))))
  {
    PushScope(env, vars, marks);
    assert (env + [map[]])[..|env|] == env;
    assert Names(env + [map[]]) == Names(env);
    SimStmts(p, fuel, env + [map[]], vars, marks + [|vars|], body, Names(env));
    BlockMeaning(p, fuel, env, body);
  }

  lemma {:induction false} BlockCloses(p: G.Program, fuel: nat, env: G.Scopes, body: seq<G.Stmt>)
    requires G.ExecAll(p, fuel, env + [map[]], body).Ok?
    ensures var g := G.ExecAll(p, fuel, env + [map[]], body).value;
            G.ExecScoped(p, fuel, env, body) == Ok(G.Flow(g.sig, g.env[..|env|]))
  {
  }

  lemma {:induction false} BlockVariable(env: G.Scopes, inner: G.Scopes, vars: seq<Binding>, marks: seq<nat>, declared: set<string>, x: string)
    requires Rel(inner, vars, marks) && Grown(env + [map[]], inner, declared) && x in Names(env)
    ensures |inner| == |env| + 1 && G.Lookup(inner[..|env|], x).Some?
    ensures FindVar(vars, x) == Some(Enc(G.Lookup(inner[..|env|], x).value))
            <==> x !in inner[|env|] || Enc(inner[|env|][x]) == Enc(G.Lookup(inner[..|env|], x).value)
  {
    OuterNames(env, inner, declared);
    NamedSome(inner[..|env|], x);
    RelLookup(inner, vars, marks, x);
  }

  lemma {:induction false} OuterNames(env: G.Scopes, inner: G.Scopes, declared: set<string>)
    requires Grown(env + [map[]], inner, declared)
    ensures Names(inner[..|env|]) == Names(env)
  {
    assert (env + [map[]])[..|env|] == env;
    SameNames(inner[..|env|], env);
  }

  lemma {:induction false} NamedSome(env: G.Scopes, x: string)
    requires x in Names(env)
    ensures G.Lookup(env, x).Some?
  {
    if x !in env[|env| - 1] { NamedSome(env[..|env| - 1], x); }
  }

  /** A variable that a bare block declares outlives the block in the template. */
  lemma {:induction false} BareBlockHides(defs: seq<Define>, fuel: nat, x: string, old': Json, inner: G.Value)
    requires x != G.BLANK
    ensures var block := G.Block([G.AssignStmt(true, G.Single(x, G.Lit(inner)))]);
            var t := TExecAll(defs, fuel, [Binding(x, old')], E.Meaning(TranspileStatement(block)));
            t.Ok? && FindVar(t.value.vars, x) == Some(Enc(inner))
    ensures var block := G.Block([G.AssignStmt(true, G.Single(x, G.Lit(inner)))]);
            forall v :: var g := G.Exec(G.Program([], false, false), fuel, [map[x := v]], block);
                        g.Ok? && G.Lookup(g.value.env, x) == Some(v)
  {
    var s := G.AssignStmt(true, G.Single(x, G.Lit(inner)));
    var node := E.Assignment(x, true, TLit(Enc(inner)));
    assert [s][1..] == [] && TranspileStatements([s]) == [node] + TranspileStatements([]);
    assert [node] + [] == [node] && [node][1..] == [];
    assert E.Meanings([node]) == [TAssign(x, true, TLit(Enc(inner)))] + [];
    ExecAssignment(defs, fuel, [Binding(x, old')], x, true, TLit(Enc(inner)), []);
    FindPush([Binding(x, old')], x, Enc(inner), x);
    forall v ensures var g := G.Exec(G.Program([], false, false), fuel, [map[x := v]], G.Block([s]));
                     g.Ok? && G.Lookup(g.value.env, x) == Some(v)
    {
      BlockInGo(fuel, x, v, inner);
    }
  }

  lemma {:induction false} BlockInGo(fuel: nat, x: string, v: G.Value, inner: G.Value)
    requires x != G.BLANK
    ensures var g := G.Exec(G.Program([], false, false), fuel, [map[x := v]], G.Block([G.AssignStmt(true, G.Single(x, G.Lit(inner)))]));
            g.Ok? && G.Lookup(g.value.env, x) == Some(v)
  {
    var p, s := G.Program([], false, false), G.AssignStmt(true, G.Single(x, G.Lit(inner)));
    var scope: G.Scope := map[x := v];
    var empty: G.Scope := map[];
    var env1 := [scope] + [empty];
    StoreOne(true, env1, x, inner);
    assert [s][1..] == [];
    assert env1[..1] == [scope];
    var env2 := G.Declare(env1, x, inner);
    assert env2[..1] == [scope];
    assert G.Eval(p, fuel, env1, G.Lit(inner)) == Ok(inner);
    assert G.ExecAssign(p, fuel, env1, true, G.Single(x, G.Lit(inner))) == Ok(env2);
    assert G.Exec(p, fuel, env1, s) == Ok(G.Flow(G.Next, env2));
    assert G.ExecAll(p, fuel, env1, [s]) == Ok(G.Flow(G.Next, env2)) by {
      assert G.ExecAll(p, fuel, env2, []) == Ok(G.Flow(G.Next, env2));
    }
  }

  /// ## One nil

  /** The template has Go's value, or fails where Go panics. */
  ghost predicate Agrees(g: Res<G.Value>, t: Res<Json>) {
    if g.Ok? then t == Ok(Enc(g.value)) else !t.Ok?
  }

  lemma {:induction false} CountsIff(op: G.Op, vs: seq<G.Value>)
    requires G.Counts(op, vs)
    ensures var g, list := G.Perform(op, vs), JList(JNums(C.Emitted(op.cmp, op.post, vs[0].n, vs[1].n)));
            (g.Ok? && Enc(g.value) == list) <==> !G.Miscounted(op, vs)
  {
    var ns := C.Emitted(op.cmp, op.post, vs[0].n, vs[1].n);
    var g := C.GoValues(op.cmp, C.Step(op.post), vs[0].n, vs[1].n);
    C.CountedLoopIff(op.cmp, op.post, vs[0].n, vs[1].n);
    hide C.GoValues, C.Emitted, C.Agrees;
    if g.Some? {
      EncNums(g.value);
      if JNums(g.value) == JNums(ns) { NumsInjective(g.value, ns); }
    }
  }

  lemma {:induction false} NumsInjective(a: seq<int>, b: seq<int>)
    requires JNums(a) == JNums(b)
    ensures a == b
  {
    assert |JNums(a)| == |a| && |JNums(b)| == |b|;
    forall i | 0 <= i < |a| ensures a[i] == b[i] {
      assert JNums(a)[i].n == a[i] && JNums(b)[i].n == b[i];
    }
  }

  /** Which outcome each of the exceptions has in Go. */
  lemma {:induction false} SpecialCases(op: G.Op, vs: seq<G.Value>)
    ensures G.NilRead(op, vs) ==> G.Perform(op, vs).Ok?
    ensures G.NilAppend(op, vs) ==> G.Perform(op, vs) == Ok(G.Nil)
    ensures G.NilDeref(op, vs) ==> G.Perform(op, vs).Panic?
  {
  }

  /** Any operation on operands of its types: the template agrees with Go except when it reads a nil map, appends nothing
      to a nil slice, dereferences a nil pointer or counts a loop that `untilStep` does not. */
  lemma {:induction false} OperationIff(defs: seq<Define>, fuel: nat, vars: seq<Binding>, op: G.Op, args: seq<TExpr>, vs: seq<G.Value>)
    requires TEvalAll(defs, fuel, vars, args) == Ok(EncAll(vs)) && !G.Perform(op, vs).Stuck?
    ensures Agrees(G.Perform(op, vs), TEval(defs, fuel, vars, TranspileOp(op, args)))
            <==> !G.NilRead(op, vs) && !G.NilAppend(op, vs) && !G.NilDeref(op, vs) && !G.Miscounted(op, vs)
  {
    SimOp(defs, fuel, vars, op, args, vs);
    if G.Counts(op, vs) {
      CountsIff(op, vs);
      EncNums(C.Emitted(op.cmp, op.post, vs[0].n, vs[1].n));
    } else if G.NilAppend(op, vs) {
      assert Enc(G.List([])) == JList([]);
    }
    SpecialCases(op, vs);
    hide TEval, TEvalAll, TranspileOp, G.Perform, C.Emitted, EncAll;
  }

  /** `m[k]` with a map that may be nil: Go always has a value, the template has it exactly when the map is not nil. */
  lemma {:induction false} MapReadIff(defs: seq<Define>, fuel: nat, vars: seq<Binding>, op: G.Op, args: seq<TExpr>, m: G.Value, k: string)
    requires op.MapIndex? || op.MapGet?
    requires m.Nil? || m.Map?
    requires TEvalAll(defs, fuel, vars, args) == Ok(EncAll([m, G.Str(k)]))
    ensures G.Perform(op, [m, G.Str(k)]).Ok?
    ensures TEval(defs, fuel, vars, TranspileOp(op, args)) == Ok(Enc(G.Perform(op, [m, G.Str(k)]).value)) <==> !m.Nil?
  {
    OperationIff(defs, fuel, vars, op, args, [m, G.Str(k)]);
  }

  /** `append(xs, v, ...)` with a slice that may be nil. */
  lemma {:induction false} AppendIff(defs: seq<Define>, fuel: nat, vars: seq<Binding>, args: seq<TExpr>, xs: G.Value, vs: seq<G.Value>)
    requires G.Elems(xs).Some? && TEvalAll(defs, fuel, vars, args) == Ok(EncAll([xs] + vs))
    ensures G.Perform(G.Append, [xs] + vs) == Ok(if xs.Nil? && vs == [] then G.Nil else G.List(G.Elems(xs).value + vs))
    ensures TEval(defs, fuel, vars, TranspileOp(G.Append, args)) == Ok(Enc(G.Perform(G.Append, [xs] + vs).value))
            <==> !(xs.Nil? && vs == [])
  {
    assert ([xs] + vs)[1..] == vs;
    OperationIff(defs, fuel, vars, G.Append, args, [xs] + vs);
  }

  /** `append(xs, ys...)` with slices that may be nil. */
  lemma {:induction false} SpreadIff(defs: seq<Define>, fuel: nat, vars: seq<Binding>, args: seq<TExpr>, xs: G.Value, ys: G.Value)
    requires G.Elems(xs).Some? && G.Elems(ys).Some? && TEvalAll(defs, fuel, vars, args) == Ok(EncAll([xs, ys]))
    ensures G.Perform(G.AppendSpread, [xs, ys])
            == Ok(if xs.Nil? && G.Elems(ys).value == [] then G.Nil else G.List(G.Elems(xs).value + G.Elems(ys).value))
    ensures TEval(defs, fuel, vars, TranspileOp(G.AppendSpread, args)) == Ok(Enc(G.Perform(G.AppendSpread, [xs, ys]).value))
            <==> !(xs.Nil? && G.Elems(ys).value == [])
  {
    OperationIff(defs, fuel, vars, G.AppendSpread, args, [xs, ys]);
  }

  /** `*p`, and likewise a value method through a pointer: the template agrees with Go exactly when the pointer is not
      nil. */
  lemma {:induction false} DerefIff(defs: seq<Define>, fuel: nat, vars: seq<Binding>, e: TExpr, v: G.Value)
    requires TEval(defs, fuel, vars, e) == Ok(Enc(v))
    ensures Agrees(G.Perform(G.Deref, [v]), TEval(defs, fuel, vars, TranspileOp(G.Deref, [e]))) <==> !v.Nil?
    ensures Agrees(G.Received(false, G.Through, v), TEval(defs, fuel, vars, Receiver(G.Through, e))) <==> !v.Nil?
  {
    EvalOne(defs, fuel, vars, e);
    assert EncAll([v]) == [Enc(v)];
    OperationIff(defs, fuel, vars, G.Deref, [e], [v]);
    EvalReceiver(defs, fuel, vars, e, G.Through);
  }
}
