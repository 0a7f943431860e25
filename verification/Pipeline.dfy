/** From Go source to rendered output. */
module Pipeline {
  import opened Wrappers
  import G = GoLang
  import opened HelmTemplate
  import E = Emit
  import T = Transpile
  import S = Simulation
  import H = Hoist
  import HP = HoistProof
  import EP = EagerProof
  import N = NilSafe
  import C = TypeCheck

  /** What a chart's source must respect, all of it visible in the source: new names are free, only first
      initialisers may fail, it never matters what kind of nil a value is, and the hoisted functions are in the
      fragment that the translation handles. */
  ghost predicate Accepted(needs: N.Needs, fs: seq<G.FuncDecl>) {
    H.Hoistable(fs) && EP.HarmlessFuncs(fs) && N.SafeFile(needs, fs) && T.GoodFuncs(H.HoistFuncs(fs, 0))
  }

  /** Go itself. */
  function Go(fs: seq<G.FuncDecl>): G.Program {
    G.Program(fs, false, false)
  }

  /** What the templates run: all initialisers of a chain first, and one nil for maps, slices and pointers. */
  function Emitted(fs: seq<G.FuncDecl>): G.Program {
    G.Program(fs, true, true)
  }

  /** Rendering `f` with the templates `defs` does what calling it in Go does.  Runs that are stuck even with all
      initialisers evaluated are ones that the type checker rules out. */
  ghost predicate Faithful(fs: seq<G.FuncDecl>, defs: seq<Define>, fuel: nat, f: string, vs: seq<G.Value>) {
    G.Invoke(G.Program(fs, true, false), fuel, f, vs).Stuck?
    || S.InvokeHolds(G.Invoke(Go(fs), fuel, f, vs), Render(defs, fuel, f, S.Dot(vs)))
  }

  /** Without any condition on initialisers or nils, what the templates compute. */
  lemma {:induction false} TemplatesRunEagerly(fs: seq<G.FuncDecl>, defs: seq<Define>, fuel: nat, f: string, vs: seq<G.Value>)
    requires H.Hoistable(fs) && T.GoodFuncs(H.HoistFuncs(fs, 0))
    requires E.ParseFile(E.FileActions(T.TranspileFuncs(H.HoistFuncs(fs, 0)))) == Some(defs)
    ensures S.InvokeHolds(G.Invoke(Emitted(fs), fuel, f, vs), Render(defs, fuel, f, S.Dot(vs)))
  {
    var p := Emitted(fs);
    HP.SameInvoke(p, H.Generated(H.FileInitVars(fs), H.CountFuncs(fs)), fuel, f, vs);
    S.TemplatesComputeGo(H.HoistProgram(p), defs, fuel, f, vs);
  }

  /** The two runs have the same output, or both have none. */
  ghost predicate SameOutput(g: Res<G.Signal>, t: Res<G.Signal>) {
    match g
    case Ok(sig) => sig.Brk? || sig.Cont? || (t.Ok? && S.Output(t.value) == S.Output(sig))
    case _ => !t.Ok?
  }

  /** A corollary for single calls: the templates do what Go does exactly when running all initialisers first, with one
      nil, makes no difference to the output of the call. */
  lemma {:induction false} TemplatesRunGoIff(fs: seq<G.FuncDecl>, defs: seq<Define>, fuel: nat, f: string, vs: seq<G.Value>)
    requires H.Hoistable(fs) && T.GoodFuncs(H.HoistFuncs(fs, 0))
    requires E.ParseFile(E.FileActions(T.TranspileFuncs(H.HoistFuncs(fs, 0)))) == Some(defs)
    requires var g, t := G.Invoke(Go(fs), fuel, f, vs), G.Invoke(Emitted(fs), fuel, f, vs);
             !g.Stuck? && !t.Stuck? && (t.Ok? ==> !t.value.Brk? && !t.value.Cont?)
    ensures S.InvokeHolds(G.Invoke(Go(fs), fuel, f, vs), Render(defs, fuel, f, S.Dot(vs)))
            <==> SameOutput(G.Invoke(Go(fs), fuel, f, vs), G.Invoke(Emitted(fs), fuel, f, vs))
  {
    TemplatesRunEagerly(fs, defs, fuel, f, vs);
    hide G.Invoke, Render;
  }

  /** Accepted sources: the templates do what Go does, for all calls that pass what the functions need. */
  lemma {:induction false} TemplatesRunGo(needs: N.Needs, fs: seq<G.FuncDecl>, defs: seq<Define>, fuel: nat, f: string, vs: seq<G.Value>)
    requires Accepted(needs, fs) && N.Fits(needs, f, vs)
    requires E.ParseFile(E.FileActions(T.TranspileFuncs(H.HoistFuncs(fs, 0)))) == Some(defs)
    ensures Faithful(fs, defs, fuel, f, vs)
  {
    TemplatesRunEagerly(fs, defs, fuel, f, vs);
    N.SameInvoke(G.Program(fs, true, false), needs, fuel, f, vs);
    EP.SameInvoke(G.Program(fs, true, false), fuel, f, vs);
  }

  /** The arguments are what the function takes. */
  ghost predicate Takes(tab: C.Table, f: string, vs: seq<G.Value>) {
    f in tab.sigs && C.AllHave(tab, vs, tab.sigs[f].params)
  }

  /** The run came to its end, and the templates print what the function returned, once, or nothing when it returned
      nothing; or it panicked or used up its budget of calls, and they fail. */
  ghost predicate Prints(g: Res<G.Signal>, t: Res<seq<Json>>) {
    match g
    case Ok(Ret(vs)) => t == Ok([JDict([("r", S.ResultJson(vs))])])
    case Ok(Next) => t == Ok([])
    case Panic => !t.Ok?
    case Timeout => !t.Ok?
    case _ => false
  }

  /** In a source that type-checks no run is stuck, so the templates do what Go does without exception. */
  lemma {:induction false} TypedRunGo(tab: C.Table, needs: N.Needs, fs: seq<G.FuncDecl>, defs: seq<Define>, fuel: nat, f: string, vs: seq<G.Value>)
    requires Accepted(needs, fs) && N.Fits(needs, f, vs) && C.FileTyped(tab, fs) && Takes(tab, f, vs)
    requires E.ParseFile(E.FileActions(T.TranspileFuncs(H.HoistFuncs(fs, 0)))) == Some(defs)
    ensures Prints(G.Invoke(Go(fs), fuel, f, vs), Render(defs, fuel, f, S.Dot(vs)))
  {
    TemplatesRunGo(needs, fs, defs, fuel, f, vs);
    C.SoundInvoke(tab, Go(fs), fuel, f, vs);
    C.SoundInvoke(tab, G.Program(fs, true, false), fuel, f, vs);
  }

  /** `func F(a, b []T) []T { return append(a, b...) }` on two nil slices. */
  function AppendBoth(): seq<G.FuncDecl> {
    [G.FuncDecl("F", ["a", "b"], [G.Return([G.Apply(G.AppendSpread, [G.Var("a"), G.Var("b")])])])]
  }

  lemma {:induction false} AppendsNothing(p: G.Program, fuel: nat)
    requires p.funcs == AppendBoth()
    ensures G.Invoke(p, fuel, "F", [G.Nil, G.Nil]) == Ok(G.Ret([if p.untyped then G.List([]) else G.Nil]))
  {
    var env := PassesNils();
    var e := G.Apply(G.AppendSpread, [G.Var("a"), G.Var("b")]);
    ReadsBoth(p, fuel, env, e);
    hide G.StoreAll, G.Lookup, G.Eval;
    ReturnsOne(p, fuel, env, e, if p.untyped then G.List([]) else G.Nil);
  }

  lemma {:induction false} PassesNils() returns (env: G.Scopes)
    ensures env != [] && G.StoreAll(true, [map[]], ["a", "b"], [G.Nil, G.Nil]) == Ok(env)
    ensures G.Lookup(env, "a") == Some(G.Nil) && G.Lookup(env, "b") == Some(G.Nil)
  {
    var one := G.Declare([map[]], "a", G.Nil);
    env := G.Declare(one, "b", G.Nil);
    assert ["a", "b"][1..] == ["b"] && ["b"][1..] == [] && [G.Nil, G.Nil][1..] == [G.Nil] && [G.Nil][1..] == [];
    assert G.StoreAll(true, one, ["b"], [G.Nil]) == G.StoreAll(true, env, [], []);
  }

  lemma {:induction false} ReturnsOne(p: G.Program, fuel: nat, env: G.Scopes, e: G.Expr, v: G.Value)
    requires env != [] && !e.Call? && G.Eval(p, fuel, env, e) == Ok(v)
    ensures G.ExecAll(p, fuel, env, [G.Return([e])]) == Ok(G.Flow(G.Ret([v]), env))
  {
    assert [e][1..] == [] && G.EvalAll(p, fuel, env, []) == Ok([]);
    assert G.EvalAll(p, fuel, env, [e]) == Ok([v] + []);
    assert [v] + [] == [v];
    assert G.Exec(p, fuel, env, G.Return([e])) == Ok(G.Flow(G.Ret([v]), env));
  }

  lemma {:induction false} ReadsBoth(p: G.Program, fuel: nat, env: G.Scopes, e: G.Expr)
    requires G.Lookup(env, "a") == Some(G.Nil) && G.Lookup(env, "b") == Some(G.Nil)
    requires e == G.Apply(G.AppendSpread, [G.Var("a"), G.Var("b")])
    ensures G.Eval(p, fuel, env, e) == Ok(if p.untyped then G.List([]) else G.Nil)
  {
    assert [G.Var("a"), G.Var("b")][1..] == [G.Var("b")] && [G.Var("b")][1..] == [];
    assert G.EvalAll(p, fuel, env, [G.Var("b")]) == Ok([G.Nil] + []);
    assert [G.Nil] + [] == [G.Nil] && [G.Nil] + [G.Nil] == [G.Nil, G.Nil];
    assert G.EvalAll(p, fuel, env, e.args) == Ok([G.Nil, G.Nil]);
  }

  lemma {:induction false} AppendGood()
    ensures H.Hoistable(AppendBoth()) && T.GoodFuncs(H.HoistFuncs(AppendBoth(), 0))
  {
    var f, hoisted := AppendBoth()[0], H.HoistFuncs(AppendBoth(), 0);
    var frames := [H.BlockFrame((set x | x in f.params) - {G.BLANK})];
    var body := H.HoistStmts(frames, f.body, 0);
    assert AppendBoth()[1..] == [] && hoisted == [G.FuncDecl("F", f.params, body)] + [];
    assert f.body[1..] == [] && body == H.HoistStmt(frames, f.body[0], 0) + [];
    assert body == H.HoistStmt(frames, f.body[0], 0) && |body| == 1 && body[0].Return?;
    assert T.UserName("a") && T.UserName("b");
    assert body == [body[0]];
    ReturnGood(body[0].es, set x | x in f.params);
    assert T.GoodFunc(hoisted[0]);
  }

  lemma {:induction false} ReturnGood(es: seq<G.Expr>, visible: set<string>)
    ensures T.GoodStmts([G.Return(es)], visible)
  {
    assert [G.Return(es)][1..] == [];
  }

  /** Go returns nil, which is rendered as `null`, and the template an empty list. */
  lemma {:induction false} AppendDiffers(defs: seq<Define>, fuel: nat)
    requires E.ParseFile(E.FileActions(T.TranspileFuncs(H.HoistFuncs(AppendBoth(), 0)))) == Some(defs)
    ensures G.Invoke(Go(AppendBoth()), fuel, "F", [G.Nil, G.Nil]) == Ok(G.Ret([G.Nil]))
    ensures Render(defs, fuel, "F", S.Dot([G.Nil, G.Nil])) == Ok([JDict([("r", JList([]))])])
  {
    AppendsNothing(Go(AppendBoth()), fuel);
    AppendsNothing(Emitted(AppendBoth()), fuel);
    AppendGood();
    TemplatesRunEagerly(AppendBoth(), defs, fuel, "F", [G.Nil, G.Nil]);
    EmptyOutput();
    hide G.Invoke, Render, AppendBoth, S.Output, S.Dot, T.TranspileFuncs, E.FileActions, E.ParseFile, H.HoistFuncs, H.Hoistable, T.GoodFuncs;
  }

  /** It is accepted, and type-checks, when callers pass a first slice that is not nil. */
  lemma {:induction false} AppendAccepted()
    ensures Accepted(map["F" := {0}], AppendBoth())
    ensures C.FileTyped(C.Table(map[], map["F" := C.Sig([C.TList(C.TStr), C.TList(C.TStr)], [C.TList(C.TStr)])]), AppendBoth())
  {
    AppendGood();
    hide H.Hoistable, H.HoistFuncs, T.GoodFuncs, T.GoodFunc;
    var d := AppendBoth()[0];
    var needs: N.Needs := map["F" := {0}];
    var e := G.Apply(G.AppendSpread, [G.Var("a"), G.Var("b")]);
    assert "a" in N.Given(needs, d);
    assert e.args[1..] == [G.Var("b")] && [G.Var("b")][1..] == [] && [e][1..] == [] && d.body[1..] == [];
    AppendTyped(e);
  }

  lemma {:induction false} AppendTyped(e: G.Expr)
    requires e == G.Apply(G.AppendSpread, [G.Var("a"), G.Var("b")])
    ensures C.FileTyped(C.Table(map[], map["F" := C.Sig([C.TList(C.TStr), C.TList(C.TStr)], [C.TList(C.TStr)])]), AppendBoth())
  {
    hide C.AllTyped, C.Declared, C.FileTyped;
    var t := C.TList(C.TStr);
    var tab := C.Table(map[], map["F" := C.Sig([t, t], [t])]);
    ParamsTyped(t);
    ReturnTyped(tab, t, e);
    C.TypedReturn(tab, AppendBoth()[0], C.Sig([t, t], [t]), [map["a" := t, "b" := t]], [e]);
  }

  lemma {:induction false} ParamsTyped(t: C.Type)
    ensures C.Declared([map[]], true, ["a", "b"], [t, t]) == Some([map["a" := t, "b" := t]])
  {
    var one: map<string, C.Type> := map["a" := t];
    C.DeclaresOne(map[], "a", t, ["b"], [t]);
    C.DeclaresOne(one, "b", t, [], []);
    C.DeclaresNone([one["b" := t]]);
    hide C.Declared;
    assert ["a"] + ["b"] == ["a", "b"] && ["b"] + [] == ["b"] && [t] + [t] == [t, t] && [t] + [] == [t];
  }

  lemma {:induction false} ReturnTyped(tab: C.Table, t: C.Type, e: G.Expr)
    requires t.TList? && e == G.Apply(G.AppendSpread, [G.Var("a"), G.Var("b")])
    ensures C.AllTyped(tab, [map["a" := t, "b" := t]], [e], [t])
  {
    var g: C.Types := [map["a" := t, "b" := t]];
    hide C.Has;
    assert [G.Var("b")][1..] == [] && e.args[1..] == [G.Var("b")] && [t, t][1..] == [t] && [t][1..] == [];
    assert C.AllTyped(tab, g, [G.Var("b")], [t]);
    assert C.AllTyped(tab, g, e.args, [t, t]) && C.Signature(tab, G.AppendSpread, [t, t], t);
    assert C.Exact(tab, g, e, t);
    assert [e][1..] == [] && C.AllTyped(tab, g, [], []);
  }

  lemma {:induction false} EmptyOutput()
    ensures S.Output(G.Ret([G.List([])])) == [JDict([("r", JList([]))])]
  {
  }

  /** One template for each function, in order, of its name and for its parameters. */
  predicate OneForEach(fs: seq<G.FuncDecl>, defs: seq<Define>) {
    && |defs| == |fs|
    && forall i :: 0 <= i < |fs| ==> defs[i].name == fs[i].name && defs[i].params == fs[i].params
  }

  lemma {:induction false} DefinesAll(fs: seq<G.FuncDecl>, n: nat)
    ensures OneForEach(fs, E.DefinesOf(T.TranspileFuncs(H.HoistFuncs(fs, n))))
  {
    if fs != [] {
      var n' := n + H.CountAll(fs[0].body);
      DefinesAll(fs[1..], n');
      var hoisted, more := H.HoistFuncs(fs, n), H.HoistFuncs(fs[1..], n');
      assert hoisted == [hoisted[0]] + more && hoisted[1..] == more;
      var nodes := T.TranspileFuncs(hoisted);
      assert nodes == [nodes[0]] + T.TranspileFuncs(more) && nodes[1..] == T.TranspileFuncs(more);
      var defs := E.DefinesOf(nodes);
      assert defs == [defs[0]] + E.DefinesOf(T.TranspileFuncs(more)) && defs[1..] == E.DefinesOf(T.TranspileFuncs(more));
      forall i | 0 <= i < |fs| ensures defs[i].name == fs[i].name && defs[i].params == fs[i].params {
        if i > 0 { assert defs[i] == defs[1..][i - 1] && fs[i] == fs[1..][i - 1]; }
      }
    }
  }

  /** The whole pipeline: rewrite, translate, print.  The printed file of any source parses to one template for each
      function.  For sources in the fragment they compute what the functions do with eager initialisers and one nil,
      and for accepted ones what the functions do in Go: for every function, arguments and budget of nested calls. */
  method TranspileFile(fs: seq<G.FuncDecl>) returns (file: seq<E.Action>)
    ensures file == E.FileActions(T.TranspileFuncs(H.HoistFuncs(fs, 0)))
    ensures E.ParseFile(file).Some? && OneForEach(fs, E.ParseFile(file).value)
    ensures H.Hoistable(fs) && T.GoodFuncs(H.HoistFuncs(fs, 0)) ==> forall fuel: nat, f, vs ::
              S.InvokeHolds(G.Invoke(Emitted(fs), fuel, f, vs), Render(E.ParseFile(file).value, fuel, f, S.Dot(vs)))
    ensures forall needs, fuel: nat, f, vs :: Accepted(needs, fs) && N.Fits(needs, f, vs) ==>
              Faithful(fs, E.ParseFile(file).value, fuel, f, vs)
    ensures forall tab, needs, fuel: nat, f, vs :: Accepted(needs, fs) && N.Fits(needs, f, vs) && C.FileTyped(tab, fs) && Takes(tab, f, vs) ==>
              Prints(G.Invoke(Go(fs), fuel, f, vs), Render(E.ParseFile(file).value, fuel, f, S.Dot(vs)))
  {
    hide G.Invoke, Render, S.InvokeHolds, Faithful, Accepted, N.Fits;
    var rewriter := new H.Rewriter();
    var hoisted := rewriter.File(fs);
    var writer := new E.Writer();
    writer.WriteFile(T.TranspileFuncs(hoisted));
    file := writer.out;
    assert file == E.FileActions(T.TranspileFuncs(hoisted));
    E.ReadWritten(T.TranspileFuncs(hoisted));
    DefinesAll(fs, 0);
    forall fuel: nat, f, vs | H.Hoistable(fs) && T.GoodFuncs(H.HoistFuncs(fs, 0))
      ensures S.InvokeHolds(G.Invoke(Emitted(fs), fuel, f, vs), Render(E.ParseFile(file).value, fuel, f, S.Dot(vs)))
    {
      TemplatesRunEagerly(fs, E.ParseFile(file).value, fuel, f, vs);
    }
    forall needs, fuel: nat, f, vs | Accepted(needs, fs) && N.Fits(needs, f, vs)
      ensures Faithful(fs, E.ParseFile(file).value, fuel, f, vs)
    {
      TemplatesRunGo(needs, fs, E.ParseFile(file).value, fuel, f, vs);
    }
    forall tab, needs, fuel: nat, f, vs | Accepted(needs, fs) && N.Fits(needs, f, vs) && C.FileTyped(tab, fs) && Takes(tab, f, vs)
      ensures Prints(G.Invoke(Go(fs), fuel, f, vs), Render(E.ParseFile(file).value, fuel, f, S.Dot(vs)))
    {
      TypedRunGo(tab, needs, fs, E.ParseFile(file).value, fuel, f, vs);
    }
  }
}
