/** Hoisting turns "each initialiser when its clause is reached" into "all initialisers of a chain first",
    and changes nothing else. */
module HoistProof {
  import opened Wrappers
  import opened GoLang
  import opened Hoist
  import opened FrameProof
  import T = Transpile

  /// ## What is claimed

  /** Same outcome, unless Go's type checker rules the original out. */
  ghost predicate Same<X>(a: Res<X>, b: Res<X>) {
    a.Stuck? || b == a
  }

  ghost predicate Agree(env: Scopes, frames: seq<Frame>, henv: Scopes) {
    forall x :: Lookup(env, x).Some? ==> Lookup(henv, Rename(frames, x)) == Lookup(env, x)
  }

  lemma {:induction false} HoldsAgree(env: Scopes, frames: seq<Frame>, henv: Scopes, given: set<string>)
    requires Holds(env, frames, henv, given)
    ensures Agree(env, frames, henv)
  {
    forall x | Lookup(env, x).Some? ensures Lookup(henv, Rename(frames, x)) == Lookup(env, x) {
      SameValue(env, frames, henv, given, x);
    }
  }

  /** The program runs its chains eagerly; `given` are the names that the rewrite may give out. */
  ghost predicate Ready(p: Program, given: set<string>) {
    p.eager && Supplied(p.funcs, given)
  }

  ghost predicate Supplied(fs: seq<FuncDecl>, given: set<string>) {
    Hoistable(fs) && given == Generated(FileInitVars(fs), CountFuncs(fs))
  }

  /** Declared names stay clear of the given ones, which include the numbers in (lo, hi]. */
  ghost predicate Clear(blockVars: set<string>, initVars: set<string>, lo: nat, hi: nat, given: set<string>) {
    && blockVars !! given && BLANK !in given
    && forall x, k: nat :: x in initVars && lo < k <= hi ==> Gen(x, k) in given
  }

  /** No name numbered in (lo, hi] is in use yet. */
  ghost predicate Avoid(henv: Scopes, lo: nat, hi: nat, given: set<string>) {
    forall i, y :: 0 <= i < |henv| && y in henv[i] && y in given ==> !(lo < NumberOf(y) <= hi)
  }

  /** Only the innermost block gets more variables; the given names among them are numbered in (lo, hi]. */
  ghost predicate Extends(henv: Scopes, henv': Scopes, lo: nat, hi: nat, given: set<string>) {
    && henv != [] && |henv'| == |henv|
    && (forall i :: 0 <= i < |henv| - 1 ==> henv'[i].Keys == henv[i].Keys)
    && forall y :: y in henv'[|henv| - 1] && y in given ==> y in henv[|henv| - 1] || lo < NumberOf(y) <= hi
  }

  ghost predicate SameKeys(henv: Scopes, henv': Scopes) {
    |henv'| == |henv| && forall i :: 0 <= i < |henv| ==> henv'[i].Keys == henv[i].Keys
  }

  /** The outcome of statements in a block. */
  ghost predicate Outcome(env: Scopes, frames: seq<Frame>, henv: Scopes, lo: nat, hi: nat, given: set<string>,
                          g: Res<Flow>, t: Res<Flow>) {
    match g
    case Ok(flow) =>
      && t.Ok? && t.value.sig == flow.sig && env != [] && |flow.env| == |env| == |frames|
      && Holds(flow.env, Current(frames, flow.env), t.value.env, given)
      && Extends(henv, t.value.env, lo, hi, given)
    case Stuck => true
    case _ => t == g
  }

  /** The outcome of a construct that closes the scopes it opens. */
  ghost predicate Closed(frames: seq<Frame>, henv: Scopes, given: set<string>, g: Res<Flow>, t: Res<Flow>) {
    match g
    case Ok(flow) =>
      && t.Ok? && t.value.sig == flow.sig
      && Holds(flow.env, frames, t.value.env, given) && SameKeys(henv, t.value.env)
    case Stuck => true
    case _ => t == g
  }

  /// ## Expressions

  lemma {:induction false} SameExpr(p: Program, given: set<string>, fuel: nat, env: Scopes, frames: seq<Frame>, henv: Scopes, e: Expr)
    requires Ready(p, given) && Agree(env, frames, henv)
    ensures Same(Eval(p, fuel, env, e), Eval(HoistProgram(p), fuel, henv, HoistExpr(frames, e)))
    decreases fuel, e, 0
  {
    hide Supplied;
    match e
    case Lit(_) =>
    case Var(_) =>
    case Apply(op, args) => SameExprs(p, given, fuel, env, frames, henv, args);
    case And(left, right) =>
      SameExpr(p, given, fuel, env, frames, henv, left);
      SameExpr(p, given, fuel, env, frames, henv, right);
    case Or(left, right) =>
      SameExpr(p, given, fuel, env, frames, henv, left);
      SameExpr(p, given, fuel, env, frames, henv, right);
    case FuncRef(_) =>
    case MethodRef(_, recv, _) => SameExpr(p, given, fuel, env, frames, henv, recv);
    case Call(call) => SameCall(p, given, fuel, env, frames, henv, call);
  }

  lemma {:induction false} SameExprs(p: Program, given: set<string>, fuel: nat, env: Scopes, frames: seq<Frame>, henv: Scopes, es: seq<Expr>)
    requires Ready(p, given) && Agree(env, frames, henv)
    ensures Same(EvalAll(p, fuel, env, es), EvalAll(HoistProgram(p), fuel, henv, HoistExprs(frames, es)))
    decreases fuel, es, 0
  {
    hide Supplied;
    if es != [] {
      SameExpr(p, given, fuel, env, frames, henv, es[0]);
      SameExprs(p, given, fuel, env, frames, henv, es[1..]);
      assert HoistExprs(frames, es)[1..] == HoistExprs(frames, es[1..]);
    }
  }

  lemma {:induction false} SameCall(p: Program, given: set<string>, fuel: nat, env: Scopes, frames: seq<Frame>, henv: Scopes, c: Invocation)
    requires Ready(p, given) && Agree(env, frames, henv)
    ensures Same(EvalCall(p, fuel, env, c), EvalCall(HoistProgram(p), fuel, henv, HoistCall(frames, c)))
    decreases fuel, c, 1
  {
    hide Supplied;
    SameTarget(p, given, fuel, env, frames, henv, c);
    var target := Target(p, fuel, env, c);
    if target.Ok? && fuel > 0 {
      SameInvoke(p, given, fuel - 1, target.value.0, target.value.1);
    }
  }

  lemma {:induction false} SameTarget(p: Program, given: set<string>, fuel: nat, env: Scopes, frames: seq<Frame>, henv: Scopes, c: Invocation)
    requires Ready(p, given) && Agree(env, frames, henv)
    ensures Same(Target(p, fuel, env, c), Target(HoistProgram(p), fuel, henv, HoistCall(frames, c)))
    decreases fuel, c, 0
  {
    hide Supplied;
    SameExprs(p, given, fuel, env, frames, henv, c.args);
    match c.callee
    case Static(_) =>
    case Method(_, recv, _) => SameExpr(p, given, fuel, env, frames, henv, recv);
    case FuncValue(e) => SameExpr(p, given, fuel, env, frames, henv, e);
  }

  lemma {:induction false} SameRhs(p: Program, given: set<string>, fuel: nat, env: Scopes, frames: seq<Frame>, henv: Scopes, rhs: MultiRhs)
    requires Ready(p, given) && Agree(env, frames, henv)
    ensures Same(EvalRhs(p, fuel, env, rhs), EvalRhs(HoistProgram(p), fuel, henv, HoistRhs(frames, rhs)))
    decreases fuel, rhs, 0
  {
    hide Supplied;
    match rhs
    case MultiCall(call) => SameCall(p, given, fuel, env, frames, henv, call);
    case MapTest(m, k, _) =>
      SameExpr(p, given, fuel, env, frames, henv, m);
      SameExpr(p, given, fuel, env, frames, henv, k);
  }

  /// ## Assignments

  /** The values that an assignment stores. */
  function AssignValues(p: Program, fuel: nat, env: Scopes, a: Assign): Res<seq<Value>> {
    match a
    case Single(_, e) => (var v :- Eval(p, fuel, env, e); Ok([v]))
    case Tuple(_, es) => EvalAll(p, fuel, env, es)
    case Multi(_, _, rhs) => EvalRhs(p, fuel, env, rhs)
  }

  lemma {:induction false} ExecAssignIs(p: Program, fuel: nat, env: Scopes, define: bool, a: Assign)
    requires env != []
    ensures var vs := AssignValues(p, fuel, env, a);
            var r := ExecAssign(p, fuel, env, define, a);
            if !vs.Ok? then !r.Ok? && r.Stuck? == vs.Stuck? && r.Panic? == vs.Panic?
            else if |vs.value| != |T.Targets(a)| then r.Stuck?
            else r == StoreAll(define, env, T.Targets(a), vs.value)
  {
  }

  lemma {:induction false} SameValues(p: Program, given: set<string>, fuel: nat, env: Scopes, frames: seq<Frame>, henv: Scopes,
                                      a: Assign, xs: seq<string>)
    requires Ready(p, given) && Agree(env, frames, henv) && |xs| == |T.Targets(a)|
    ensures T.Targets(Retarget(frames, a, xs)) == xs
    ensures Same(AssignValues(p, fuel, env, a), AssignValues(HoistProgram(p), fuel, henv, Retarget(frames, a, xs)))
    decreases fuel, a, 0
  {
    hide Supplied;
    match a
    case Single(_, e) => SameExpr(p, given, fuel, env, frames, henv, e);
    case Tuple(_, es) => SameExprs(p, given, fuel, env, frames, henv, es);
    case Multi(_, _, rhs) => SameRhs(p, given, fuel, env, frames, henv, rhs);
  }

  /** What a store does to one pair of environments. */
  lemma {:induction false} ExtendsTwice(a: Scopes, b: Scopes, c: Scopes, lo: nat, mid: nat, hi: nat, given: set<string>)
    requires Extends(a, b, lo, mid, given) && Extends(b, c, mid, hi, given) && lo <= mid <= hi
    ensures Extends(a, c, lo, hi, given)
  {
  }

  lemma {:induction false} AvoidRest(henv: Scopes, henv': Scopes, lo: nat, mid: nat, hi: nat, given: set<string>)
    requires Avoid(henv, lo, hi, given) && Extends(henv, henv', lo, mid, given) && lo <= mid <= hi
    ensures Avoid(henv', mid, hi, given)
  {
    forall i, y | 0 <= i < |henv'| && y in henv'[i] && y in given ensures !(mid < NumberOf(y) <= hi) {
      if i < |henv| - 1 { assert y in henv[i]; }
    }
  }

  lemma {:induction false} DeclareOne(env: Scopes, frames: seq<Frame>, henv: Scopes, given: set<string>, x: string, v: Value, n: nat)
    requires Holds(env, frames, henv, given) && InBlock(frames) && x !in given
    ensures env != [] && henv != []
    ensures var g, t := Store(true, env, x, v), Store(true, henv, x, v);
            && g.Ok? && t.Ok? && |g.value| == |env| == |frames|
            && Holds(g.value, Current(frames, g.value), t.value, given) && Extends(henv, t.value, n, n, given)
            && g.value[|env| - 1].Keys == env[|env| - 1].Keys + ({x} - {BLANK})
  {
    HoldsTop(env, frames, henv, given);
    hide Holds;
    if x == BLANK {
      assert {x} - {BLANK} == {};
      assert Extends(henv, henv, n, n, given);
    } else {
      SameDeclare(env, frames, henv, given, x, v);
      ExtendsDeclare(henv, x, v, n, given);
      assert {x} - {BLANK} == {x};
    }
  }

  lemma {:induction false} ExtendsDeclare(henv: Scopes, x: string, v: Value, n: nat, given: set<string>)
    requires henv != [] && x !in given
    ensures Extends(henv, Declare(henv, x, v), n, n, given)
  {
  }

  lemma {:induction false} CurrentTwice(frames: seq<Frame>, env1: Scopes, env2: Scopes)
    requires |frames| == |env1| == |env2| && env1 != []
    ensures Current(Current(frames, env1), env2) == Current(frames, env2)
  {
  }

  lemma {:induction false} DeclareAll(env: Scopes, frames: seq<Frame>, henv: Scopes, given: set<string>, xs: seq<string>, vs: seq<Value>, n: nat)
    requires Holds(env, frames, henv, given) && InBlock(frames) && |xs| == |vs|
    requires (set x | x in xs) !! given
    ensures env != [] && henv != []
    ensures var g, t := StoreAll(true, env, xs, vs), StoreAll(true, henv, xs, vs);
            && g.Ok? && t.Ok? && |g.value| == |env| == |frames|
            && Holds(g.value, Current(frames, g.value), t.value, given) && Extends(henv, t.value, n, n, given)
            && g.value[|env| - 1].Keys == env[|env| - 1].Keys + ((set x | x in xs) - {BLANK})
    decreases |xs|
  {
    if xs == [] {
      assert Current(frames, env) == frames;
    } else {
      assert xs[0] in (set x | x in xs);
      assert (set x | x in xs) == {xs[0]} + (set x | x in xs[1..]);
      StoreFirst(env, xs, vs);
      StoreFirst(henv, xs, vs);
      hide Holds, Extends, Store, StoreAll, Current;
      DeclareOne(env, frames, henv, given, xs[0], vs[0], n);
      var env1, henv1 := Store(true, env, xs[0], vs[0]).value, Store(true, henv, xs[0], vs[0]).value;
      DeclareAll(env1, Current(frames, env1), henv1, given, xs[1..], vs[1..], n);
      CurrentTwice(frames, env1, StoreAll(true, env, xs, vs).value);
      ExtendsTwice(henv, henv1, StoreAll(true, henv, xs, vs).value, n, n, n, given);
      JoinKeys(env[|env| - 1].Keys, xs[0], set x | x in xs[1..]);
    }
  }

  lemma {:induction false} StoreFirst(env: Scopes, xs: seq<string>, vs: seq<Value>)
    requires env != [] && |xs| == |vs| && xs != []
    ensures var first := Store(true, env, xs[0], vs[0]);
            first.Ok? && StoreAll(true, env, xs, vs) == StoreAll(true, first.value, xs[1..], vs[1..])
  {
  }

  lemma {:induction false} JoinKeys(keys: set<string>, x: string, more: set<string>)
    ensures keys + ({x} - {BLANK}) + (more - {BLANK}) == keys + ({x} + more - {BLANK})
  {
  }

  lemma {:induction false} UpdateSameKeys(env: Scopes, x: string, v: Value)
    requires Update(env, x, v).Some?
    ensures SameKeys(env, Update(env, x, v).value)
  {
    var n := |env| - 1;
    if x !in env[n] { UpdateSameKeys(env[..n], x, v); }
  }

  lemma {:induction false} UpdateAll(env: Scopes, frames: seq<Frame>, henv: Scopes, given: set<string>, xs: seq<string>, vs: seq<Value>)
    requires Holds(env, frames, henv, given) && env != [] && henv != [] && BLANK !in given && |xs| == |vs|
    ensures var g, t := StoreAll(false, env, xs, vs), StoreAll(false, henv, RenameAll(frames, xs), vs);
            g.Stuck? || (g.Ok? && t.Ok? && Holds(g.value, frames, t.value, given) && SameKeys(henv, t.value) && SameKeys(env, g.value))
    decreases |xs|
  {
    if xs != [] && !StoreAll(false, env, xs, vs).Stuck? {
      assert RenameAll(frames, xs)[1..] == RenameAll(frames, xs[1..]);
      var env1, henv1 := env, henv;
      if xs[0] != BLANK {
        LookupUpdate(env, xs[0], vs[0]);
        RenameKind(env, frames, henv, given, xs[0]);
        SameUpdate(env, frames, henv, given, xs[0], vs[0]);
        env1, henv1 := Update(env, xs[0], vs[0]).value, Update(henv, Rename(frames, xs[0]), vs[0]).value;
        UpdateSameKeys(env, xs[0], vs[0]);
        UpdateSameKeys(henv, Rename(frames, xs[0]), vs[0]);
      }
      UpdateAll(env1, frames, henv1, given, xs[1..], vs[1..]);
    }
  }

  /** An assignment, in the form of a statement. */
  lemma {:induction false} SameAssign(p: Program, given: set<string>, fuel: nat, env: Scopes, frames: seq<Frame>, henv: Scopes,
                                      define: bool, a: Assign, n: nat)
    requires Ready(p, given) && Holds(env, frames, henv, given) && InBlock(frames) && BLANK !in given
    requires T.NewNames(define, T.Targets(a)) !! given
    ensures var s := AssignStmt(define, a);
            var g := Exec(p, fuel, env, s);
            && Outcome(env, frames, henv, n, n, given, g, Exec(HoistProgram(p), fuel, henv, AssignStmt(define, HoistAssign(frames, define, a))))
            && (g.Ok? ==> Current(frames, g.value.env) == Grow(frames, s))
    decreases fuel, a, 1
  {
    hide Supplied, Holds, Eval, EvalAll, Extends, Agree;
    NotEmpty(env, frames, henv, given);
    var xs := T.Targets(a);
    var ys := if define then xs else RenameAll(frames, xs);
    var a' := HoistAssign(frames, define, a);
    HoldsAgree(env, frames, henv, given);
    SameValues(p, given, fuel, env, frames, henv, a, ys);
    ExecAssignIs(p, fuel, env, define, a);
    ExecAssignIs(HoistProgram(p), fuel, henv, define, a');
    var vs := AssignValues(p, fuel, env, a);
    if vs.Ok? && |vs.value| == |xs| {
      if define {
        DeclareAll(env, frames, henv, given, xs, vs.value, n);
      } else {
        UpdateAll(env, frames, henv, given, xs, vs.value);
        GrowNothing(frames, AssignStmt(define, a));
        CurrentSame(frames, env, StoreAll(false, env, xs, vs.value));
        var t := StoreAll(false, henv, ys, vs.value);
        if t.Ok? && SameKeys(henv, t.value) { SameKeysExtends(henv, t.value, n, given); }
      }
    }
  }

  lemma {:induction false} SameKeysExtends(henv: Scopes, henv': Scopes, n: nat, given: set<string>)
    requires henv != [] && SameKeys(henv, henv')
    ensures Extends(henv, henv', n, n, given)
  {
  }

  lemma {:induction false} GrowNothing(frames: seq<Frame>, s: Stmt)
    requires InBlock(frames) && T.Declared(s) == {}
    ensures Grow(frames, s) == frames
  {
    var n := |frames| - 1;
    assert frames[n].names + ({} - {BLANK}) == frames[n].names;
    assert frames[..n] + [frames[n]] == frames;
  }

  lemma {:induction false} CurrentSame(frames: seq<Frame>, env: Scopes, r: Res<Scopes>)
    requires InBlock(frames) && |frames| == |env| && frames[|env| - 1].names == env[|env| - 1].Keys
    requires r.Ok? ==> SameKeys(env, r.value)
    ensures r.Ok? ==> Current(frames, r.value) == frames
  {
  }

  /// ## Initialisers

  lemma {:induction false} DistinctRest(xs: seq<string>)
    requires Distinct(xs) && xs != []
    ensures Distinct(xs[1..])
    ensures xs[0] != BLANK ==> xs[0] !in xs[1..]
  {
    forall i, j | 0 <= i < j < |xs[1..]| && xs[1..][i] != BLANK ensures xs[1..][i] != xs[1..][j] {
      assert xs[i + 1] != xs[j + 1];
    }
  }

  lemma {:induction false} RenamesStep(renames: map<string, string>, xs: seq<string>, n: nat)
    requires xs != [] && xs[0] != BLANK && xs[0] !in xs[1..]
    ensures renames[xs[0] := Gen(xs[0], n + 1)] + Renames(xs[1..], n + 1) == renames + Renames(xs, n)
  {
    RenamesKeys(xs[1..], n + 1);
  }

  /** Storing the values of an initialiser: in its own scope, and under new names in the block around it. */
  lemma {:induction false} StoreInits(env: Scopes, frames: seq<Frame>, henv: Scopes, given: set<string>,
                                      scope: Scope, renames: map<string, string>, xs: seq<string>, vs: seq<Value>, n: nat)
    requires Holds(env + [scope], frames + [IfFrame(renames)], henv, given) && henv != []
    requires |xs| == |vs| && Distinct(xs) && forall x :: x in xs && x != BLANK ==> x !in scope
    requires Avoid(henv, n, n + Named(xs), given)
    requires forall x, k: nat :: x in xs && n < k <= n + Named(xs) ==> Gen(x, k) in given
    ensures var g, t := StoreAll(true, env + [scope], xs, vs), StoreAll(true, henv, NewTargets(xs, n), vs);
            && g.Ok? && |g.value| == |env| + 1 && g.value[..|env|] == env && t.Ok?
            && Holds(g.value, frames + [IfFrame(renames + Renames(xs, n))], t.value, given)
            && Extends(henv, t.value, n, n + Named(xs), given)
    decreases |xs|
  {
    assert (env + [scope])[..|env|] == env;
    if xs == [] {
      assert renames + Renames(xs, n) == renames;
    } else {
      var x, v := xs[0], vs[0];
      DistinctRest(xs);
      if x == BLANK {
        assert NewTargets(xs, n)[1..] == NewTargets(xs[1..], n);
        StoreInits(env, frames, henv, given, scope, renames, xs[1..], vs[1..], n);
      } else {
        var y := Gen(x, n + 1);
        var henv1 := Declare(henv, y, v);
        StoreInit(env, frames, henv, given, scope, renames, x, v, n);
        AvoidRest(henv, henv1, n, n + 1, n + Named(xs), given);
        StoreInits(env, frames, henv1, given, scope[x := v], renames[x := y], xs[1..], vs[1..], n + 1);
        RenamesStep(renames, xs, n);
        StoreCons(env, scope, henv, x, y, v, xs, NewTargets(xs, n), vs);
        assert NewTargets(xs, n)[1..] == NewTargets(xs[1..], n + 1);
        ExtendsTwice(henv, henv1, StoreAll(true, henv, NewTargets(xs, n), vs).value, n, n + 1, n + Named(xs), given);
      }
    }
  }

  lemma {:induction false} StoreCons(env: Scopes, scope: Scope, henv: Scopes, x: string, y: string, v: Value, xs: seq<string>, ys: seq<string>, vs: seq<Value>)
    requires henv != [] && |xs| == |ys| == |vs| && xs != [] && xs[0] == x && ys[0] == y && vs[0] == v && x != BLANK && y != BLANK
    ensures StoreAll(true, env + [scope], xs, vs) == StoreAll(true, env + [scope[x := v]], xs[1..], vs[1..])
    ensures StoreAll(true, henv, ys, vs) == StoreAll(true, Declare(henv, y, v), ys[1..], vs[1..])
  {
    assert Declare(env + [scope], x, v) == env + [scope[x := v]];
  }

  lemma {:induction false} RenamesKeys(xs: seq<string>, n: nat)
    ensures forall x :: x in Renames(xs, n) ==> x in xs && x != BLANK
  {
    if xs != [] {
      RenamesKeys(xs[1..], n);
      RenamesKeys(xs[1..], n + 1);
    }
  }

  lemma {:induction false} StoreInit(env: Scopes, frames: seq<Frame>, henv: Scopes, given: set<string>,
                  scope: Scope, renames: map<string, string>, x: string, v: Value, n: nat)
    requires Holds(env + [scope], frames + [IfFrame(renames)], henv, given) && henv != []
    requires x !in scope && Gen(x, n + 1) in given && Avoid(henv, n, n + 1, given)
    ensures var henv1 := Declare(henv, Gen(x, n + 1), v);
            && Holds(env + [scope[x := v]], frames + [IfFrame(renames[x := Gen(x, n + 1)])], henv1, given)
            && Extends(henv, henv1, n, n + 1, given)
  {
    var y := Gen(x, n + 1);
    var henv1 := Declare(henv, y, v);
    var env0, frames0 := env + [scope], frames + [IfFrame(renames)];
    GenIndex(x, n + 1);
    InUseFresh(env0, frames0, henv, given);
    assert y !in InUse(frames0);
    SetFresh(env0, frames0, henv, given, y, v);
    assert env0[..|env|] == env && frames0[..|env|] == frames;
    assert Holds(env, frames, henv1, given);
    assert y !in renames.Values && y !in InUse(frames);
    PushInit(env, frames, henv1, given, scope[x := v], renames[x := y]);
  }

  /// ## Pending chains

  /** After the hoisted initialisers: the scopes of all clauses are in place, and the names that the bodies
      will give out are still unused. */
  ghost predicate Pending(env: Scopes, frames: seq<Frame>, henv: Scopes, c: Chain, fs: seq<Scope>, n: nat, given: set<string>)
    requires |fs| == Clauses(c)
    decreases c
  {
    match c
    case Else(body) => Holds(env, frames, henv, given) && Avoid(henv, n, n + CountAll(body), given)
    case Cond(init, _, body, rest) =>
      var env1, frames1, n1 := Enter(env, init, fs[0]), Enclose(frames, init, n), n + InitNamed(init);
      && Holds(env1, frames1, henv, given)
      && Avoid(henv, n1, n1 + CountAll(body), given)
      && Pending(env1, frames1, henv, rest, fs[1..], n1 + CountAll(body), given)
  }

  lemma {:induction false} PendingHolds(env: Scopes, frames: seq<Frame>, henv: Scopes, c: Chain, fs: seq<Scope>, n: nat, given: set<string>)
    requires |fs| == Clauses(c) && Pending(env, frames, henv, c, fs, n, given) && |env| == |frames|
    ensures Holds(env, frames, henv, given)
  {
    if c.Cond? && c.init.Some? {
      var env1, frames1 := Enter(env, c.init, fs[0]), Enclose(frames, c.init, n);
      PopInit(env1, frames1, henv, given);
      assert env1[..|env|] == env && frames1[..|env|] == frames;
    }
  }

  /** The outcome of one hoisted initialiser. */
  ghost predicate InitOutcome(env: Scopes, frames: seq<Frame>, henv: Scopes, init: Option<Assign>, n: nat, given: set<string>,
                              g: Res<Scopes>, t: Res<Flow>) {
    match g
    case Ok(env1) =>
      && t.Ok? && t.value.sig == Next
      && |env1| == |env| + (if init.None? then 0 else 1) && env1[..|env|] == env
      && Holds(env1, Enclose(frames, init, n), t.value.env, given)
      && Extends(henv, t.value.env, n, n + InitNamed(init), given)
    case Stuck => true
    case Panic => t.Panic?
    case Timeout => t.Timeout?
  }

  lemma {:induction false} SameInit(p: Program, given: set<string>, fuel: nat, env: Scopes, frames: seq<Frame>, henv: Scopes,
                                    init: Option<Assign>, n: nat)
    requires Ready(p, given) && Holds(env, frames, henv, given) && henv != []
    requires init.Some? ==> Distinct(T.Targets(init.value))
    requires init.Some? ==> forall x, k: nat :: x in T.Targets(init.value) && n < k <= n + InitNamed(init) ==> Gen(x, k) in given
    requires Avoid(henv, n, n + InitNamed(init), given)
    ensures InitOutcome(env, frames, henv, init, n, given, ExecInit(p, fuel, env, init),
                        ExecAll(HoistProgram(p), fuel, henv, HoistInit(frames, init, n)))
    decreases fuel, init, 1
  {
    hide Supplied;
    if init.None? {
      assert ExecAll(HoistProgram(p), fuel, henv, []) == Ok(Flow(Next, henv));
      assert env[..|env|] == env;
    } else {
      hide Holds, Avoid, Extends, Eval, EvalAll, EvalRhs, ExecAll, Exec, HoistInit, StoreAll, AssignValues, HoistProgram;
      var a := init.value;
      var xs := T.Targets(a);
      var ys := NewTargets(xs, n);
      AgreeInside(env, frames, henv, given);
      SameValues(p, given, fuel, env + [map[]], frames, henv, a, ys);
      ExecAssignIs(p, fuel, env + [map[]], true, a);
      ExecAssignIs(HoistProgram(p), fuel, henv, true, Retarget(frames, a, ys));
      InitRuns(HoistProgram(p), fuel, frames, henv, a, n);
      var vs := AssignValues(p, fuel, env + [map[]], a);
      if vs.Ok? && |vs.value| == |xs| {
        PushInit(env, frames, henv, given, map[], map[]);
        StoreInits(env, frames, henv, given, map[], map[], xs, vs.value, n);
        assert map[] + Renames(xs, n) == Renames(xs, n);
      }
    }
  }

  lemma {:induction false} InitRuns(p: Program, fuel: nat, frames: seq<Frame>, henv: Scopes, a: Assign, n: nat)
    requires henv != []
    ensures var r := ExecAssign(p, fuel, henv, true, Retarget(frames, a, NewTargets(T.Targets(a), n)));
            var t := ExecAll(p, fuel, henv, HoistInit(frames, Some(a), n));
            if r.Ok? then t == Ok(Flow(Next, r.value)) else !t.Ok? && t.Stuck? == r.Stuck? && t.Panic? == r.Panic?
  {
    GoSingle(p, fuel, henv, AssignStmt(true, Retarget(frames, a, NewTargets(T.Targets(a), n))));
  }

  lemma {:induction false} AgreeInside(env: Scopes, frames: seq<Frame>, henv: Scopes, given: set<string>)
    requires Holds(env, frames, henv, given)
    ensures Agree(env + [map[]], frames, henv)
  {
    HoldsAgree(env, frames, henv, given);
    assert (env + [map[]])[..|env|] == env;
  }

  lemma {:induction false} GoSingle(p: Program, fuel: nat, env: Scopes, s: Stmt)
    requires env != []
    ensures ExecAll(p, fuel, env, [s]) == Exec(p, fuel, env, s)
  {
    assert [s][1..] == [];
    var r := Exec(p, fuel, env, s);
    if r.Ok? && r.value.sig.Next? { assert ExecAll(p, fuel, r.value.env, []) == Ok(Flow(Next, r.value.env)); }
  }

  lemma {:induction false} GoAppend(p: Program, fuel: nat, env: Scopes, a: seq<Stmt>, b: seq<Stmt>)
    requires env != []
    ensures var first := ExecAll(p, fuel, env, a);
            ExecAll(p, fuel, env, a + b)
            == if first.Ok? && first.value.sig.Next? then ExecAll(p, fuel, first.value.env, b) else first
    decreases |a|
  {
    if a == [] {
      assert a + b == b;
    } else {
      assert (a + b)[1..] == a[1..] + b;
      var first := Exec(p, fuel, env, a[0]);
      if first.Ok? && first.value.sig.Next? {
        GoAppend(p, fuel, first.value.env, a[1..], b);
      }
    }
  }

  lemma {:induction false} ClearPart(bs: set<string>, vs: set<string>, lo: nat, hi: nat, bs': set<string>, vs': set<string>, lo': nat, hi': nat, given: set<string>)
    requires Clear(bs, vs, lo, hi, given) && bs' <= bs && vs' <= vs && lo <= lo' && hi' <= hi
    ensures Clear(bs', vs', lo', hi', given)
  {
  }

  lemma {:induction false} AvoidPart(henv: Scopes, lo: nat, hi: nat, lo': nat, hi': nat, given: set<string>)
    requires Avoid(henv, lo, hi, given) && lo <= lo' && hi' <= hi
    ensures Avoid(henv, lo', hi', given)
  {
  }

  /** Later initialisers use up later numbers only. */
  lemma {:induction false} AvoidBefore(henv: Scopes, henv': Scopes, lo: nat, mid: nat, hi: nat, given: set<string>)
    requires Avoid(henv, lo, mid, given) && Extends(henv, henv', mid, hi, given)
    ensures Avoid(henv', lo, mid, given)
  {
    forall i, y | 0 <= i < |henv'| && y in henv'[i] && y in given ensures !(lo < NumberOf(y) <= mid) {
      if i < |henv| - 1 { assert y in henv[i]; }
    }
  }

  /** The outcome of evaluating the initialisers of a chain. */
  ghost predicate InitsOutcome(env: Scopes, frames: seq<Frame>, henv: Scopes, c: Chain, n: nat, given: set<string>,
                               g: Res<seq<Scope>>, t: Res<Flow>) {
    match g
    case Ok(fs) =>
      && t.Ok? && t.value.sig == Next && |fs| == Clauses(c)
      && Pending(env, frames, t.value.env, c, fs, n, given)
      && Extends(henv, t.value.env, n, n + CountChain(c), given)
    case Stuck => true
    case Panic => t.Panic?
    case Timeout => t.Timeout?
  }

  lemma {:induction false} SameInits(p: Program, given: set<string>, fuel: nat, env: Scopes, frames: seq<Frame>, henv: Scopes, c: Chain, n: nat)
    requires Ready(p, given) && Holds(env, frames, henv, given) && henv != [] && GoodChainInits(c)
    requires Clear(ChainBlockVars(c), ChainInitVars(c), n, n + CountChain(c), given)
    requires Avoid(henv, n, n + CountChain(c), given)
    ensures InitsOutcome(env, frames, henv, c, n, given, InitFrames(p, fuel, env, c),
                         ExecAll(HoistProgram(p), fuel, henv, HoistInits(frames, c, n)))
    decreases fuel, c, 2
  {
    hide Supplied, Holds, Avoid, Extends, Pending, Clear, ExecAll, InitFrames, HoistInit, HoistInits, InitsOutcome, CountAll;
    NotEmpty(env, frames, henv, given);
    if c.Else? {
      ElseInits(p, given, fuel, env, frames, henv, c, n);
    } else {
      FirstInitReady(henv, c, n, given);
      SameInit(p, given, fuel, env, frames, henv, c.init, n);
      var g := ExecInit(p, fuel, env, c.init);
      if g.Ok? {
        var henv1 := ExecAll(HoistProgram(p), fuel, henv, HoistInit(frames, c.init, n)).value.env;
        RestReady(henv, henv1, c, n, given);
        SameInits(p, given, fuel, g.value, Enclose(frames, c.init, n), henv1, c.rest, n + InitNamed(c.init) + CountAll(c.body));
        InitsStep(p, given, fuel, env, frames, henv, c, n, g.value, henv1);
      } else {
        InitsEnd(p, given, fuel, env, frames, henv, c, n);
      }
    }
  }

  lemma {:induction false} ElseInits(p: Program, given: set<string>, fuel: nat, env: Scopes, frames: seq<Frame>, henv: Scopes, c: Chain, n: nat)
    requires c.Else? && Holds(env, frames, henv, given) && henv != [] && Avoid(henv, n, n + CountChain(c), given)
    ensures InitsOutcome(env, frames, henv, c, n, given, InitFrames(p, fuel, env, c),
                         ExecAll(HoistProgram(p), fuel, henv, HoistInits(frames, c, n)))
  {
    assert ExecAll(HoistProgram(p), fuel, henv, []) == Ok(Flow(Next, henv));
  }

  lemma {:induction false} FirstInitReady(henv: Scopes, c: Chain, n: nat, given: set<string>)
    requires c.Cond? && GoodChainInits(c) && Clear(ChainBlockVars(c), ChainInitVars(c), n, n + CountChain(c), given)
    requires Avoid(henv, n, n + CountChain(c), given)
    ensures c.init.Some? ==> Distinct(T.Targets(c.init.value))
    ensures c.init.Some? ==>
              forall x, k: nat :: x in T.Targets(c.init.value) && n < k <= n + InitNamed(c.init) ==> Gen(x, k) in given
    ensures Avoid(henv, n, n + InitNamed(c.init), given)
  {
    if c.init.Some? {
      forall x | x in T.Targets(c.init.value) ensures x in ChainInitVars(c) {
      }
    }
  }

  /** The first initialiser, then those of the rest of the chain. */
  lemma {:induction false} InitsStep(p: Program, given: set<string>, fuel: nat, env: Scopes, frames: seq<Frame>, henv: Scopes, c: Chain, n: nat,
                  env1: Scopes, henv1: Scopes)
    requires c.Cond? && henv != [] && henv1 != [] && |env| == |frames| && Avoid(henv, n, n + CountChain(c), given)
    requires ExecInit(p, fuel, env, c.init) == Ok(env1)
    requires ExecAll(HoistProgram(p), fuel, henv, HoistInit(frames, c.init, n)) == Ok(Flow(Next, henv1))
    requires InitOutcome(env, frames, henv, c.init, n, given, Ok(env1), Ok(Flow(Next, henv1)))
    requires var n2, frames1 := n + InitNamed(c.init) + CountAll(c.body), Enclose(frames, c.init, n);
             InitsOutcome(env1, frames1, henv1, c.rest, n2, given, InitFrames(p, fuel, env1, c.rest),
                          ExecAll(HoistProgram(p), fuel, henv1, HoistInits(frames1, c.rest, n2)))
    ensures InitsOutcome(env, frames, henv, c, n, given, InitFrames(p, fuel, env, c),
                         ExecAll(HoistProgram(p), fuel, henv, HoistInits(frames, c, n)))
  {
    InitFramesIs(p, fuel, env, c, env1);
    RestOfInits(HoistProgram(p), fuel, frames, henv, c, n, henv1);
    hide *;
    ComposeInits(env, frames, henv, c, n, given, env1, henv1, InitFrames(p, fuel, env1, c.rest),
                 ExecAll(HoistProgram(p), fuel, henv, HoistInits(frames, c, n)), InitFrames(p, fuel, env, c));
  }

  lemma {:induction false} RestOfInits(p: Program, fuel: nat, frames: seq<Frame>, henv: Scopes, c: Chain, n: nat, henv1: Scopes)
    requires c.Cond? && henv != [] && henv1 != []
    requires ExecAll(p, fuel, henv, HoistInit(frames, c.init, n)) == Ok(Flow(Next, henv1))
    ensures ExecAll(p, fuel, henv, HoistInits(frames, c, n))
            == ExecAll(p, fuel, henv1, HoistInits(Enclose(frames, c.init, n), c.rest, n + InitNamed(c.init) + CountAll(c.body)))
  {
    HoistInitsIs(frames, c, n);
    hide *;
    var n2 := n + InitNamed(c.init) + CountAll(c.body);
    GoAppend(p, fuel, henv, HoistInit(frames, c.init, n), HoistInits(Enclose(frames, c.init, n), c.rest, n2));
  }

  /** The first initialiser does not end well. */
  lemma {:induction false} InitsEnd(p: Program, given: set<string>, fuel: nat, env: Scopes, frames: seq<Frame>, henv: Scopes, c: Chain, n: nat)
    requires c.Cond? && henv != [] && |env| == |frames|
    requires !ExecInit(p, fuel, env, c.init).Ok?
    requires InitOutcome(env, frames, henv, c.init, n, given, ExecInit(p, fuel, env, c.init),
                         ExecAll(HoistProgram(p), fuel, henv, HoistInit(frames, c.init, n)))
    ensures InitsOutcome(env, frames, henv, c, n, given, InitFrames(p, fuel, env, c),
                         ExecAll(HoistProgram(p), fuel, henv, HoistInits(frames, c, n)))
  {
    HoistInitsIs(frames, c, n);
    InitFramesFail(p, fuel, env, c);
    hide *;
    var first, more := HoistInit(frames, c.init, n), HoistInits(Enclose(frames, c.init, n), c.rest, n + InitNamed(c.init) + CountAll(c.body));
    GoAppend(HoistProgram(p), fuel, henv, first, more);
    FailInits(env, frames, henv, c, n, given, ExecInit(p, fuel, env, c.init), ExecAll(HoistProgram(p), fuel, henv, first),
              InitFrames(p, fuel, env, c), ExecAll(HoistProgram(p), fuel, henv, first + more));
  }

  lemma {:induction false} FailInits(env: Scopes, frames: seq<Frame>, henv: Scopes, c: Chain, n: nat, given: set<string>,
                  g: Res<Scopes>, first: Res<Flow>, all: Res<seq<Scope>>, t: Res<Flow>)
    requires c.Cond? && !g.Ok? && InitOutcome(env, frames, henv, c.init, n, given, g, first)
    requires !first.Ok? ==> t == first
    requires !all.Ok? && all.Stuck? == g.Stuck? && all.Panic? == g.Panic?
    ensures InitsOutcome(env, frames, henv, c, n, given, all, t)
  {
  }

  lemma {:induction false} ComposeInits(env: Scopes, frames: seq<Frame>, henv: Scopes, c: Chain, n: nat, given: set<string>,
                     env1: Scopes, henv1: Scopes, rest: Res<seq<Scope>>, t: Res<Flow>, all: Res<seq<Scope>>)
    requires c.Cond? && henv != [] && henv1 != [] && |env| == |frames| && Avoid(henv, n, n + CountChain(c), given)
    requires InitOutcome(env, frames, henv, c.init, n, given, Ok(env1), Ok(Flow(Next, henv1)))
    requires |env1| == |env| + if c.init.None? then 0 else 1
    requires InitsOutcome(env1, Enclose(frames, c.init, n), henv1, c.rest, n + InitNamed(c.init) + CountAll(c.body), given, rest, t)
    requires if rest.Ok? then all == Ok([if c.init.None? then map[] else env1[|env|]] + rest.value)
             else !all.Ok? && all.Stuck? == rest.Stuck? && all.Panic? == rest.Panic?
    ensures InitsOutcome(env, frames, henv, c, n, given, all, t)
  {
    hide Holds, Avoid, Extends, Pending;
    AvoidRest(henv, henv1, n, n + InitNamed(c.init), n + CountChain(c), given);
    FinishInits(env, frames, henv, henv1, c, n, given, env1, rest, t, all);
  }

  /** After the first initialiser, the rest of the chain finds what it needs. */
  lemma {:induction false} RestReady(henv: Scopes, henv1: Scopes, c: Chain, n: nat, given: set<string>)
    requires c.Cond? && Clear(ChainBlockVars(c), ChainInitVars(c), n, n + CountChain(c), given)
    requires Avoid(henv, n, n + CountChain(c), given) && Extends(henv, henv1, n, n + InitNamed(c.init), given)
    ensures var n1, n2 := n + InitNamed(c.init), n + InitNamed(c.init) + CountAll(c.body);
            && Clear(ChainBlockVars(c.rest), ChainInitVars(c.rest), n2, n2 + CountChain(c.rest), given)
            && Avoid(henv1, n1, n + CountChain(c), given)
            && Avoid(henv1, n2, n2 + CountChain(c.rest), given)
  {
    var n1, n2, n3 := n + InitNamed(c.init), n + InitNamed(c.init) + CountAll(c.body), n + CountChain(c);
    ClearPart(ChainBlockVars(c), ChainInitVars(c), n, n3, ChainBlockVars(c.rest), ChainInitVars(c.rest), n2, n3, given);
    AvoidRest(henv, henv1, n, n1, n3, given);
    AvoidPart(henv1, n1, n3, n2, n3, given);
  }

  lemma {:induction false} InitFramesIs(p: Program, fuel: nat, env: Scopes, c: Chain, env1: Scopes)
    requires c.Cond? && ExecInit(p, fuel, env, c.init) == Ok(env1)
    ensures |env1| == |env| + (if c.init.None? then 0 else 1)
    ensures var g, all := InitFrames(p, fuel, env1, c.rest), InitFrames(p, fuel, env, c);
            if g.Ok? then all == Ok([if c.init.None? then map[] else env1[|env|]] + g.value)
            else !all.Ok? && all.Stuck? == g.Stuck? && all.Panic? == g.Panic?
  {
  }

  lemma {:induction false} InitFramesFail(p: Program, fuel: nat, env: Scopes, c: Chain)
    requires c.Cond?
    ensures var g, all := ExecInit(p, fuel, env, c.init), InitFrames(p, fuel, env, c);
            match g
            case Ok(_) => true
            case Stuck => all.Stuck?
            case Panic => all.Panic?
            case Timeout => all.Timeout?
  {
  }

  lemma {:induction false} HoistInitsIs(frames: seq<Frame>, c: Chain, n: nat)
    requires c.Cond?
    ensures HoistInits(frames, c, n) ==
            HoistInit(frames, c.init, n) + HoistInits(Enclose(frames, c.init, n), c.rest, n + InitNamed(c.init) + CountAll(c.body))
  {
  }

  lemma {:induction false} FinishInits(env: Scopes, frames: seq<Frame>, henv: Scopes, henv1: Scopes, c: Chain, n: nat, given: set<string>,
                    env1: Scopes, g: Res<seq<Scope>>, t: Res<Flow>, all: Res<seq<Scope>>)
    requires c.Cond?
    requires var n1 := n + InitNamed(c.init);
             var n2 := n1 + CountAll(c.body);
             && Avoid(henv1, n1, n + CountChain(c), given) && Extends(henv, henv1, n, n1, given)
             && InitsOutcome(env1, Enclose(frames, c.init, n), henv1, c.rest, n2, given, g, t)
    requires |env1| == |Enclose(frames, c.init, n)|
    requires |env1| == |env| + (if c.init.None? then 0 else 1) && env1[..|env|] == env
    requires if g.Ok? then all == Ok([if c.init.None? then map[] else env1[|env|]] + g.value)
             else !all.Ok? && all.Stuck? == g.Stuck? && all.Panic? == g.Panic?
    ensures InitsOutcome(env, frames, henv, c, n, given, all, t)
  {
    hide Avoid, Extends, Holds, InitNamed, CountAll;
    if g.Ok? {
      var n1 := n + InitNamed(c.init);
      var n2 := n1 + CountAll(c.body);
      var fs, henv' := all.value, t.value.env;
      assert fs[1..] == g.value;
      assert Enter(env, c.init, fs[0]) == env1 by { if c.init.None? { assert env1[..|env|] == env1; } }
      PendingHolds(env1, Enclose(frames, c.init, n), henv', c.rest, g.value, n2, given);
      AvoidPart(henv1, n1, n + CountChain(c), n1, n2, given);
      AvoidBefore(henv1, henv', n1, n2, n + CountChain(c), given);
      ExtendsWider(henv1, henv', n2, n + CountChain(c), n1, given);
      ExtendsTwice(henv, henv1, henv', n, n1, n + CountChain(c), given);
    }
  }

  lemma {:induction false} ExtendsWider(a: Scopes, b: Scopes, lo: nat, hi: nat, lo': nat, given: set<string>)
    requires Extends(a, b, lo, hi, given) && lo' <= lo
    ensures Extends(a, b, lo', hi, given)
  {
  }

  /// ## Statements

  lemma {:induction false} SameStmt(p: Program, given: set<string>, fuel: nat, env: Scopes, frames: seq<Frame>, henv: Scopes, s: Stmt, n: nat)
    requires Ready(p, given) && Holds(env, frames, henv, given) && InBlock(frames) && GoodInits(s)
    requires Clear(BlockVars(s), InitVars(s), n, n + Count(s), given) && Avoid(henv, n, n + Count(s), given)
    ensures Outcome(env, frames, henv, n, n + Count(s), given, Exec(p, fuel, env, s),
                    ExecAll(HoistProgram(p), fuel, henv, HoistStmt(frames, s, n)))
    ensures var g := Exec(p, fuel, env, s);
            g.Ok? && g.value.sig.Next? ==> Current(frames, g.value.env) == Grow(frames, s)
    decreases fuel, s, 0
  {
    hide Supplied;
    HoldsAgree(env, frames, henv, given);
    match s
    case AssignStmt(define, a) =>
      SameAssign(p, given, fuel, env, frames, henv, define, a, n);
      GoSingle(HoistProgram(p), fuel, henv, AssignStmt(define, HoistAssign(frames, define, a)));
    case ExprStmt(e) =>
      SameExprStmt(p, given, fuel, env, frames, henv, e);
      SameSimple(p, given, fuel, env, frames, henv, s, n);
    case Break => SameSimple(p, given, fuel, env, frames, henv, s, n);
    case Continue => SameSimple(p, given, fuel, env, frames, henv, s, n);
    case Return(es) =>
      SameReturn(p, given, fuel, env, frames, henv, es);
      SameSimple(p, given, fuel, env, frames, henv, s, n);
    case If(chain) => SameIf(p, given, fuel, env, frames, henv, chain, n);
    case Range(_, _, _, _) =>
      SameRange(p, given, fuel, env, frames, henv, s, n);
      ClosedOutcome(p, given, fuel, env, frames, henv, s, n, HoistStmt(frames, s, n)[0]);
    case Block(body) =>
      SameScoped(p, given, fuel, env, frames, henv, body, n);
      ClosedOutcome(p, given, fuel, env, frames, henv, s, n, HoistStmt(frames, s, n)[0]);
  }

  /** Statements that leave all variables alone. */
  ghost predicate Idle(env: Scopes, henv: Scopes, g: Res<Flow>, t: Res<Flow>) {
    match g
    case Ok(flow) => flow.env == env && t == Ok(Flow(flow.sig, henv))
    case Stuck => true
    case _ => t == g
  }

  lemma {:induction false} SameSimple(p: Program, given: set<string>, fuel: nat, env: Scopes, frames: seq<Frame>, henv: Scopes, s: Stmt, n: nat)
    requires Holds(env, frames, henv, given) && InBlock(frames)
    requires s.ExprStmt? || s.Break? || s.Continue? || s.Return?
    requires s.Break? || s.Continue? || Idle(env, henv, Exec(p, fuel, env, s), Exec(HoistProgram(p), fuel, henv, HoistStmt(frames, s, n)[0]))
    ensures Outcome(env, frames, henv, n, n + Count(s), given, Exec(p, fuel, env, s),
                    ExecAll(HoistProgram(p), fuel, henv, HoistStmt(frames, s, n)))
    ensures Current(frames, env) == frames && Grow(frames, s) == frames
    ensures var g := Exec(p, fuel, env, s); g.Ok? ==> g.value.env == env
  {
    GoSingle(HoistProgram(p), fuel, henv, HoistStmt(frames, s, n)[0]);
    GrowNothing(frames, s);
    assert Current(frames, env) == frames;
  }

  lemma {:induction false} SameExprStmt(p: Program, given: set<string>, fuel: nat, env: Scopes, frames: seq<Frame>, henv: Scopes, e: Expr)
    requires Ready(p, given) && Agree(env, frames, henv) && env != [] && henv != []
    ensures Idle(env, henv, Exec(p, fuel, env, ExprStmt(e)), Exec(HoistProgram(p), fuel, henv, ExprStmt(HoistExpr(frames, e))))
    decreases fuel, e, 1
  {
    hide Supplied;
    if e.Call? {
      SameCall(p, given, fuel, env, frames, henv, e.call);
    } else {
      SameExpr(p, given, fuel, env, frames, henv, e);
    }
  }

  lemma {:induction false} SameReturn(p: Program, given: set<string>, fuel: nat, env: Scopes, frames: seq<Frame>, henv: Scopes, es: seq<Expr>)
    requires Ready(p, given) && Agree(env, frames, henv) && env != [] && henv != []
    ensures Idle(env, henv, Exec(p, fuel, env, Return(es)), Exec(HoistProgram(p), fuel, henv, Return(HoistExprs(frames, es))))
    decreases fuel, es, 1
  {
    hide Supplied;
    if |es| == 1 && es[0].Call? {
      assert es[0] in es;
      SameReturnedCall(p, given, fuel, env, frames, henv, es[0]);
    } else {
      SameExprs(p, given, fuel, env, frames, henv, es);
    }
  }

  lemma {:induction false} SameReturnedCall(p: Program, given: set<string>, fuel: nat, env: Scopes, frames: seq<Frame>, henv: Scopes, e: Expr)
    requires Ready(p, given) && Agree(env, frames, henv) && e.Call?
    ensures Same(EvalCall(p, fuel, env, e.call), EvalCall(HoistProgram(p), fuel, henv, HoistCall(frames, e.call)))
    decreases fuel, e, 1
  {
    hide Supplied;
    SameCall(p, given, fuel, env, frames, henv, e.call);
  }

  lemma {:induction false} ClosedOutcome(p: Program, given: set<string>, fuel: nat, env: Scopes, frames: seq<Frame>, henv: Scopes, s: Stmt, n: nat, s': Stmt)
    requires Holds(env, frames, henv, given) && InBlock(frames) && (s.Range? || s.Block?)
    requires HoistStmt(frames, s, n) == [s']
    requires Closed(frames, henv, given, Exec(p, fuel, env, s), Exec(HoistProgram(p), fuel, henv, s'))
    ensures Outcome(env, frames, henv, n, n + Count(s), given, Exec(p, fuel, env, s),
                    ExecAll(HoistProgram(p), fuel, henv, HoistStmt(frames, s, n)))
    ensures var g := Exec(p, fuel, env, s); g.Ok? ==> Current(frames, g.value.env) == frames == Grow(frames, s)
  {
    GoSingle(HoistProgram(p), fuel, henv, s');
    GrowNothing(frames, s);
    var g := Exec(p, fuel, env, s);
    if g.Ok? {
      assert Current(frames, g.value.env) == frames;
    }
  }

  lemma {:induction false} SameStmts(p: Program, given: set<string>, fuel: nat, env: Scopes, frames: seq<Frame>, henv: Scopes, ss: seq<Stmt>, n: nat)
    requires Ready(p, given) && Holds(env, frames, henv, given) && InBlock(frames) && AllGoodInits(ss)
    requires Clear(AllBlockVars(ss), AllInitVars(ss), n, n + CountAll(ss), given) && Avoid(henv, n, n + CountAll(ss), given)
    ensures Outcome(env, frames, henv, n, n + CountAll(ss), given, ExecAll(p, fuel, env, ss),
                    ExecAll(HoistProgram(p), fuel, henv, HoistStmts(frames, ss, n)))
    decreases fuel, ss, 0
  {
    hide Supplied, Avoid, Extends, Clear, Exec, HoistStmt;
    NotEmpty(env, frames, henv, given);
    if ss == [] {
      NoStmts(env, frames, henv, n, given);
    } else {
      hide Holds;
      FirstReady(henv, ss, n, given);
      SameStmt(p, given, fuel, env, frames, henv, ss[0], n);
      var g, t := Exec(p, fuel, env, ss[0]), ExecAll(HoistProgram(p), fuel, henv, HoistStmt(frames, ss[0], n));
      if g.Ok? && g.value.sig.Next? {
        SecondReady(henv, t.value.env, ss, n, given);
        SameStmts(p, given, fuel, g.value.env, Grow(frames, ss[0]), t.value.env, ss[1..], n + Count(ss[0]));
      }
      StmtsStep(p, given, fuel, env, frames, henv, ss, n);
    }
  }

  lemma {:induction false} NotEmpty(env: Scopes, frames: seq<Frame>, henv: Scopes, given: set<string>)
    requires Holds(env, frames, henv, given)
    ensures |env| == |frames| && (env != [] ==> henv != [])
    ensures InBlock(frames) ==> frames[|frames| - 1].names == env[|frames| - 1].Keys
  {
  }

  lemma {:induction false} NoStmts(env: Scopes, frames: seq<Frame>, henv: Scopes, n: nat, given: set<string>)
    requires Holds(env, frames, henv, given) && InBlock(frames) && henv != []
    ensures Outcome(env, frames, henv, n, n, given, Ok(Flow(Next, env)), Ok(Flow(Next, henv)))
  {
    assert Current(frames, env) == frames;
  }

  /** The first statement, then the others. */
  lemma {:induction false} StmtsStep(p: Program, given: set<string>, fuel: nat, env: Scopes, frames: seq<Frame>, henv: Scopes, ss: seq<Stmt>, n: nat)
    requires ss != [] && InBlock(frames) && env != [] && henv != [] && |env| == |frames|
    requires Outcome(env, frames, henv, n, n + Count(ss[0]), given, Exec(p, fuel, env, ss[0]),
                     ExecAll(HoistProgram(p), fuel, henv, HoistStmt(frames, ss[0], n)))
    requires var g, t := Exec(p, fuel, env, ss[0]), ExecAll(HoistProgram(p), fuel, henv, HoistStmt(frames, ss[0], n));
             var n1 := n + Count(ss[0]);
             g.Ok? && g.value.sig.Next? ==>
               t.value.env != [] && Outcome(g.value.env, Grow(frames, ss[0]), t.value.env, n1, n1 + CountAll(ss[1..]), given,
                                            ExecAll(p, fuel, g.value.env, ss[1..]),
                                            ExecAll(HoistProgram(p), fuel, t.value.env, HoistStmts(Grow(frames, ss[0]), ss[1..], n1)))
    ensures Outcome(env, frames, henv, n, n + CountAll(ss), given, ExecAll(p, fuel, env, ss),
                    ExecAll(HoistProgram(p), fuel, henv, HoistStmts(frames, ss, n)))
  {
    hide Holds, Extends, Exec, HoistStmt;
    var n1 := n + Count(ss[0]);
    var first, rest := HoistStmt(frames, ss[0], n), HoistStmts(Grow(frames, ss[0]), ss[1..], n1);
    GoAppend(HoistProgram(p), fuel, henv, first, rest);
    var g, t := Exec(p, fuel, env, ss[0]), ExecAll(HoistProgram(p), fuel, henv, first);
    if g.Ok? && g.value.sig.Next? {
      Sequenced(env, frames, henv, n, n1, n + CountAll(ss), given, g.value, t.value,
                ExecAll(p, fuel, g.value.env, ss[1..]), ExecAll(HoistProgram(p), fuel, t.value.env, rest), Grow(frames, ss[0]));
    } else {
      OutcomeWider(env, frames, henv, n, n1, n + CountAll(ss), given, g, t);
    }
  }

  lemma {:induction false} FirstReady(henv: Scopes, ss: seq<Stmt>, n: nat, given: set<string>)
    requires ss != [] && Clear(AllBlockVars(ss), AllInitVars(ss), n, n + CountAll(ss), given) && Avoid(henv, n, n + CountAll(ss), given)
    ensures Clear(BlockVars(ss[0]), InitVars(ss[0]), n, n + Count(ss[0]), given) && Avoid(henv, n, n + Count(ss[0]), given)
  {
    ClearPart(AllBlockVars(ss), AllInitVars(ss), n, n + CountAll(ss), BlockVars(ss[0]), InitVars(ss[0]), n, n + Count(ss[0]), given);
    AvoidPart(henv, n, n + CountAll(ss), n, n + Count(ss[0]), given);
  }

  lemma {:induction false} SecondReady(henv: Scopes, henv1: Scopes, ss: seq<Stmt>, n: nat, given: set<string>)
    requires ss != [] && Clear(AllBlockVars(ss), AllInitVars(ss), n, n + CountAll(ss), given) && Avoid(henv, n, n + CountAll(ss), given)
    requires Extends(henv, henv1, n, n + Count(ss[0]), given)
    ensures var n1 := n + Count(ss[0]);
            && Clear(AllBlockVars(ss[1..]), AllInitVars(ss[1..]), n1, n1 + CountAll(ss[1..]), given)
            && Avoid(henv1, n1, n1 + CountAll(ss[1..]), given) && n1 + CountAll(ss[1..]) == n + CountAll(ss)
  {
    var n1, n2 := n + Count(ss[0]), n + CountAll(ss);
    ClearPart(AllBlockVars(ss), AllInitVars(ss), n, n2, AllBlockVars(ss[1..]), AllInitVars(ss[1..]), n1, n2, given);
    AvoidRest(henv, henv1, n, n1, n2, given);
  }

  lemma {:induction false} OutcomeWider(env: Scopes, frames: seq<Frame>, henv: Scopes, lo: nat, mid: nat, hi: nat, given: set<string>, g: Res<Flow>, t: Res<Flow>)
    requires Outcome(env, frames, henv, lo, mid, given, g, t) && mid <= hi
    ensures Outcome(env, frames, henv, lo, hi, given, g, t)
  {
  }

  lemma {:induction false} Sequenced(env: Scopes, frames: seq<Frame>, henv: Scopes, n: nat, n1: nat, n2: nat, given: set<string>,
                  g1: Flow, t1: Flow, g: Res<Flow>, t: Res<Flow>, frames1: seq<Frame>)
    requires InBlock(frames) && |frames| == |env| && n <= n1 <= n2 && |g1.env| == |env|
    requires |frames1| == |frames| && frames1[..|frames| - 1] == frames[..|frames| - 1]
    requires Extends(henv, t1.env, n, n1, given)
    requires Outcome(g1.env, frames1, t1.env, n1, n2, given, g, t)
    ensures Outcome(env, frames, henv, n, n2, given, g, t)
  {
    if g.Ok? {
      assert Current(frames1, g.value.env) == Current(frames, g.value.env);
      ExtendsTwice(henv, t1.env, t.value.env, n, n1, n2, given);
    }
  }

  /** A block of its own. */
  lemma {:induction false} SameScoped(p: Program, given: set<string>, fuel: nat, env: Scopes, frames: seq<Frame>, henv: Scopes, ss: seq<Stmt>, n: nat)
    requires Ready(p, given) && Holds(env, frames, henv, given) && AllGoodInits(ss)
    requires Clear(AllBlockVars(ss), AllInitVars(ss), n, n + CountAll(ss), given) && Avoid(henv, n, n + CountAll(ss), given)
    ensures Closed(frames, henv, given, ExecScoped(p, fuel, env, ss),
                   ExecScoped(HoistProgram(p), fuel, henv, HoistStmts(frames + [BlockFrame({})], ss, n)))
    decreases fuel, ss, 1
  {
    hide Supplied;
    PushBlock(env, frames, henv, given);
    var env1, frames1, henv1 := env + [map[]], frames + [BlockFrame({})], henv + [map[]];
    AvoidPush(henv, n, n + CountAll(ss), given);
    SameStmts(p, given, fuel, env1, frames1, henv1, ss, n);
    var g := ExecAll(p, fuel, env1, ss);
    var t := ExecAll(HoistProgram(p), fuel, henv1, HoistStmts(frames1, ss, n));
    if g.Ok? {
      CloseBlock(env, frames, henv, given, n, n + CountAll(ss), map[], {}, g.value, t.value);
    }
  }

  lemma {:induction false} AvoidPush(henv: Scopes, lo: nat, hi: nat, given: set<string>)
    requires Avoid(henv, lo, hi, given)
    ensures Avoid(henv + [map[]], lo, hi, given)
  {
    forall i, y | 0 <= i < |henv + [map[]]| && y in (henv + [map[]])[i] && y in given ensures !(lo < NumberOf(y) <= hi) {
      assert y in henv[i];
    }
  }

  lemma {:induction false} CloseBlock(env: Scopes, frames: seq<Frame>, henv: Scopes, given: set<string>, lo: nat, hi: nat,
                   hscope: Scope, names: set<string>, g: Flow, t: Flow)
    requires |env| == |frames|
    requires |g.env| == |env| + 1
    requires Holds(g.env, Current(frames + [BlockFrame(names)], g.env), t.env, given)
    requires Extends(henv + [hscope], t.env, lo, hi, given)
    ensures |t.env| == |henv| + 1
    ensures Holds(g.env[..|env|], frames, t.env[..|henv|], given) && SameKeys(henv, t.env[..|henv|])
  {
    var frames1 := Current(frames + [BlockFrame(names)], g.env);
    PopBlock(g.env, frames1, t.env, given);
    assert frames1[..|env|] == frames;
    forall i | 0 <= i < |henv| ensures t.env[..|henv|][i].Keys == henv[i].Keys {
      assert (henv + [hscope])[i] == henv[i];
    }
  }

  /// ## Conditionals

  lemma {:induction false} SameIf(p: Program, given: set<string>, fuel: nat, env: Scopes, frames: seq<Frame>, henv: Scopes, chain: Chain, n: nat)
    requires Ready(p, given) && Holds(env, frames, henv, given) && InBlock(frames) && GoodChainInits(chain)
    requires Clear(ChainBlockVars(chain), ChainInitVars(chain), n, n + CountChain(chain), given)
    requires Avoid(henv, n, n + CountChain(chain), given)
    ensures Outcome(env, frames, henv, n, n + CountChain(chain), given, Exec(p, fuel, env, If(chain)),
                    ExecAll(HoistProgram(p), fuel, henv, HoistStmt(frames, If(chain), n)))
    ensures var g := Exec(p, fuel, env, If(chain)); g.Ok? ==> Current(frames, g.value.env) == frames == Grow(frames, If(chain))
    decreases fuel, chain, 3
  {
    hide Supplied, Extends, Holds, Avoid, ExecAll, Exec, ExecChain, InitFrames, HoistStmt, HoistChain, HoistInits, Pending;
    GrowNothing(frames, If(chain));
    HoldsTop(env, frames, henv, given);
    SameInits(p, given, fuel, env, frames, henv, chain, n);
    var fs, first := InitFrames(p, fuel, env, chain), ExecAll(HoistProgram(p), fuel, henv, HoistInits(frames, chain, n));
    EagerIfIs(p, fuel, env, chain);
    HoistedIfIs(p, fuel, frames, henv, chain, n);
    if fs.Ok? {
      var henv1 := first.value.env;
      SameChain(p, given, fuel, env, frames, henv1, chain, fs.value, n);
      CloseIf(env, frames, henv, henv1, n, n + CountChain(chain), given, ExecChain(p, fuel, env, chain, fs.value),
              ExecChain(HoistProgram(p), fuel, henv1, HoistChain(frames, chain, n), []));
    }
  }

  lemma {:induction false} HoldsTop(env: Scopes, frames: seq<Frame>, henv: Scopes, given: set<string>)
    requires Holds(env, frames, henv, given) && InBlock(frames)
    ensures env != [] && henv != [] && |env| == |frames| && Current(frames, env) == frames
  {
  }

  /** In the original, evaluated eagerly: the initialisers, then the chain. */
  lemma {:induction false} EagerIfIs(p: Program, fuel: nat, env: Scopes, chain: Chain)
    requires p.eager && env != []
    ensures var fs, g := InitFrames(p, fuel, env, chain), Exec(p, fuel, env, If(chain));
            match fs
            case Ok(frames) => g == ExecChain(p, fuel, env, chain, frames)
            case Stuck => g.Stuck?
            case Panic => g.Panic?
            case Timeout => g.Timeout?
  {
  }

  /** In the rewritten program: the hoisted initialisers, then the chain without them. */
  lemma {:induction false} HoistedIfIs(p: Program, fuel: nat, frames: seq<Frame>, henv: Scopes, chain: Chain, n: nat)
    requires henv != [] && InBlock(frames)
    ensures var first := ExecAll(HoistProgram(p), fuel, henv, HoistInits(frames, chain, n));
            ExecAll(HoistProgram(p), fuel, henv, HoistStmt(frames, If(chain), n)) ==
            if first.Ok? && first.value.sig.Next? then ExecChain(HoistProgram(p), fuel, first.value.env, HoistChain(frames, chain, n), [])
            else first
  {
    var inits, chain' := HoistInits(frames, chain, n), HoistChain(frames, chain, n);
    GoAppend(HoistProgram(p), fuel, henv, inits, [If(chain')]);
    var first := ExecAll(HoistProgram(p), fuel, henv, inits);
    if first.Ok? && first.value.sig.Next? {
      GoSingle(HoistProgram(p), fuel, first.value.env, If(chain'));
    }
  }

  lemma {:induction false} CloseIf(env: Scopes, frames: seq<Frame>, henv: Scopes, henv1: Scopes, lo: nat, hi: nat, given: set<string>,
                g: Res<Flow>, t: Res<Flow>)
    requires Closed(frames, henv1, given, g, t) && Extends(henv, henv1, lo, hi, given) && InBlock(frames)
    requires env != [] && |env| == |frames| && (g.Ok? ==> |g.value.env| == |env|)
    ensures Outcome(env, frames, henv, lo, hi, given, g, t)
    ensures g.Ok? ==> Current(frames, g.value.env) == frames
  {
    if g.Ok? {
      HoldsTop(g.value.env, frames, t.value.env, given);
      ExtendsSame(henv, henv1, t.value.env, lo, hi, given);
    }
  }

  lemma {:induction false} ExtendsSame(a: Scopes, b: Scopes, c: Scopes, lo: nat, hi: nat, given: set<string>)
    requires Extends(a, b, lo, hi, given) && SameKeys(b, c)
    ensures Extends(a, c, lo, hi, given)
  {
    forall y | y in c[|a| - 1] && y in given ensures y in a[|a| - 1] || lo < NumberOf(y) <= hi {
      assert y in b[|a| - 1].Keys;
    }
  }

  lemma {:induction false} SameChain(p: Program, given: set<string>, fuel: nat, env: Scopes, frames: seq<Frame>, henv: Scopes,
                                     c: Chain, fs: seq<Scope>, n: nat)
    requires Ready(p, given) && |fs| == Clauses(c) && |env| == |frames| && Pending(env, frames, henv, c, fs, n, given) && GoodChainInits(c)
    requires Clear(ChainBlockVars(c), ChainInitVars(c), n, n + CountChain(c), given)
    ensures Closed(frames, henv, given, ExecChain(p, fuel, env, c, fs),
                   ExecChain(HoistProgram(p), fuel, henv, HoistChain(frames, c, n), []))
    decreases fuel, c, 0
  {
    hide Supplied;
    if c.Else? {
      SameScoped(p, given, fuel, env, frames, henv, c.body, n);
    } else {
      SameCond(p, given, fuel, env, frames, henv, c, fs, n);
    }
  }

  lemma {:induction false} SameCond(p: Program, given: set<string>, fuel: nat, env: Scopes, frames: seq<Frame>, henv: Scopes,
                                    c: Chain, fs: seq<Scope>, n: nat)
    requires c.Cond? && Ready(p, given) && |fs| == Clauses(c) && |env| == |frames|
    requires Pending(env, frames, henv, c, fs, n, given) && GoodChainInits(c)
    requires Clear(ChainBlockVars(c), ChainInitVars(c), n, n + CountChain(c), given)
    ensures Closed(frames, henv, given, ExecChain(p, fuel, env, c, fs),
                   ExecChain(HoistProgram(p), fuel, henv, HoistChain(frames, c, n), []))
    decreases fuel, c, -1
  {
    hide Supplied, Holds, Avoid, Clear, Agree, Same, Closed, Eval, ExecChain, ExecScoped, HoistChain, HoistStmts, HoistExpr, Pending,
         Enclose, Enter, InitNamed, CountAll, HoistProgram;
    var env1, frames1, n1 := Enter(env, c.init, fs[0]), Enclose(frames, c.init, n), n + InitNamed(c.init);
    ClauseReady(c, n, given);
    ClausePending(env, frames, henv, c, fs, n, given);
    HoldsAgree(env1, frames1, henv, given);
    SameExpr(p, given, fuel, env1, frames1, henv, c.cond);
    SameScoped(p, given, fuel, env1, frames1, henv, c.body, n1);
    SameChain(p, given, fuel, env1, frames1, henv, c.rest, fs[1..], n1 + CountAll(c.body));
    SameClause(p, given, fuel, env, frames, henv, c, fs, n);
  }

  lemma {:induction false} ClausePending(env: Scopes, frames: seq<Frame>, henv: Scopes, c: Chain, fs: seq<Scope>, n: nat, given: set<string>)
    requires c.Cond? && |fs| == Clauses(c) && Pending(env, frames, henv, c, fs, n, given) && |env| == |frames|
    ensures var env1, frames1, n1 := Enter(env, c.init, fs[0]), Enclose(frames, c.init, n), n + InitNamed(c.init);
            && |env1| == |frames1| && |fs[1..]| == Clauses(c.rest)
            && Holds(env1, frames1, henv, given) && Avoid(henv, n1, n1 + CountAll(c.body), given)
            && Pending(env1, frames1, henv, c.rest, fs[1..], n1 + CountAll(c.body), given)
  {
  }

  lemma {:induction false} ClauseReady(c: Chain, n: nat, given: set<string>)
    requires c.Cond? && Clear(ChainBlockVars(c), ChainInitVars(c), n, n + CountChain(c), given)
    ensures var n1, n2 := n + InitNamed(c.init), n + InitNamed(c.init) + CountAll(c.body);
            && Clear(AllBlockVars(c.body), AllInitVars(c.body), n1, n2, given)
            && Clear(ChainBlockVars(c.rest), ChainInitVars(c.rest), n2, n2 + CountChain(c.rest), given)
  {
    var n1, n2, n3 := n + InitNamed(c.init), n + InitNamed(c.init) + CountAll(c.body), n + CountChain(c);
    ClearPart(ChainBlockVars(c), ChainInitVars(c), n, n3, AllBlockVars(c.body), AllInitVars(c.body), n1, n2, given);
    ClearPart(ChainBlockVars(c), ChainInitVars(c), n, n3, ChainBlockVars(c.rest), ChainInitVars(c.rest), n2, n3, given);
  }

  lemma {:induction false} SameClause(p: Program, given: set<string>, fuel: nat, env: Scopes, frames: seq<Frame>, henv: Scopes, c: Chain, fs: seq<Scope>, n: nat)
    requires p.eager && c.Cond? && |fs| == Clauses(c) && |env| == |frames|
    requires var env1, frames1, n1 := Enter(env, c.init, fs[0]), Enclose(frames, c.init, n), n + InitNamed(c.init);
             && Same(Eval(p, fuel, env1, c.cond), Eval(HoistProgram(p), fuel, henv, HoistExpr(frames1, c.cond)))
             && Closed(frames1, henv, given, ExecScoped(p, fuel, env1, c.body),
                       ExecScoped(HoistProgram(p), fuel, henv, HoistStmts(frames1 + [BlockFrame({})], c.body, n1)))
             && Closed(frames1, henv, given, ExecChain(p, fuel, env1, c.rest, fs[1..]),
                       ExecChain(HoistProgram(p), fuel, henv, HoistChain(frames1, c.rest, n1 + CountAll(c.body)), []))
    ensures Closed(frames, henv, given, ExecChain(p, fuel, env, c, fs),
                   ExecChain(HoistProgram(p), fuel, henv, HoistChain(frames, c, n), []))
  {
    var h := HoistProgram(p);
    var env1, frames1, n1 := Enter(env, c.init, fs[0]), Enclose(frames, c.init, n), n + InitNamed(c.init);
    var b := Eval(p, fuel, env1, c.cond);
    if b.Ok? && b.value.Bool? {
      var g := if b.value.b then ExecScoped(p, fuel, env1, c.body) else ExecChain(p, fuel, env1, c.rest, fs[1..]);
      var t := if b.value.b then ExecScoped(h, fuel, henv, HoistStmts(frames1 + [BlockFrame({})], c.body, n1))
               else ExecChain(h, fuel, henv, HoistChain(frames1, c.rest, n1 + CountAll(c.body)), []);
      if g.Ok? {
        assert t.value.env[..|henv|] == t.value.env;
        LeaveClause(env, frames, given, c.init, n, g.value.env, t.value.env, fs[0]);
      }
    }
  }

  lemma {:induction false} LeaveClause(env: Scopes, frames: seq<Frame>, given: set<string>, init: Option<Assign>, n: nat, env': Scopes, henv': Scopes, frame: Scope)
    requires |env| == |frames| && |env'| == |Enter(env, init, frame)|
    requires Holds(env', Enclose(frames, init, n), henv', given)
    ensures Holds(env'[..|env|], frames, henv', given)
  {
    if init.None? {
      assert env'[..|env|] == env';
    } else {
      PopInit(env', Enclose(frames, init, n), henv', given);
      assert Enclose(frames, init, n)[..|env|] == frames;
    }
  }

  /// ## Loops

  lemma {:induction false} SameRange(p: Program, given: set<string>, fuel: nat, env: Scopes, frames: seq<Frame>, henv: Scopes, s: Stmt, n: nat)
    requires s.Range? && Ready(p, given) && Holds(env, frames, henv, given) && env != [] && henv != [] && GoodInits(s)
    requires Clear(BlockVars(s), InitVars(s), n, n + Count(s), given) && Avoid(henv, n, n + Count(s), given)
    ensures Closed(frames, henv, given, Exec(p, fuel, env, s), Exec(HoistProgram(p), fuel, henv, HoistStmt(frames, s, n)[0]))
    decreases fuel, s, -1
  {
    hide Supplied;
    HoldsAgree(env, frames, henv, given);
    SameExpr(p, given, fuel, env, frames, henv, s.over);
    var o := Eval(p, fuel, env, s.over);
    if o.Ok? && Items(o.value).Some? {
      SameLoop(p, given, fuel, env, frames, henv, s.key, s.val, Items(o.value).value, s.body, n);
    }
  }

  function ItemFrames(frames: seq<Frame>, key: string, val: string): seq<Frame> {
    frames + [BlockFrame({key, val} - {BLANK}), BlockFrame({})]
  }

  lemma {:induction false} SameLoop(p: Program, given: set<string>, fuel: nat, env: Scopes, frames: seq<Frame>, henv: Scopes,
                                    key: string, val: string, items: seq<(Value, Value)>, body: seq<Stmt>, n: nat)
    requires Ready(p, given) && Holds(env, frames, henv, given) && AllGoodInits(body)
    requires Clear({key, val} + AllBlockVars(body), AllInitVars(body), n, n + CountAll(body), given)
    requires Avoid(henv, n, n + CountAll(body), given)
    ensures Closed(frames, henv, given, Loop(p, fuel, env, key, val, items, body),
                   Loop(HoistProgram(p), fuel, henv, key, val, items, HoistStmts(ItemFrames(frames, key, val), body, n)))
    decreases fuel, body, 3, |items|
  {
    hide Supplied, Holds, Avoid, Clear;
    if items != [] {
      var h, body' := HoistProgram(p), HoistStmts(ItemFrames(frames, key, val), body, n);
      SameTurn(p, given, fuel, env, frames, henv, key, val, items[0], body, n);
      LoopIs(p, fuel, env, key, val, items, body);
      LoopIs(h, fuel, henv, key, val, items, body');
      var g, t := Turn(p, fuel, env, key, val, items[0], body), Turn(h, fuel, henv, key, val, items[0], body');
      if g.Ok? && !g.value.sig.Ret? && !g.value.sig.Brk? {
        AvoidSame(henv, t.value.env, n, n + CountAll(body), given);
        SameLoop(p, given, fuel, g.value.env, frames, t.value.env, key, val, items[1..], body, n);
      }
    }
  }

  lemma {:induction false} AvoidSame(henv: Scopes, henv': Scopes, lo: nat, hi: nat, given: set<string>)
    requires Avoid(henv, lo, hi, given) && SameKeys(henv, henv')
    ensures Avoid(henv', lo, hi, given)
  {
    forall i, y | 0 <= i < |henv'| && y in henv'[i] && y in given ensures !(lo < NumberOf(y) <= hi) {
      assert y in henv[i].Keys;
    }
  }

  /** One turn of a loop. */
  function Turn(p: Program, fuel: nat, env: Scopes, key: string, val: string, item: (Value, Value), body: seq<Stmt>): (r: Res<Flow>)
    ensures r.Ok? ==> |r.value.env| == |env|
  {
    var env1 :- StoreAll(true, env + [map[]], [key, val], [item.0, item.1]);
    var flow :- ExecScoped(p, fuel, env1, body);
    Ok(Flow(flow.sig, flow.env[..|env|]))
  }

  lemma {:induction false} LoopIs(p: Program, fuel: nat, env: Scopes, key: string, val: string, items: seq<(Value, Value)>, body: seq<Stmt>)
    requires items != []
    ensures var turn := Turn(p, fuel, env, key, val, items[0], body);
            var r := Loop(p, fuel, env, key, val, items, body);
            if !turn.Ok? || turn.value.sig.Ret? then r == turn
            else if turn.value.sig.Brk? then r == Ok(Flow(Next, turn.value.env))
            else r == Loop(p, fuel, turn.value.env, key, val, items[1..], body)
  {
  }

  lemma {:induction false} SameTurn(p: Program, given: set<string>, fuel: nat, env: Scopes, frames: seq<Frame>, henv: Scopes,
                                    key: string, val: string, item: (Value, Value), body: seq<Stmt>, n: nat)
    requires Ready(p, given) && Holds(env, frames, henv, given) && AllGoodInits(body)
    requires Clear({key, val} + AllBlockVars(body), AllInitVars(body), n, n + CountAll(body), given)
    requires Avoid(henv, n, n + CountAll(body), given)
    ensures Closed(frames, henv, given, Turn(p, fuel, env, key, val, item, body),
                   Turn(HoistProgram(p), fuel, henv, key, val, item, HoistStmts(ItemFrames(frames, key, val), body, n)))
    decreases fuel, body, 2
  {
    hide Supplied;
    hide Holds, Avoid, Extends, Clear, Closed, HoistStmts;
    NotEmpty(env, frames, henv, given);
    TurnReady(env, frames, henv, given, key, val, item, body, n);
    var env1 := StoreAll(true, env + [map[]], [key, val], [item.0, item.1]).value;
    var henv1 := StoreAll(true, henv + [map[]], [key, val], [item.0, item.1]).value;
    var frames1 := frames + [BlockFrame({key, val} - {BLANK})];
    SameScoped(p, given, fuel, env1, frames1, henv1, body, n);
    assert frames1 + [BlockFrame({})] == ItemFrames(frames, key, val);
    var body' := HoistStmts(ItemFrames(frames, key, val), body, n);
    CloseTurn(env, frames, henv, given, {key, val} - {BLANK}, henv1, n,
              ExecScoped(p, fuel, env1, body), ExecScoped(HoistProgram(p), fuel, henv1, body'),
              Turn(p, fuel, env, key, val, item, body), Turn(HoistProgram(p), fuel, henv, key, val, item, body'));
  }

  /** A turn starts by declaring the key and the element on both sides. */
  lemma {:induction false} TurnReady(env: Scopes, frames: seq<Frame>, henv: Scopes, given: set<string>, key: string, val: string, item: (Value, Value),
                  body: seq<Stmt>, n: nat)
    requires Holds(env, frames, henv, given)
    requires Clear({key, val} + AllBlockVars(body), AllInitVars(body), n, n + CountAll(body), given)
    requires Avoid(henv, n, n + CountAll(body), given)
    ensures var g := StoreAll(true, env + [map[]], [key, val], [item.0, item.1]);
            var t := StoreAll(true, henv + [map[]], [key, val], [item.0, item.1]);
            && g.Ok? && t.Ok? && |g.value| == |env| + 1 && Extends(henv + [map[]], t.value, n, n, given)
            && Holds(g.value, frames + [BlockFrame({key, val} - {BLANK})], t.value, given)
            && Avoid(t.value, n, n + CountAll(body), given)
    ensures Clear(AllBlockVars(body), AllInitVars(body), n, n + CountAll(body), given)
  {
    var names := {key, val} - {BLANK};
    var env0, frames0, henv0 := env + [map[]], frames + [BlockFrame({})], henv + [map[]];
    NotEmpty(env, frames, henv, given);
    PushBlock(env, frames, henv, given);
    assert (set x | x in [key, val]) == {key, val};
    ClearPart({key, val} + AllBlockVars(body), AllInitVars(body), n, n + CountAll(body), AllBlockVars(body), AllInitVars(body), n, n + CountAll(body), given);
    AvoidPush(henv, n, n + CountAll(body), given);
    hide Holds, Extends, Avoid;
    DeclareAll(env0, frames0, henv0, given, [key, val], [item.0, item.1], n);
    var env1 := StoreAll(true, env0, [key, val], [item.0, item.1]).value;
    var henv1 := StoreAll(true, henv0, [key, val], [item.0, item.1]).value;
    assert env0[|env|].Keys == {} && {} + names == names;
    assert frames0[..|frames|] == frames;
    AvoidRest(henv0, henv1, n, n, n + CountAll(body), given);
  }

  lemma {:induction false} CloseTurn(env: Scopes, frames: seq<Frame>, henv: Scopes, given: set<string>, names: set<string>, henv1: Scopes, n: nat,
                  g: Res<Flow>, t: Res<Flow>, turn: Res<Flow>, hturn: Res<Flow>)
    requires |env| == |frames| && Extends(henv + [map[]], henv1, n, n, given)
    requires Closed(frames + [BlockFrame(names)], henv1, given, g, t)
    requires g.Ok? ==> |g.value.env| == |env| + 1 && turn == Ok(Flow(g.value.sig, g.value.env[..|env|]))
    requires !g.Ok? ==> turn == g
    requires t.Ok? ==> |t.value.env| >= |henv| && hturn == Ok(Flow(t.value.sig, t.value.env[..|henv|]))
    requires !t.Ok? ==> hturn == t
    ensures Closed(frames, henv, given, turn, hturn)
  {
    if g.Ok? {
      var frames1 := frames + [BlockFrame(names)];
      ExtendsSame(henv + [map[]], henv1, t.value.env, n, n, given);
      NotEmpty(g.value.env, frames1, t.value.env, given);
      assert Current(frames1, g.value.env) == frames1;
      CloseBlock(env, frames, henv, given, n, n, map[], names, g.value, t.value);
    }
  }

  /// ## Functions

  lemma {:induction false} FindHoisted(fs: seq<FuncDecl>, f: string, n: nat) returns (k: nat)
    ensures Find(fs, f).None? ==> Find(HoistFuncs(fs, n), f).None?
    ensures Find(fs, f).Some? ==>
              var d := Find(fs, f).value;
              && Find(HoistFuncs(fs, n), f) == Some(FuncDecl(f, d.params, HoistStmts([BlockFrame((set x | x in d.params) - {BLANK})], d.body, k)))
              && n <= k && k + CountAll(d.body) <= n + CountFuncs(fs)
              && (set x | x in d.params) + AllBlockVars(d.body) <= FileBlockVars(fs) && AllInitVars(d.body) <= FileInitVars(fs)
              && exists i :: 0 <= i < |fs| && fs[i] == d
  {
    k := n;
    if fs != [] && fs[0].name != f {
      k := FindHoisted(fs[1..], f, n + CountAll(fs[0].body));
      if Find(fs, f).Some? {
        var d := Find(fs, f).value;
        var i :| 0 <= i < |fs[1..]| && fs[1..][i] == d;
        assert fs[i + 1] == d;
      }
    }
  }

  lemma {:induction false} ReadyClear(p: Program, given: set<string>, bs: set<string>, vs: set<string>, lo: nat, hi: nat)
    requires Ready(p, given) && bs <= FileBlockVars(p.funcs) && vs <= FileInitVars(p.funcs) && hi <= CountFuncs(p.funcs)
    ensures Clear(bs, vs, lo, hi, given)
  {
  }

  lemma {:induction false} InvokeIs(p: Program, fuel: nat, f: string, vs: seq<Value>)
    ensures match Find(p.funcs, f)
            case None => Invoke(p, fuel, f, vs).Stuck?
            case Some(d) =>
              if |d.params| != |vs| then Invoke(p, fuel, f, vs).Stuck?
              else
                var env := StoreAll(true, [map[]], d.params, vs);
                env.Ok? ==>
                  var flow := ExecAll(p, fuel, env.value, d.body);
                  Invoke(p, fuel, f, vs) == if flow.Ok? then Ok(flow.value.sig) else flow.PropagateFailure()
  {
  }

  /** Functions of the hoisted file do what those of the original do when chains run eagerly. */
  lemma {:induction false} SameInvoke(p: Program, given: set<string>, fuel: nat, f: string, vs: seq<Value>)
    requires Ready(p, given)
    ensures Same(Invoke(p, fuel, f, vs), Invoke(HoistProgram(p), fuel, f, vs))
    decreases fuel
  {
    InvokeIs(p, fuel, f, vs);
    InvokeIs(HoistProgram(p), fuel, f, vs);
    hide Supplied, Generated, Holds, Avoid, Clear, HoistFuncs, FileBlockVars, FileInitVars, Invoke, ExecAll, Extends, Current, AllBlockVars, AllInitVars, HoistStmts;
    var found := Find(p.funcs, f);
    var k := FoundReady(p, given, f);
    if found.Some? && |found.value.params| == |vs| {
      var d := found.value;
      StartFunction(d, vs, k, given);
      var env := StoreAll(true, [map[]], d.params, vs).value;
      SameStmts(p, given, fuel, env, [BlockFrame((set x | x in d.params) - {BLANK})], env, d.body, k);
    }
  }

  /** The hoisted form of a function, and the numbers that its initialisers get. */
  lemma {:induction false} FoundReady(p: Program, given: set<string>, f: string) returns (k: nat)
    requires Ready(p, given)
    ensures var found, hoisted := Find(p.funcs, f), Find(HoistProgram(p).funcs, f);
            && (found.None? ==> hoisted.None?)
            && (found.Some? ==>
                  var d := found.value;
                  && hoisted == Some(FuncDecl(f, d.params, HoistStmts([BlockFrame((set x | x in d.params) - {BLANK})], d.body, k)))
                  && AllGoodInits(d.body)
                  && Clear((set x | x in d.params) + AllBlockVars(d.body), AllInitVars(d.body), k, k + CountAll(d.body), given))
  {
    k := FindHoisted(p.funcs, f, 0);
    var found := Find(p.funcs, f);
    if found.Some? {
      var d := found.value;
      ReadyClear(p, given, (set x | x in d.params) + AllBlockVars(d.body), AllInitVars(d.body), k, k + CountAll(d.body));
    }
  }

  /** Parameters are kept: both bodies start in the same scope. */
  lemma {:induction false} StartFunction(d: FuncDecl, vs: seq<Value>, k: nat, given: set<string>)
    requires |d.params| == |vs|
    requires Clear((set x | x in d.params) + AllBlockVars(d.body), AllInitVars(d.body), k, k + CountAll(d.body), given)
    ensures var r := StoreAll(true, [map[]], d.params, vs);
            && r.Ok? && Holds(r.value, [BlockFrame((set x | x in d.params) - {BLANK})], r.value, given)
            && Avoid(r.value, k, k + CountAll(d.body), given)
    ensures Clear(AllBlockVars(d.body), AllInitVars(d.body), k, k + CountAll(d.body), given)
  {
    assert (set x | x in d.params) !! given;
    hide Clear, Avoid, AllBlockVars, AllInitVars, CountAll;
    var names := (set x | x in d.params) - {BLANK};
    var empty: Scope := map[];
    StartEmpty(given);
    DeclareAll([empty], [BlockFrame({})], [empty], given, d.params, vs, k);
    var env := StoreAll(true, [empty], d.params, vs).value;
    assert {} + names == names;
    assert Current([BlockFrame({})], env) == [BlockFrame(names)];
    AvoidParams([empty], env, k, k + CountAll(d.body), given);
    ClearPart((set x | x in d.params) + AllBlockVars(d.body), AllInitVars(d.body), k, k + CountAll(d.body),
              AllBlockVars(d.body), AllInitVars(d.body), k, k + CountAll(d.body), given);
  }

  lemma {:induction false} StartEmpty(given: set<string>)
    ensures Holds([map[]], [BlockFrame({})], [map[]], given)
  {
    var empty: Scope := map[];
    assert [empty][..0] == [] && [BlockFrame({})][..0] == [];
  }

  lemma {:induction false} AvoidParams(henv: Scopes, henv': Scopes, lo: nat, hi: nat, given: set<string>)
    requires |henv| == 1 && henv[0] == map[] && Extends(henv, henv', lo, lo, given)
    ensures Avoid(henv', lo, hi, given)
  {
  }
}
