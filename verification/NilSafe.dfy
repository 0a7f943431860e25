/** A check on the source after which it never matters that templates have one nil for maps, slices and pointers, nor
    that they count with `untilStep`, and the proof that it is enough. */
module NilSafe {
  import opened Wrappers
  import C = CountedLoop
  import opened GoLang
  import T = Transpile

  /// ## The check

  /** For each function, the positions of the parameters that its callers never pass nil. */
  type Needs = map<string, set<nat>>

  predicate NoNeeds(needs: Needs) {
    forall f :: f in needs ==> needs[f] == {}
  }

  /** Variables that are not nil when the condition is true. */
  function WhenTrue(e: Expr): set<string> {
    match e
    case Apply(op, args) =>
      if |args| != 1 then {}
      else if op.NotNil? && args[0].Var? then {args[0].x}
      else if op.Not? then WhenFalse(args[0])
      else {}
    case And(left, right) => WhenTrue(left) + WhenTrue(right)
    case _ => {}
  }

  /** Variables that are not nil when the condition is false. */
  function WhenFalse(e: Expr): set<string> {
    match e
    case Apply(op, args) =>
      if |args| != 1 then {}
      else if op.IsNil? && args[0].Var? then {args[0].x}
      else if op.Not? then WhenTrue(args[0])
      else {}
    case Or(left, right) => WhenFalse(left) + WhenFalse(right)
    case _ => {}
  }

  /** An expression whose value is not nil, when the variables `known` are not. */
  predicate NonNil(e: Expr, known: set<string>) {
    match e
    case Lit(v) => !v.Nil?
    case Var(x) => x in known
    case Apply(op, args) =>
      if op.Append? && |args| > 1 then true
      else if op.Append? || op.AppendSpread? then args != [] && NonNil(args[0], known)
      else !op.Index? && !op.MapIndex? && !op.MapGet? && !op.Field?
    case Call(_) => false
    case _ => true
  }

  /** Operations whose first operand must not be nil: reading a map by key, appending what may be nothing, `*p`. */
  predicate NeedsFirst(op: Op, n: nat) {
    if op.Append? then n == 1
    else if op.Deref? then n == 1
    else (op.MapIndex? || op.MapGet? || op.AppendSpread?) && n == 2
  }

  /** Counted loops that `untilStep` counts like Go: `<` with `++` or `+=`, and `>` with `-=`. */
  predicate CountsTowards(cmp: C.Cmp, post: C.Post) {
    if cmp.Lt? then post.Inc? || (post.Add? && post.k > 0) else cmp.Gt? && post.Sub? && post.k > 0
  }

  predicate SafeExpr(needs: Needs, e: Expr, known: set<string>)
    decreases e, 0
  {
    match e
    case Lit(_) => true
    case Var(_) => true
    case Apply(op, args) =>
      && AllSafe(needs, args, known) && (NeedsFirst(op, |args|) ==> NonNil(args[0], known))
      && (op.Counted? ==> CountsTowards(op.cmp, op.post))
    case And(left, right) => SafeExpr(needs, left, known) && SafeExpr(needs, right, known + WhenTrue(left))
    case Or(left, right) => SafeExpr(needs, left, known) && SafeExpr(needs, right, known + WhenFalse(left))
    case FuncRef(_) => true
    case MethodRef(_, recv, kind) => SafeExpr(needs, recv, known) && (kind.Through? ==> NonNil(recv, known))
    case Call(call) => SafeCall(needs, call, known)
  }

  predicate AllSafe(needs: Needs, es: seq<Expr>, known: set<string>)
    decreases es, 0
  {
    es != [] ==> SafeExpr(needs, es[0], known) && AllSafe(needs, es[1..], known)
  }

  /** The call passes what the function needs.  Function values are called only where no function needs anything. */
  predicate SafeCall(needs: Needs, c: Invocation, known: set<string>)
    decreases c, 1
  {
    && AllSafe(needs, c.args, known)
    && match c.callee
       case Static(f) => Passes(needs, f, c.args, known)
       case Method(f, recv, kind) =>
         SafeExpr(needs, recv, known) && (kind.Through? ==> NonNil(recv, known)) && Passes(needs, f, [recv] + c.args, known)
       case FuncValue(e) => SafeExpr(needs, e, known) && NoNeeds(needs)
  }

  predicate Passes(needs: Needs, f: string, args: seq<Expr>, known: set<string>) {
    f in needs ==> forall i :: i in needs[f] && i < |args| ==> NonNil(args[i], known)
  }

  /** A known variable is only assigned values that are not nil. */
  predicate SafeAssign(needs: Needs, a: Assign, known: set<string>) {
    match a
    case Single(x, e) => SafeExpr(needs, e, known) && (x in known ==> NonNil(e, known))
    case Tuple(xs, es) =>
      AllSafe(needs, es, known) && forall i :: 0 <= i < |xs| && i < |es| && xs[i] in known ==> NonNil(es[i], known)
    case Multi(_, xs, rhs) => SafeRhs(needs, rhs, known) && forall i :: 0 <= i < |xs| ==> xs[i] !in known
  }

  predicate SafeRhs(needs: Needs, rhs: MultiRhs, known: set<string>) {
    match rhs
    case MultiCall(call) => SafeCall(needs, call, known)
    case MapTest(m, k, _) => SafeExpr(needs, m, known) && SafeExpr(needs, k, known)
  }

  predicate SafeStmt(needs: Needs, s: Stmt, known: set<string>)
    decreases s, 0
  {
    match s
    case AssignStmt(_, a) => SafeAssign(needs, a, known)
    case ExprStmt(e) => SafeExpr(needs, e, known)
    case Break => true
    case Continue => true
    case Return(es) => AllSafe(needs, es, known)
    case If(chain) => SafeInits(needs, chain, known) && SafeChain(needs, chain, known)
    case Range(key, val, over, body) =>
      SafeExpr(needs, over, known) && key !in known && val !in known && SafeStmts(needs, body, known)
    case Block(body) => SafeStmts(needs, body, known)
  }

  predicate SafeStmts(needs: Needs, ss: seq<Stmt>, known: set<string>)
    decreases ss, 0
  {
    ss != [] ==> SafeStmt(needs, ss[0], known) && SafeStmts(needs, ss[1..], known + Learned(ss[0], known))
  }

  /** The template evaluates all initialisers first, so no condition vouches for them. */
  predicate SafeInits(needs: Needs, c: Chain, known: set<string>)
    decreases c, 0
  {
    c.Cond? ==> (c.init.Some? ==> SafeAssign(needs, c.init.value, known)) && SafeInits(needs, c.rest, known)
  }

  function InitTargets(c: Chain): set<string> {
    if c.Else? then {} else (if c.init.Some? then set x | x in T.Targets(c.init.value) else {}) + InitTargets(c.rest)
  }

  predicate SafeChain(needs: Needs, c: Chain, known: set<string>)
    decreases c, 0
  {
    match c
    case Else(body) => SafeStmts(needs, body, known)
    case Cond(_, cond, body, rest) =>
      && SafeExpr(needs, cond, known)
      && SafeStmts(needs, body, known + WhenTrue(cond))
      && SafeChain(needs, rest, known + (WhenFalse(cond) - InitTargets(rest)))
  }

  /** What is known besides after a statement: the variable just assigned, or what a guard that leaves has ruled out. */
  function Learned(s: Stmt, known: set<string>): set<string> {
    match s
    case AssignStmt(_, Single(x, e)) => if x != BLANK && NonNil(e, known) then {x} else {}
    case If(Cond(None, cond, body, Else(rest))) => if Leaves(body) && rest == [] then WhenFalse(cond) else {}
    case _ => {}
  }

  predicate Leaves(body: seq<Stmt>) {
    body != [] && var last := body[|body| - 1]; last.Return? || last.Break? || last.Continue?
  }

  /** What a function knows of its parameters. */
  function Given(needs: Needs, d: FuncDecl): set<string> {
    if d.name !in needs then {}
    else set x | x in d.params && x != BLANK && forall i :: 0 <= i < |d.params| && d.params[i] == x ==> i in needs[d.name]
  }

  /** In no function of the file it matters what kind of nil a value is, if its callers pass what it needs. */
  predicate SafeFile(needs: Needs, fs: seq<FuncDecl>) {
    forall i :: 0 <= i < |fs| ==> SafeStmts(needs, fs[i].body, Given(needs, fs[i]))
  }

  predicate Fits(needs: Needs, f: string, vs: seq<Value>) {
    f in needs ==> forall i :: i in needs[f] && i < |vs| ==> !vs[i].Nil?
  }

  /// ## What is known of variables

  ghost predicate Visible(env: Scopes, known: set<string>) {
    forall x :: x in known && Lookup(env, x).Some? ==> !Lookup(env, x).value.Nil?
  }

  /** From `env` to `env'`, variables of `known` only changed to values that are not nil. */
  ghost predicate Kept(env: Scopes, env': Scopes, known: set<string>) {
    && |env'| == |env|
    && forall i :: 0 <= i < |env| ==> KeptScope(env[i], env'[i], known)
  }

  predicate KeptScope(a: Scope, b: Scope, known: set<string>) {
    && a.Keys <= b.Keys
    && forall x :: x in known && x in b ==> (x in a && b[x] == a[x]) || !b[x].Nil?
  }

  lemma {:induction false} KeptVisible(env: Scopes, env': Scopes, known: set<string>)
    requires Visible(env, known) && Kept(env, env', known)
    ensures Visible(env', known)
  {
    forall x | x in known && Lookup(env', x).Some? ensures !Lookup(env', x).value.Nil? {
      KeptLookup(env, env', known, x);
    }
  }

  lemma {:induction false} KeptLookup(env: Scopes, env': Scopes, known: set<string>, x: string)
    requires Kept(env, env', known) && x in known && Lookup(env', x).Some?
    ensures !Lookup(env', x).value.Nil? || Lookup(env, x) == Lookup(env', x)
  {
    var n := |env| - 1;
    assert KeptScope(env[n], env'[n], known);
    if x !in env'[n] {
      assert x !in env[n];
      assert forall i :: 0 <= i < n ==> env[..n][i] == env[i] && env'[..n][i] == env'[i];
      KeptLookup(env[..n], env'[..n], known, x);
    }
  }

  lemma {:induction false} KeptSame(env: Scopes, known: set<string>)
    ensures Kept(env, env, known)
  {
  }

  lemma {:induction false} KeptTwice(a: Scopes, b: Scopes, c: Scopes, known: set<string>, more: set<string>)
    requires Kept(a, b, known) && Kept(b, c, more) && known <= more
    ensures Kept(a, c, known)
  {
    forall i | 0 <= i < |a| ensures KeptScope(a[i], c[i], known) {
      assert KeptScope(a[i], b[i], known) && KeptScope(b[i], c[i], more);
    }
  }

  lemma {:induction false} KeptFewer(a: Scopes, b: Scopes, known: set<string>, fewer: set<string>)
    requires Kept(a, b, known) && fewer <= known
    ensures Kept(a, b, fewer)
  {
    forall i | 0 <= i < |a| ensures KeptScope(a[i], b[i], fewer) {
      assert KeptScope(a[i], b[i], known);
    }
  }

  lemma {:induction false} KeptOuter(env: Scopes, inner: Scopes, env': Scopes, known: set<string>)
    requires Kept(env + inner, env', known)
    ensures Kept(env, env'[..|env|], known)
  {
    forall i | 0 <= i < |env| ensures KeptScope(env[i], env'[..|env|][i], known) {
      assert KeptScope((env + inner)[i], env'[i], known);
    }
  }

  lemma {:induction false} VisibleMore(env: Scopes, a: set<string>, b: set<string>)
    requires Visible(env, a) && Visible(env, b)
    ensures Visible(env, a + b)
  {
  }

  lemma {:induction false} VisibleOpen(env: Scopes, scope: Scope, known: set<string>)
    requires Visible(env, known) && forall x :: x in known && x in scope ==> !scope[x].Nil?
    ensures Visible(env + [scope], known)
  {
    assert (env + [scope])[..|env|] == env;
  }

  lemma {:induction false} KeptUpdate(env: Scopes, x: string, v: Value, known: set<string>)
    requires Update(env, x, v).Some? && (x in known ==> !v.Nil?)
    ensures Kept(env, Update(env, x, v).value, known)
    ensures Lookup(Update(env, x, v).value, x) == Some(v)
  {
    var n := |env| - 1;
    var env' := Update(env, x, v).value;
    if x in env[n] {
      assert env'[..n] == env[..n];
      assert forall i :: 0 <= i < n ==> env'[i] == env[i];
    } else {
      KeptUpdate(env[..n], x, v, known);
      assert env'[..n] == Update(env[..n], x, v).value;
      forall i | 0 <= i < |env| ensures KeptScope(env[i], env'[i], known) {
        if i < n { assert KeptScope(env[..n][i], env'[..n][i], known); }
      }
    }
  }

  lemma {:induction false} KeptStore(define: bool, env: Scopes, x: string, v: Value, known: set<string>)
    requires env != [] && Store(define, env, x, v).Ok? && (x in known ==> !v.Nil?)
    ensures Kept(env, Store(define, env, x, v).value, known)
    ensures x != BLANK ==> Lookup(Store(define, env, x, v).value, x) == Some(v)
  {
    if x == BLANK {
      KeptSame(env, known);
    } else if define {
      var n := |env| - 1;
      var env' := Declare(env, x, v);
      assert forall i :: 0 <= i < n ==> env'[i] == env[i];
    } else {
      KeptUpdate(env, x, v, known);
    }
  }

  lemma {:induction false} KeptStoreAll(define: bool, env: Scopes, xs: seq<string>, vs: seq<Value>, known: set<string>)
    requires env != [] && |xs| == |vs| && StoreAll(define, env, xs, vs).Ok?
    requires forall i :: 0 <= i < |xs| && xs[i] in known ==> !vs[i].Nil?
    ensures Kept(env, StoreAll(define, env, xs, vs).value, known)
    decreases |xs|
  {
    if xs == [] {
      KeptSame(env, known);
    } else {
      KeptStore(define, env, xs[0], vs[0], known);
      var env1 := Store(define, env, xs[0], vs[0]).value;
      KeptStoreAll(define, env1, xs[1..], vs[1..], known);
      KeptTwice(env, env1, StoreAll(define, env, xs, vs).value, known, known);
    }
  }

  /// ## Conditions

  /** What a condition shows. */
  lemma {:induction false} CondShows(p: Program, fuel: nat, env: Scopes, e: Expr, b: bool)
    requires Eval(p, fuel, env, e) == Ok(Bool(b))
    ensures Visible(env, if b then WhenTrue(e) else WhenFalse(e))
    decreases e
  {
    match e
    case Apply(op, args) =>
      if |args| == 1 {
        assert args[1..] == [];
        var v := Eval(p, fuel, env, args[0]);
        assert EvalAll(p, fuel, env, args) == Ok([v.value] + []);
        assert [v.value] + [] == [v.value];
        if op.Not? { CondShows(p, fuel, env, args[0], !b); }
      }
    case And(left, right) =>
      if b {
        CondShows(p, fuel, env, left, true);
        CondShows(p, fuel, env, right, true);
      }
    case Or(left, right) =>
      if !b {
        CondShows(p, fuel, env, left, false);
        CondShows(p, fuel, env, right, false);
      }
    case _ =>
  }

  lemma {:induction false} NonNilValue(p: Program, fuel: nat, env: Scopes, e: Expr, known: set<string>)
    requires !p.untyped && Visible(env, known) && NonNil(e, known) && Eval(p, fuel, env, e).Ok?
    ensures !Eval(p, fuel, env, e).value.Nil?
    decreases e
  {
    if e.Apply? {
      var vs := EvalAll(p, fuel, env, e.args).value;
      if e.args != [] && NonNil(e.args[0], known) { NonNilValue(p, fuel, env, e.args[0], known); }
      NonNilResult(e.op, vs);
    }
  }

  lemma {:induction false} NonNilResult(op: Op, vs: seq<Value>)
    requires if op.Append? && |vs| > 1 then true
             else if op.Append? || op.AppendSpread? then vs != [] && !vs[0].Nil?
             else !op.Index? && !op.MapIndex? && !op.MapGet? && !op.Field?
    requires Perform(op, vs).Ok?
    ensures !Perform(op, vs).value.Nil?
  {
    if op.CmpOr? { FirstNotNil(vs); }
  }

  lemma {:induction false} SameOp(op: Op, vs: seq<Value>)
    requires NeedsFirst(op, |vs|) ==> vs != [] && !vs[0].Nil?
    requires op.Counted? ==> CountsTowards(op.cmp, op.post)
    ensures Compute(true, op, vs) == Compute(false, op, vs)
  {
    if Counts(op, vs) {
      C.CountedLoopIff(op.cmp, op.post, vs[0].n, vs[1].n);
    } else {
      hide Perform;
    }
  }

  lemma {:induction false} FirstNotNil(vs: seq<Value>)
    requires vs != [] && forall i :: 0 <= i < |vs| ==> SameBasic(vs[0], vs[i])
    ensures !FirstNonZero(vs).Nil?
  {
    assert SameBasic(vs[0], vs[0]);
    if |vs| > 1 {
      assert SameBasic(vs[0], vs[1]);
      FirstNotNil(vs[1..]);
    }
  }

  lemma {:induction false} NonNilValues(p: Program, fuel: nat, env: Scopes, es: seq<Expr>, known: set<string>)
    requires !p.untyped && Visible(env, known) && EvalAll(p, fuel, env, es).Ok?
    ensures forall i :: 0 <= i < |es| && NonNil(es[i], known) ==> !EvalAll(p, fuel, env, es).value[i].Nil?
  {
    if es != [] {
      NonNilValues(p, fuel, env, es[1..], known);
      if NonNil(es[0], known) { NonNilValue(p, fuel, env, es[0], known); }
    }
  }

  /// ## One nil is enough

  ghost predicate Ready(p: Program, needs: Needs) {
    p.eager && !p.untyped && SafeFile(needs, p.funcs)
  }

  /** The program with the one nil of templates. */
  function Untyped(p: Program): Program {
    Program(p.funcs, p.eager, true)
  }

  lemma {:induction false} SameExpr(p: Program, needs: Needs, fuel: nat, env: Scopes, e: Expr, known: set<string>)
    requires Ready(p, needs) && Visible(env, known) && SafeExpr(needs, e, known)
    ensures Eval(Untyped(p), fuel, env, e) == Eval(p, fuel, env, e)
    decreases fuel, e, 0
  {
    match e
    case Lit(_) =>
    case Var(_) =>
    case Apply(op, args) =>
      SameExprs(p, needs, fuel, env, args, known);
      var vs := EvalAll(p, fuel, env, args);
      if vs.Ok? {
        NonNilValues(p, fuel, env, args, known);
        SameOp(op, vs.value);
      }
    case And(left, right) =>
      SameExpr(p, needs, fuel, env, left, known);
      if Eval(p, fuel, env, left) == Ok(Bool(true)) {
        CondShows(p, fuel, env, left, true);
        VisibleMore(env, known, WhenTrue(left));
        SameExpr(p, needs, fuel, env, right, known + WhenTrue(left));
      }
    case Or(left, right) =>
      SameExpr(p, needs, fuel, env, left, known);
      if Eval(p, fuel, env, left) == Ok(Bool(false)) {
        CondShows(p, fuel, env, left, false);
        VisibleMore(env, known, WhenFalse(left));
        SameExpr(p, needs, fuel, env, right, known + WhenFalse(left));
      }
    case FuncRef(_) =>
    case MethodRef(_, recv, kind) =>
      SameExpr(p, needs, fuel, env, recv, known);
      if kind.Through? && Eval(p, fuel, env, recv).Ok? { NonNilValue(p, fuel, env, recv, known); }
    case Call(call) => SameCall(p, needs, fuel, env, call, known);
  }

  lemma {:induction false} SameExprs(p: Program, needs: Needs, fuel: nat, env: Scopes, es: seq<Expr>, known: set<string>)
    requires Ready(p, needs) && Visible(env, known) && AllSafe(needs, es, known)
    ensures EvalAll(Untyped(p), fuel, env, es) == EvalAll(p, fuel, env, es)
    decreases fuel, es, 0
  {
    if es != [] {
      SameExpr(p, needs, fuel, env, es[0], known);
      SameExprs(p, needs, fuel, env, es[1..], known);
    }
  }

  lemma {:induction false} SameCall(p: Program, needs: Needs, fuel: nat, env: Scopes, c: Invocation, known: set<string>)
    requires Ready(p, needs) && Visible(env, known) && SafeCall(needs, c, known)
    ensures EvalCall(Untyped(p), fuel, env, c) == EvalCall(p, fuel, env, c)
    decreases fuel, c, 1
  {
    SameTarget(p, needs, fuel, env, c, known);
    var target := Target(p, fuel, env, c);
    if target.Ok? && fuel > 0 {
      SameInvoke(p, needs, fuel - 1, target.value.0, target.value.1);
    }
  }

  lemma {:induction false} SameTarget(p: Program, needs: Needs, fuel: nat, env: Scopes, c: Invocation, known: set<string>)
    requires Ready(p, needs) && Visible(env, known) && SafeCall(needs, c, known)
    ensures Target(Untyped(p), fuel, env, c) == Target(p, fuel, env, c)
    ensures var t := Target(p, fuel, env, c); t.Ok? ==> Fits(needs, t.value.0, t.value.1)
    decreases fuel, c, 0
  {
    SameExprs(p, needs, fuel, env, c.args, known);
    var vs := EvalAll(p, fuel, env, c.args);
    if vs.Ok? { NonNilValues(p, fuel, env, c.args, known); }
    match c.callee
    case Static(_) =>
    case Method(f, recv, kind) =>
      SameExpr(p, needs, fuel, env, recv, known);
      if kind.Through? && Eval(p, fuel, env, recv).Ok? { NonNilValue(p, fuel, env, recv, known); }
      if vs.Ok? && Eval(p, fuel, env, recv).Ok? { MethodFits(p, needs, fuel, env, f, recv, c.args, known); }
    case FuncValue(e) => SameExpr(p, needs, fuel, env, e, known);
  }

  lemma {:induction false} MethodFits(p: Program, needs: Needs, fuel: nat, env: Scopes, f: string, recv: Expr, args: seq<Expr>, known: set<string>)
    requires !p.untyped && Visible(env, known) && Passes(needs, f, [recv] + args, known)
    requires Eval(p, fuel, env, recv).Ok? && EvalAll(p, fuel, env, args).Ok?
    ensures Fits(needs, f, [Eval(p, fuel, env, recv).value] + EvalAll(p, fuel, env, args).value)
  {
    NonNilValues(p, fuel, env, args, known);
    if NonNil(recv, known) { NonNilValue(p, fuel, env, recv, known); }
    if f in needs {
      forall i | i in needs[f] && i < 1 + |args| ensures !([Eval(p, fuel, env, recv).value] + EvalAll(p, fuel, env, args).value)[i].Nil? {
        assert NonNil(([recv] + args)[i], known);
      }
    }
  }

  lemma {:induction false} FoundSafe(needs: Needs, fs: seq<FuncDecl>, f: string)
    requires SafeFile(needs, fs) && Find(fs, f).Some?
    ensures var d := Find(fs, f).value; d.name == f && SafeStmts(needs, d.body, Given(needs, d))
  {
    if fs[0].name != f {
      assert forall i :: 0 <= i < |fs[1..]| ==> fs[1..][i] == fs[i + 1];
      FoundSafe(needs, fs[1..], f);
    }
  }

  /** The scope of the parameters. */
  lemma {:induction false} ParamsVisible(scope: Scope, xs: seq<string>, vs: seq<Value>, known: set<string>)
    requires |xs| == |vs| && forall i :: 0 <= i < |xs| && xs[i] in known ==> !vs[i].Nil?
    requires forall x :: x in known && x in scope ==> !scope[x].Nil?
    ensures var r := StoreAll(true, [scope], xs, vs); r.Ok? && Visible(r.value, known)
    decreases |xs|
  {
    if xs == [] {
      assert [scope][..0] == [];
    } else {
      var r := Store(true, [scope], xs[0], vs[0]).value;
      assert [scope][..0] == [];
      assert r == [r[0]];
      ParamsVisible(r[0], xs[1..], vs[1..], known);
    }
  }

  lemma {:induction false} SameInvoke(p: Program, needs: Needs, fuel: nat, f: string, vs: seq<Value>)
    requires Ready(p, needs) && Fits(needs, f, vs)
    ensures Invoke(Untyped(p), fuel, f, vs) == Invoke(p, fuel, f, vs)
    decreases fuel
  {
    var found := Find(p.funcs, f);
    if found.Some? && |found.value.params| == |vs| {
      var d := found.value;
      FoundSafe(needs, p.funcs, f);
      ParamsVisible(map[], d.params, vs, Given(needs, d));
      SameStmts(p, needs, fuel, StoreAll(true, [map[]], d.params, vs).value, d.body, Given(needs, d));
    }
  }

  lemma {:induction false} SameAssign(p: Program, needs: Needs, fuel: nat, env: Scopes, define: bool, a: Assign, known: set<string>)
    requires Ready(p, needs) && env != [] && Visible(env, known) && SafeAssign(needs, a, known)
    ensures ExecAssign(Untyped(p), fuel, env, define, a) == ExecAssign(p, fuel, env, define, a)
    ensures var r := ExecAssign(p, fuel, env, define, a); r.Ok? ==> Kept(env, r.value, known)
    decreases fuel, a, 0
  {
    match a
    case Single(x, e) =>
      SameExpr(p, needs, fuel, env, e, known);
      var v := Eval(p, fuel, env, e);
      if v.Ok? && ExecAssign(p, fuel, env, define, a).Ok? {
        if x in known { NonNilValue(p, fuel, env, e, known); }
        KeptStoreAll(define, env, [x], [v.value], known);
      }
    case Tuple(xs, es) =>
      SameExprs(p, needs, fuel, env, es, known);
      var vs := EvalAll(p, fuel, env, es);
      if vs.Ok? && ExecAssign(p, fuel, env, define, a).Ok? {
        NonNilValues(p, fuel, env, es, known);
        KeptStoreAll(define, env, xs, vs.value, known);
      }
    case Multi(_, xs, rhs) =>
      SameRhs(p, needs, fuel, env, rhs, known);
      var vs := EvalRhs(p, fuel, env, rhs);
      if vs.Ok? && ExecAssign(p, fuel, env, define, a).Ok? {
        KeptStoreAll(define, env, xs, vs.value, known);
      }
  }

  lemma {:induction false} SameRhs(p: Program, needs: Needs, fuel: nat, env: Scopes, rhs: MultiRhs, known: set<string>)
    requires Ready(p, needs) && Visible(env, known) && SafeRhs(needs, rhs, known)
    ensures EvalRhs(Untyped(p), fuel, env, rhs) == EvalRhs(p, fuel, env, rhs)
    decreases fuel, rhs, 0
  {
    match rhs
    case MultiCall(call) => SameCall(p, needs, fuel, env, call, known);
    case MapTest(m, k, _) =>
      SameExpr(p, needs, fuel, env, m, known);
      SameExpr(p, needs, fuel, env, k, known);
  }

  lemma {:induction false} SameAny(p: Program, needs: Needs, fuel: nat, env: Scopes, e: Expr, known: set<string>)
    requires Ready(p, needs) && Visible(env, known) && SafeExpr(needs, e, known)
    ensures Eval(Untyped(p), fuel, env, e) == Eval(p, fuel, env, e)
    ensures e.Call? ==> EvalCall(Untyped(p), fuel, env, e.call) == EvalCall(p, fuel, env, e.call)
    decreases fuel, e, 1
  {
    SameExpr(p, needs, fuel, env, e, known);
    if e.Call? { SameCall(p, needs, fuel, env, e.call, known); }
  }

  /** Both runs do the same, and known variables stay known. */
  ghost predicate Both(env: Scopes, known: set<string>, a: Res<Flow>, b: Res<Flow>) {
    b == a && (a.Ok? ==> Kept(env, a.value.env, known))
  }

  lemma {:induction false} SameStmt(p: Program, needs: Needs, fuel: nat, env: Scopes, s: Stmt, known: set<string>)
    requires Ready(p, needs) && env != [] && Visible(env, known) && SafeStmt(needs, s, known)
    ensures Both(env, known, Exec(p, fuel, env, s), Exec(Untyped(p), fuel, env, s))
    decreases fuel, s, 0
  {
    KeptSame(env, known);
    match s
    case AssignStmt(define, a) => SameAssign(p, needs, fuel, env, define, a, known);
    case ExprStmt(e) => SameAny(p, needs, fuel, env, e, known);
    case Break =>
    case Continue =>
    case Return(es) =>
      SameExprs(p, needs, fuel, env, es, known);
      if |es| == 1 { SameAny(p, needs, fuel, env, es[0], known); }
    case If(chain) =>
      SameInits(p, needs, fuel, env, chain, known);
      var fs := InitFrames(p, fuel, env, chain);
      if fs.Ok? { SameChain(p, needs, fuel, env, chain, fs.value, known); }
    case Range(key, val, over, body) =>
      SameExpr(p, needs, fuel, env, over, known);
      var o := Eval(p, fuel, env, over);
      if o.Ok? && Items(o.value).Some? {
        SameLoop(p, needs, fuel, env, key, val, Items(o.value).value, body, known);
      }
    case Block(body) => SameScoped(p, needs, fuel, env, body, known);
  }

  lemma {:induction false} SameStmts(p: Program, needs: Needs, fuel: nat, env: Scopes, ss: seq<Stmt>, known: set<string>)
    requires Ready(p, needs) && env != [] && Visible(env, known) && SafeStmts(needs, ss, known)
    ensures Both(env, known, ExecAll(p, fuel, env, ss), ExecAll(Untyped(p), fuel, env, ss))
    decreases fuel, ss, 0
  {
    if ss == [] {
      KeptSame(env, known);
    } else {
      SameStmt(p, needs, fuel, env, ss[0], known);
      var g := Exec(p, fuel, env, ss[0]);
      if g.Ok? && g.value.sig.Next? {
        var env1 := g.value.env;
        var more := known + Learned(ss[0], known);
        KeptVisible(env, env1, known);
        LearnedVisible(p, fuel, env, ss[0], known);
        VisibleMore(env1, known, Learned(ss[0], known));
        SameStmts(p, needs, fuel, env1, ss[1..], more);
        var t := ExecAll(p, fuel, env1, ss[1..]);
        if t.Ok? { KeptTwice(env, env1, t.value.env, known, more); }
      }
    }
  }

  lemma {:induction false} SameScoped(p: Program, needs: Needs, fuel: nat, env: Scopes, ss: seq<Stmt>, known: set<string>)
    requires Ready(p, needs) && Visible(env, known) && SafeStmts(needs, ss, known)
    ensures Both(env, known, ExecScoped(p, fuel, env, ss), ExecScoped(Untyped(p), fuel, env, ss))
    decreases fuel, ss, 1
  {
    VisibleOpen(env, map[], known);
    SameStmts(p, needs, fuel, env + [map[]], ss, known);
    var g := ExecAll(p, fuel, env + [map[]], ss);
    if g.Ok? { KeptOuter(env, [map[]], g.value.env, known); }
  }

  lemma {:induction false} SameLoop(p: Program, needs: Needs, fuel: nat, env: Scopes, key: string, val: string,
                                    items: seq<(Value, Value)>, body: seq<Stmt>, known: set<string>)
    requires Ready(p, needs) && Visible(env, known) && SafeStmts(needs, body, known) && key !in known && val !in known
    ensures Both(env, known, Loop(p, fuel, env, key, val, items, body), Loop(Untyped(p), fuel, env, key, val, items, body))
    decreases fuel, body, 2, |items|
  {
    if items == [] {
      KeptSame(env, known);
    } else {
      var env0 := env + [map[]];
      VisibleOpen(env, map[], known);
      var env1 := StoreAll(true, env0, [key, val], [items[0].0, items[0].1]);
      if env1.Ok? {
        KeptStoreAll(true, env0, [key, val], [items[0].0, items[0].1], known);
        KeptVisible(env0, env1.value, known);
        SameScoped(p, needs, fuel, env1.value, body, known);
        var flow := ExecScoped(p, fuel, env1.value, body);
        if flow.Ok? {
          KeptTwice(env0, env1.value, flow.value.env, known, known);
          KeptOuter(env, [map[]], flow.value.env, known);
          var env2 := flow.value.env[..|env|];
          if flow.value.sig.Next? || flow.value.sig.Cont? {
            KeptVisible(env, env2, known);
            SameLoop(p, needs, fuel, env2, key, val, items[1..], body, known);
            var t := Loop(p, fuel, env2, key, val, items[1..], body);
            if t.Ok? { KeptTwice(env, env2, t.value.env, known, known); }
          }
        }
      }
    }
  }

  /// ## Conditionals

  ghost predicate FramesFit(c: Chain, fs: seq<Scope>, known: set<string>) {
    |fs| == Clauses(c) && forall i, x :: 0 <= i < |fs| && x in known && x in fs[i] ==> !fs[i][x].Nil?
  }

  lemma {:induction false} SameInits(p: Program, needs: Needs, fuel: nat, env: Scopes, c: Chain, known: set<string>)
    requires Ready(p, needs) && Visible(env, known) && SafeInits(needs, c, known)
    ensures InitFrames(Untyped(p), fuel, env, c) == InitFrames(p, fuel, env, c)
    ensures var fs := InitFrames(p, fuel, env, c); fs.Ok? ==> FramesFit(c, fs.value, known) && Named(c, fs.value)
    decreases fuel, c, 0
  {
    if c.Cond? {
      var env0 := env + [map[]];
      if c.init.Some? {
        VisibleOpen(env, map[], known);
        SameAssign(p, needs, fuel, env0, true, c.init.value, known);
        AssignNames(p, fuel, env, c.init.value);
      }
      var g := ExecInit(p, fuel, env, c.init);
      if g.Ok? {
        var env1 := g.value;
        if c.init.Some? {
          KeptVisible(env0, env1, known);
          assert KeptScope(env0[|env|], env1[|env|], known);
        }
        SameInits(p, needs, fuel, env1, c.rest, known);
      }
    }
  }

  /** Each scope binds only the targets of its initialiser. */
  predicate Named(c: Chain, fs: seq<Scope>) {
    c.Cond? ==>
      && fs != [] && fs[0].Keys <= (if c.init.Some? then set x | x in T.Targets(c.init.value) else {})
      && Named(c.rest, fs[1..])
  }

  lemma {:induction false} AssignNames(p: Program, fuel: nat, env: Scopes, a: Assign)
    ensures var r := ExecAssign(p, fuel, env + [map[]], true, a);
            r.Ok? ==> r.value[|env|].Keys <= set x | x in T.Targets(a)
  {
    var env0 := env + [map[]];
    match a
    case Single(x, e) =>
      var v := Eval(p, fuel, env0, e);
      if v.Ok? { DeclaredNames(env, map[], [x], [v.value]); }
    case Tuple(xs, es) =>
      var vs := EvalAll(p, fuel, env0, es);
      if vs.Ok? && |vs.value| == |xs| { DeclaredNames(env, map[], xs, vs.value); }
    case Multi(_, xs, rhs) =>
      var vs := EvalRhs(p, fuel, env0, rhs);
      if vs.Ok? && |vs.value| == |xs| { DeclaredNames(env, map[], xs, vs.value); }
  }

  lemma {:induction false} DeclaredNames(env: Scopes, scope: Scope, xs: seq<string>, vs: seq<Value>)
    requires |xs| == |vs|
    ensures var r := StoreAll(true, env + [scope], xs, vs); r.Ok? && r.value[|env|].Keys <= scope.Keys + set x | x in xs
    decreases |xs|
  {
    assert (env + [scope])[..|env|] == env;
    if xs != [] {
      var env1 := Store(true, env + [scope], xs[0], vs[0]).value;
      assert env1 == env + [env1[|env|]];
      DeclaredNames(env, env1[|env|], xs[1..], vs[1..]);
      assert (set x | x in xs) == {xs[0]} + set x | x in xs[1..];
    }
  }

  lemma {:induction false} SameChain(p: Program, needs: Needs, fuel: nat, env: Scopes, c: Chain, fs: seq<Scope>, known: set<string>)
    requires Ready(p, needs) && Visible(env, known) && SafeChain(needs, c, known) && FramesFit(c, fs, known) && Named(c, fs)
    ensures Both(env, known, ExecChain(p, fuel, env, c, fs), ExecChain(Untyped(p), fuel, env, c, fs))
    decreases fuel, c, 0
  {
    match c
    case Else(body) => SameScoped(p, needs, fuel, env, body, known);
    case Cond(init, cond, body, rest) =>
      var env1 := Enter(env, init, fs[0]);
      var inner: Scopes := if init.None? then [] else [fs[0]];
      assert env1 == env + inner;
      if init.Some? { VisibleOpen(env, fs[0], known); }
      SameExpr(p, needs, fuel, env1, cond, known);
      var b := Eval(p, fuel, env1, cond);
      if b.Ok? && b.value.Bool? {
        CondShows(p, fuel, env1, cond, b.value.b);
        var flow :=
          if b.value.b then ExecScoped(p, fuel, env1, body) else ExecChain(p, fuel, env1, rest, fs[1..]);
        if b.value.b {
          VisibleMore(env1, known, WhenTrue(cond));
          SameScoped(p, needs, fuel, env1, body, known + WhenTrue(cond));
          if flow.Ok? { KeptFewer(env1, flow.value.env, known + WhenTrue(cond), known); }
        } else {
          var more := known + (WhenFalse(cond) - InitTargets(rest));
          RestFits(rest, fs[1..], known, WhenFalse(cond));
          VisibleMore(env1, known, WhenFalse(cond) - InitTargets(rest));
          SameChain(p, needs, fuel, env1, rest, fs[1..], more);
          if flow.Ok? { KeptFewer(env1, flow.value.env, more, known); }
        }
        if flow.Ok? { KeptOuter(env, inner, flow.value.env, known); }
      }
  }

  lemma {:induction false} RestFits(c: Chain, fs: seq<Scope>, known: set<string>, shown: set<string>)
    requires FramesFit(c, fs, known) && Named(c, fs)
    ensures FramesFit(c, fs, known + (shown - InitTargets(c)))
  {
    forall i, x | 0 <= i < |fs| && x in known + (shown - InitTargets(c)) && x in fs[i] ensures !fs[i][x].Nil? {
      if x !in known { FrameTargets(c, fs, i); }
    }
  }

  lemma {:induction false} FrameTargets(c: Chain, fs: seq<Scope>, i: nat)
    requires |fs| == Clauses(c) && Named(c, fs) && i < |fs|
    ensures fs[i].Keys <= InitTargets(c)
  {
    if i > 0 { FrameTargets(c.rest, fs[1..], i - 1); }
  }

  /** A guard that leaves: past it, its condition was false. */
  lemma {:induction false} LearnedVisible(p: Program, fuel: nat, env: Scopes, s: Stmt, known: set<string>)
    requires p.eager && !p.untyped && env != [] && Visible(env, known) && Exec(p, fuel, env, s).Ok? && Exec(p, fuel, env, s).value.sig.Next?
    ensures Visible(Exec(p, fuel, env, s).value.env, Learned(s, known))
  {
    match s
    case AssignStmt(define, Single(x, e)) =>
      if x != BLANK && NonNil(e, known) {
        NonNilValue(p, fuel, env, e, known);
        var v := Eval(p, fuel, env, e).value;
        assert [x][1..] == [] && [v][1..] == [];
        assert StoreAll(define, env, [x], [v]) == Store(define, env, x, v);
        KeptStore(define, env, x, v, {});
      }
    case If(Cond(None, cond, body, Else(rest))) =>
      if Leaves(body) && rest == [] { GuardPassed(p, fuel, env, cond, body); }
    case _ =>
  }

  /** The signal of a guard whose condition holds is that of its body. */
  lemma {:induction false} BranchTaken(p: Program, fuel: nat, env: Scopes, cond: Expr, body: seq<Stmt>, frames: seq<Scope>)
    requires p.eager && |frames| == 1
    ensures var r, b := ExecChain(p, fuel, env, Cond(None, cond, body, Else([])), frames), Eval(p, fuel, env, cond);
            r.Ok? && b == Ok(Bool(true)) ==>
              var inner := ExecAll(p, fuel, env + [map[]], body);
              inner.Ok? && inner.value.sig == r.value.sig
  {
  }

  lemma {:induction false} GuardPassed(p: Program, fuel: nat, env: Scopes, cond: Expr, body: seq<Stmt>)
    requires p.eager && env != [] && Leaves(body)
    requires var r := Exec(p, fuel, env, If(Cond(None, cond, body, Else([])))); r.Ok? && r.value.sig.Next?
    ensures Visible(Exec(p, fuel, env, If(Cond(None, cond, body, Else([])))).value.env, WhenFalse(cond))
  {
    var c := Cond(None, cond, body, Else([]));
    var frames := InitFrames(p, fuel, env, c).value;
    assert Exec(p, fuel, env, If(c)) == ExecChain(p, fuel, env, c, frames);
    assert Enter(env, None, frames[0]) == env;
    var b := Eval(p, fuel, env, cond).value.b;
    BranchTaken(p, fuel, env, cond, body, frames);
    LeavesNotNext(p, fuel, env + [map[]], body);
    if !b {
      CondShows(p, fuel, env, cond, false);
      assert ExecAll(p, fuel, env + [map[]], []) == Ok(Flow(Next, env + [map[]]));
      assert (env + [map[]])[..|env|] == env && env[..|env|] == env;
      assert ExecScoped(p, fuel, env, []) == Ok(Flow(Next, env));
      assert ExecChain(p, fuel, env, Else([]), frames[1..]) == Ok(Flow(Next, env));
    }
  }

  lemma {:induction false} LeavesNotNext(p: Program, fuel: nat, env: Scopes, body: seq<Stmt>)
    requires env != [] && Leaves(body)
    ensures var r := ExecAll(p, fuel, env, body); r.Ok? ==> !r.value.sig.Next?
    decreases |body|
  {
    var r := Exec(p, fuel, env, body[0]);
    if r.Ok? && r.value.sig.Next? && |body| > 1 {
      LeavesNotNext(p, fuel, r.value.env, body[1..]);
    }
  }
}
