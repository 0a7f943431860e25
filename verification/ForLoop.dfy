/** Counted `for` statements: why ranging over the values of the loop variable does what they do. */
module ForLoop {
  import opened Wrappers
  import opened GoLang
  import C = CountedLoop
  import T = Transpile
  import EP = EagerProof
  import E = Emit
  import SP = ScopeProof
  import S = Simulation
  import opened HelmTemplate

  /// ## Syntax and meaning

  /** The right side of the condition: a variable, or a field of one. */
  datatype Bound = Name(y: string) | Selected(y: string, field: string, pointer: bool)

  /** `for x := init; x cmp bound; post { body }` */
  datatype For = For(x: string, init: Expr, cmp: C.Cmp, bound: Bound, post: C.Post, body: seq<Stmt>)

  function BoundExpr(b: Bound): Expr {
    match b
    case Name(y) => Var(y)
    case Selected(y, f, pointer) => Apply(Field(f, pointer), [Var(y)])
  }

  /** Turn by turn: the condition is read again before each turn, and the loop variable is stepped after it.  The
      innermost scope is the loop's; `turns` is how many conditions may be read. */
  function Turns(p: Program, fuel: nat, turns: nat, env: Scopes, l: For): (r: Res<Flow>)
    requires env != []
    ensures r.Ok? ==> |r.value.env| == |env|
    decreases turns
  {
    if turns == 0 then Timeout
    else
      var i :- Eval(p, fuel, env, Var(l.x));
      var b :- Eval(p, fuel, env, BoundExpr(l.bound));
      if !i.Num? || !b.Num? then Stuck
      else if !C.Test(l.cmp, i.n, b.n) then Ok(Flow(Next, env))
      else
        var flow :- ExecScoped(p, fuel, env, l.body);
        match flow.sig
        case Ret(_) => Ok(flow)
        case Brk => Ok(Flow(Next, flow.env))
        case _ =>
          var j :- Eval(p, fuel, flow.env, Var(l.x));
          if !j.Num? then Stuck
          else
            var env1 :- Store(false, flow.env, l.x, Num(j.n + C.Step(l.post)));
            Turns(p, fuel, turns - 1, env1, l)
  }

  function Close(r: Res<Flow>, n: nat): Res<Flow>
    requires r.Ok? ==> n <= |r.value.env|
  {
    var flow :- r;
    Ok(Flow(flow.sig, flow.env[..n]))
  }

  function ExecFor(p: Program, fuel: nat, turns: nat, env: Scopes, l: For): Res<Flow> {
    var env1 :- ExecAssign(p, fuel, env + [map[]], true, Single(l.x, l.init));
    Close(Turns(p, fuel, turns, env1, l), |env|)
  }

  /// ## What a statement assigns

  function Assigned(s: Stmt): set<string>
    decreases s, 0
  {
    match s
    case AssignStmt(_, a) => set x | x in T.Targets(a)
    case If(chain) => ChainAssigned(chain)
    case Range(key, val, _, body) => {key, val} + AllAssigned(body)
    case Block(body) => AllAssigned(body)
    case _ => {}
  }

  function AllAssigned(ss: seq<Stmt>): set<string>
    decreases ss, 0
  {
    if ss == [] then {} else Assigned(ss[0]) + AllAssigned(ss[1..])
  }

  function ChainAssigned(c: Chain): set<string>
    decreases c, 0
  {
    match c
    case Else(body) => AllAssigned(body)
    case Cond(init, _, body, rest) =>
      (if init.Some? then set x | x in T.Targets(init.value) else {}) + AllAssigned(body) + ChainAssigned(rest)
  }

  /** The body assigns neither the loop variable nor the bound's. */
  predicate Undisturbed(l: For) {
    l.x != BLANK && l.bound.y != l.x && l.x !in AllAssigned(l.body) && l.bound.y !in AllAssigned(l.body)
  }

  /** Only variables of `names` change from `a` to `b`, and only the innermost scope may declare new ones. */
  ghost predicate Changes(a: Scopes, b: Scopes, names: set<string>) {
    && |a| == |b|
    && (forall k :: 0 <= k < |a| - 1 ==> a[k].Keys == b[k].Keys)
    && (forall k :: 0 <= k < |a| ==> a[k].Keys <= b[k].Keys)
    && forall k, y :: 0 <= k < |a| && y in b[k] && y !in names ==> y in a[k] && a[k][y] == b[k][y]
  }

  /** As `Changes`, with no new variables at all. */
  ghost predicate Writes(a: Scopes, b: Scopes, names: set<string>) {
    && |a| == |b|
    && (forall k :: 0 <= k < |a| ==> a[k].Keys == b[k].Keys)
    && forall k, y :: 0 <= k < |a| && y in b[k] && y !in names ==> a[k][y] == b[k][y]
  }

  lemma {:induction false} ChangesTwice(a: Scopes, b: Scopes, c: Scopes, names: set<string>, more: set<string>)
    requires Changes(a, b, names) && Changes(b, c, more)
    ensures Changes(a, c, names + more)
  {
  }

  lemma {:induction false} WritesTwice(a: Scopes, b: Scopes, c: Scopes, names: set<string>)
    requires Writes(a, b, names) && Writes(b, c, names)
    ensures Writes(a, c, names)
  {
  }

  lemma {:induction false} WritesMore(a: Scopes, b: Scopes, names: set<string>, more: set<string>)
    requires Writes(a, b, names) && names <= more
    ensures Writes(a, b, more)
  {
  }

  lemma {:induction false} WritesChanges(a: Scopes, b: Scopes, names: set<string>)
    requires Writes(a, b, names)
    ensures Changes(a, b, names)
  {
    assert forall k :: 0 <= k < |a| ==> a[k].Keys == b[k].Keys;
  }

  /** Without the scopes that a block adds, it only writes. */
  lemma {:induction false} WritesOuter(env: Scopes, inner: Scope, b: Scopes, names: set<string>)
    requires Changes(env + [inner], b, names)
    ensures Writes(env, b[..|env|], names)
  {
    assert forall k :: 0 <= k < |env| ==> (env + [inner])[k] == env[k];
  }

  lemma {:induction false} ChangesUpdate(env: Scopes, x: string, v: Value)
    requires Update(env, x, v).Some?
    ensures Writes(env, Update(env, x, v).value, {x})
  {
    var n := |env| - 1;
    var r := Update(env, x, v).value;
    if x !in env[n] {
      ChangesUpdate(env[..n], x, v);
      WritesBelow(env[..n], Update(env[..n], x, v).value, env[n], {x});
      assert env == env[..n] + [env[n]];
    } else {
      assert forall k :: 0 <= k < n ==> r[k] == env[k];
    }
  }

  lemma {:induction false} WritesBelow(a: Scopes, b: Scopes, top: Scope, names: set<string>)
    requires Writes(a, b, names)
    ensures Writes(a + [top], b + [top], names)
  {
  }

  lemma {:induction false} ChangesStore(define: bool, env: Scopes, x: string, v: Value)
    requires env != [] && Store(define, env, x, v).Ok?
    ensures Changes(env, Store(define, env, x, v).value, {x})
  {
    if x != BLANK && !define { ChangesUpdate(env, x, v); }
  }

  lemma {:induction false} ChangesStoreAll(define: bool, env: Scopes, xs: seq<string>, vs: seq<Value>)
    requires env != [] && |xs| == |vs| && StoreAll(define, env, xs, vs).Ok?
    ensures Changes(env, StoreAll(define, env, xs, vs).value, set x | x in xs)
    decreases |xs|
  {
    if xs != [] {
      var env1 := Store(define, env, xs[0], vs[0]).value;
      ChangesStore(define, env, xs[0], vs[0]);
      ChangesStoreAll(define, env1, xs[1..], vs[1..]);
      ChangesTwice(env, env1, StoreAll(define, env, xs, vs).value, {xs[0]}, set x | x in xs[1..]);
      assert (set x | x in xs) == {xs[0]} + set x | x in xs[1..];
    }
  }

  lemma {:induction false} ChangesAssign(p: Program, fuel: nat, env: Scopes, define: bool, a: Assign)
    requires env != [] && ExecAssign(p, fuel, env, define, a).Ok?
    ensures Changes(env, ExecAssign(p, fuel, env, define, a).value, set x | x in T.Targets(a))
  {
    match a
    case Single(x, e) => ChangesStoreAll(define, env, [x], [Eval(p, fuel, env, e).value]);
    case Tuple(xs, es) => ChangesStoreAll(define, env, xs, EvalAll(p, fuel, env, es).value);
    case Multi(_, xs, rhs) => ChangesStoreAll(define, env, xs, EvalRhs(p, fuel, env, rhs).value);
  }

  lemma {:induction false} ExecChanges(p: Program, fuel: nat, env: Scopes, s: Stmt)
    requires env != [] && Exec(p, fuel, env, s).Ok?
    ensures Changes(env, Exec(p, fuel, env, s).value.env, Assigned(s))
    decreases s, 0
  {
    match s
    case AssignStmt(define, a) => ChangesAssign(p, fuel, env, define, a);
    case If(chain) =>
      var frames := if p.eager then InitFrames(p, fuel, env, chain).value else [];
      ChainWrites(p, fuel, env, chain, frames);
      WritesChanges(env, Exec(p, fuel, env, s).value.env, Assigned(s));
    case Range(key, val, over, body) =>
      var items := Items(Eval(p, fuel, env, over).value).value;
      LoopWrites(p, fuel, env, key, val, items, body);
      WritesChanges(env, Exec(p, fuel, env, s).value.env, AllAssigned(body));
    case Block(body) =>
      ScopedWrites(p, fuel, env, body);
      WritesChanges(env, Exec(p, fuel, env, s).value.env, Assigned(s));
    case _ =>
  }

  lemma {:induction false} AllChanges(p: Program, fuel: nat, env: Scopes, ss: seq<Stmt>)
    requires env != [] && ExecAll(p, fuel, env, ss).Ok?
    ensures Changes(env, ExecAll(p, fuel, env, ss).value.env, AllAssigned(ss))
    decreases ss, 0
  {
    if ss != [] {
      var flow := Exec(p, fuel, env, ss[0]).value;
      ExecChanges(p, fuel, env, ss[0]);
      if flow.sig.Next? {
        AllChanges(p, fuel, flow.env, ss[1..]);
        ChangesTwice(env, flow.env, ExecAll(p, fuel, flow.env, ss[1..]).value.env, Assigned(ss[0]), AllAssigned(ss[1..]));
      }
    }
  }

  lemma {:induction false} ScopedWrites(p: Program, fuel: nat, env: Scopes, ss: seq<Stmt>)
    requires ExecScoped(p, fuel, env, ss).Ok?
    ensures Writes(env, ExecScoped(p, fuel, env, ss).value.env, AllAssigned(ss))
    decreases ss, 1
  {
    AllChanges(p, fuel, env + [map[]], ss);
    WritesOuter(env, map[], ExecAll(p, fuel, env + [map[]], ss).value.env, AllAssigned(ss));
  }

  lemma {:induction false} LoopWrites(p: Program, fuel: nat, env: Scopes, key: string, val: string,
                                      items: seq<(Value, Value)>, body: seq<Stmt>)
    requires Loop(p, fuel, env, key, val, items, body).Ok?
    ensures Writes(env, Loop(p, fuel, env, key, val, items, body).value.env, AllAssigned(body))
    decreases body, 2, |items|
  {
    if items != [] {
      EP.DeclareAbove(env, map[], [key, val], [items[0].0, items[0].1]);
      var env1 := StoreAll(true, env + [map[]], [key, val], [items[0].0, items[0].1]).value;
      var flow := ExecScoped(p, fuel, env1, body).value;
      ScopedWrites(p, fuel, env1, body);
      var env2 := flow.env[..|env|];
      assert Writes(env, env2, AllAssigned(body)) by { assert forall k :: 0 <= k < |env| ==> env1[k] == env1[..|env|][k] == env[k]; }
      if !flow.sig.Ret? && !flow.sig.Brk? {
        LoopWrites(p, fuel, env2, key, val, items[1..], body);
        WritesTwice(env, env2, Loop(p, fuel, env2, key, val, items[1..], body).value.env, AllAssigned(body));
      }
    }
  }

  lemma {:induction false} ChainWrites(p: Program, fuel: nat, env: Scopes, c: Chain, frames: seq<Scope>)
    requires (p.eager ==> |frames| == Clauses(c)) && ExecChain(p, fuel, env, c, frames).Ok?
    ensures Writes(env, ExecChain(p, fuel, env, c, frames).value.env, ChainAssigned(c))
    decreases c, 0
  {
    match c
    case Else(body) => ScopedWrites(p, fuel, env, body);
    case Cond(init, cond, body, rest) =>
      EP.InitAbove(p, fuel, env, init);
      var env1 := (if p.eager then Ok(Enter(env, init, frames[0])) else ExecInit(p, fuel, env, init)).value;
      assert env1[..|env|] == env;
      var b := Eval(p, fuel, env1, cond).value.b;
      var r := if b then ExecScoped(p, fuel, env1, body) else ExecChain(p, fuel, env1, rest, if p.eager then frames[1..] else []);
      if b {
        ScopedWrites(p, fuel, env1, body);
        WritesMore(env1, r.value.env, AllAssigned(body), ChainAssigned(c));
      } else {
        ChainWrites(p, fuel, env1, rest, if p.eager then frames[1..] else []);
        WritesMore(env1, r.value.env, ChainAssigned(rest), ChainAssigned(c));
      }
      assert forall k :: 0 <= k < |env| ==> env1[k] == env1[..|env|][k];
  }

  lemma {:induction false} WritesLookup(a: Scopes, b: Scopes, names: set<string>, y: string)
    requires Writes(a, b, names) && y !in names
    ensures Lookup(a, y) == Lookup(b, y)
  {
    if a != [] {
      var n := |a| - 1;
      assert a[n].Keys == b[n].Keys;
      if y !in a[n] {
        assert forall k :: 0 <= k < n ==> a[..n][k] == a[k] && b[..n][k] == b[k];
        WritesLookup(a[..n], b[..n], names, y);
      }
    }
  }

  /// ## Ranging over the values

  /** The bound has the value `b`. */
  predicate BoundIs(p: Program, fuel: nat, env: Scopes, l: For, b: int) {
    Eval(p, fuel, env, BoundExpr(l.bound)) == Ok(Num(b))
  }

  lemma {:induction false} BoundKept(p: Program, fuel: nat, a: Scopes, b: Scopes, l: For)
    requires Lookup(a, l.bound.y) == Lookup(b, l.bound.y)
    ensures Eval(p, fuel, a, BoundExpr(l.bound)) == Eval(p, fuel, b, BoundExpr(l.bound))
  {
    if l.bound.Selected? {
      ReadsOne(p, fuel, a, l.bound.y);
      ReadsOne(p, fuel, b, l.bound.y);
    }
  }

  lemma {:induction false} ReadsOne(p: Program, fuel: nat, env: Scopes, y: string)
    ensures EvalAll(p, fuel, env, [Var(y)]) == match Lookup(env, y) case Some(v) => Ok([v]) case None => Stuck
  {
    assert [Var(y)][1..] == [] && EvalAll(p, fuel, env, []) == Ok([]);
    if Lookup(env, y).Some? { assert [Lookup(env, y).value] + [] == [Lookup(env, y).value]; }
  }

  /** The loop's scope above `env`. */
  function Above(env: Scopes, l: For, i: int): Scopes {
    env + [map[l.x := Num(i)]]
  }

  lemma {:induction false} AboveReads(p: Program, fuel: nat, env: Scopes, l: For, i: int, b: int)
    requires Undisturbed(l) && BoundIs(p, fuel, env, l, b)
    ensures Eval(p, fuel, Above(env, l, i), Var(l.x)) == Ok(Num(i)) && BoundIs(p, fuel, Above(env, l, i), l, b)
  {
    assert Above(env, l, i)[..|env|] == env;
    BoundKept(p, fuel, env, Above(env, l, i), l);
  }

  /** What a turn leaves: the loop's scope as it was, and the bound. */
  lemma {:induction false} TurnKeeps(p: Program, fuel: nat, env: Scopes, l: For, i: int, b: int)
    requires Undisturbed(l) && BoundIs(p, fuel, env, l, b) && ExecScoped(p, fuel, Above(env, l, i), l.body).Ok?
    ensures var r := ExecScoped(p, fuel, Above(env, l, i), l.body).value.env;
            |r| == |env| + 1 && r == Above(r[..|env|], l, i) && BoundIs(p, fuel, r[..|env|], l, b)
  {
    var env1, r := Above(env, l, i), ExecScoped(p, fuel, Above(env, l, i), l.body).value.env;
    ScopedWrites(p, fuel, env1, l.body);
    var n := |env|;
    assert r[n].Keys == env1[n].Keys == {l.x} && r[n][l.x] == env1[n][l.x];
    assert r[n] == map[l.x := Num(i)];
    assert r == r[..n] + [r[n]];
    assert Writes(env, r[..n], AllAssigned(l.body)) by { assert forall k :: 0 <= k < n ==> env1[k] == env[k] && r[..n][k] == r[k]; }
    WritesLookup(env, r[..n], AllAssigned(l.body), l.bound.y);
    BoundKept(p, fuel, env, r[..n], l);
  }

  lemma {:induction false} Steps(env: Scopes, l: For, i: int, j: int)
    requires l.x != BLANK
    ensures Store(false, Above(env, l, i), l.x, Num(j)) == Ok(Above(env, l, j))
  {
    assert Above(env, l, i)[..|env|] == env;
    assert map[l.x := Num(i)][l.x := Num(j)] == map[l.x := Num(j)];
  }

  lemma {:induction false} ItemScope(env: Scopes, l: For, k: Value, i: int)
    requires l.x != BLANK
    ensures StoreAll(true, env + [map[]], [BLANK, l.x], [k, Num(i)]) == Ok(Above(env, l, i))
  {
    assert [BLANK, l.x][1..] == [l.x] && [k, Num(i)][1..] == [Num(i)];
    Declares(env, l, i);
  }

  lemma {:induction false} Declares(env: Scopes, l: For, i: int)
    requires l.x != BLANK
    ensures StoreAll(true, env + [map[]], [l.x], [Num(i)]) == Ok(Above(env, l, i))
  {
    assert [l.x][1..] == [] && [Num(i)][1..] == [];
    assert (env + [map[]])[..|env|] == env;
  }

  predicate Carries(items: seq<(Value, Value)>, ns: seq<int>) {
    |items| == |ns| && forall k :: 0 <= k < |ns| ==> items[k].1 == Num(ns[k])
  }

  /** One turn of the loop. */
  lemma {:induction false} TurnIs(p: Program, fuel: nat, turns: nat, env: Scopes, l: For, i: int, b: int)
    requires Undisturbed(l) && BoundIs(p, fuel, env, l, b) && turns > 0
    ensures var r, flow := Turns(p, fuel, turns, Above(env, l, i), l), ExecScoped(p, fuel, Above(env, l, i), l.body);
            if !C.Test(l.cmp, i, b) then r == Ok(Flow(Next, Above(env, l, i)))
            else if !flow.Ok? || flow.value.sig.Ret? then r == flow
            else if flow.value.sig.Brk? then r == Ok(Flow(Next, flow.value.env))
            else r == Turns(p, fuel, turns - 1, Above(flow.value.env[..|env|], l, i + C.Step(l.post)), l)
  {
    AboveReads(p, fuel, env, l, i, b);
    var flow := ExecScoped(p, fuel, Above(env, l, i), l.body);
    if flow.Ok? {
      TurnKeeps(p, fuel, env, l, i, b);
      var env2 := flow.value.env[..|env|];
      AboveReads(p, fuel, env2, l, i, b);
      Steps(env2, l, i, i + C.Step(l.post));
    }
    hide ExecScoped, Eval, Store, Above, C.Step, C.Test;
  }

  /** One item of the range. */
  lemma {:induction false} ItemIs(p: Program, fuel: nat, env: Scopes, l: For, i: int, items: seq<(Value, Value)>)
    requires l.x != BLANK && items != [] && items[0].1 == Num(i)
    ensures var r, flow := Loop(p, fuel, env, BLANK, l.x, items, l.body), ExecScoped(p, fuel, Above(env, l, i), l.body);
            if !flow.Ok? then r == flow
            else if flow.value.sig.Ret? then r == Ok(Flow(flow.value.sig, flow.value.env[..|env|]))
            else if flow.value.sig.Brk? then r == Ok(Flow(Next, flow.value.env[..|env|]))
            else r == Loop(p, fuel, flow.value.env[..|env|], BLANK, l.x, items[1..], l.body)
  {
    ItemScope(env, l, items[0].0, i);
    hide ExecScoped, StoreAll;
  }

  lemma {:induction false} TurnsLoop(p: Program, fuel: nat, turns: nat, env: Scopes, l: For, i: int, b: int,
                                     ns: seq<int>, items: seq<(Value, Value)>)
    requires Undisturbed(l) && BoundIs(p, fuel, env, l, b)
    requires C.GoValues(l.cmp, C.Step(l.post), i, b) == Some(ns) && Carries(items, ns) && turns > |ns|
    ensures Close(Turns(p, fuel, turns, Above(env, l, i), l), |env|) == Loop(p, fuel, env, BLANK, l.x, items, l.body)
    decreases turns
  {
    hide ExecScoped, Turns, Loop, Above, Close, BoundIs, Undisturbed, Carries, C.GoValues, C.Step, C.Test;
    ValuesStep(l, i, b, ns, items);
    var flow := ExecScoped(p, fuel, Above(env, l, i), l.body);
    if ns != [] && flow.Ok? && !flow.value.sig.Ret? && !flow.value.sig.Brk? {
      TurnKeeps(p, fuel, env, l, i, b);
      TurnsLoop(p, fuel, turns - 1, flow.value.env[..|env|], l, i + C.Step(l.post), b, ns[1..], items[1..]);
    }
    TurnThenRest(p, fuel, turns, env, l, i, b, items);
  }

  /** One turn and one item, when what follows them agrees. */
  lemma {:induction false} TurnThenRest(p: Program, fuel: nat, turns: nat, env: Scopes, l: For, i: int, b: int, items: seq<(Value, Value)>)
    requires Undisturbed(l) && BoundIs(p, fuel, env, l, b) && turns > 0
    requires if C.Test(l.cmp, i, b) then items != [] && items[0].1 == Num(i) else items == []
    requires var flow := ExecScoped(p, fuel, Above(env, l, i), l.body);
             C.Test(l.cmp, i, b) && flow.Ok? && !flow.value.sig.Ret? && !flow.value.sig.Brk? ==>
               var env1 := flow.value.env[..|env|];
               Close(Turns(p, fuel, turns - 1, Above(env1, l, i + C.Step(l.post)), l), |env1|)
               == Loop(p, fuel, env1, BLANK, l.x, items[1..], l.body)
    ensures Close(Turns(p, fuel, turns, Above(env, l, i), l), |env|) == Loop(p, fuel, env, BLANK, l.x, items, l.body)
  {
    assert l.x != BLANK;
    TurnIs(p, fuel, turns, env, l, i, b);
    AboveLength(env, l, i);
    hide ExecScoped, Turns, Loop, Above, Close, BoundIs, Undisturbed, C.Step, C.Test;
    if C.Test(l.cmp, i, b) {
      ItemIs(p, fuel, env, l, i, items);
      var flow := ExecScoped(p, fuel, Above(env, l, i), l.body);
      if !flow.Ok? || flow.value.sig.Ret? || flow.value.sig.Brk? {
        LeavesAlike(Turns(p, fuel, turns, Above(env, l, i), l), Loop(p, fuel, env, BLANK, l.x, items, l.body), flow, |env|);
      }
    } else {
      NoTurn(p, fuel, env, l, i);
    }
  }

  lemma {:induction false} AboveLength(env: Scopes, l: For, i: int)
    ensures |Above(env, l, i)| == |env| + 1
  {
  }

  lemma {:induction false} NoTurn(p: Program, fuel: nat, env: Scopes, l: For, i: int)
    ensures Loop(p, fuel, env, BLANK, l.x, [], l.body) == Close(Ok(Flow(Next, Above(env, l, i))), |env|) == Ok(Flow(Next, env))
  {
    assert Above(env, l, i)[..|env|] == env;
  }

  /** A turn that is the last one. */
  lemma {:induction false} LeavesAlike(r: Res<Flow>, s: Res<Flow>, flow: Res<Flow>, n: nat)
    requires flow.Ok? ==> n <= |flow.value.env| && (flow.value.sig.Ret? || flow.value.sig.Brk?)
    requires if !flow.Ok? || flow.value.sig.Ret? then r == flow else r == Ok(Flow(Next, flow.value.env))
    requires if !flow.Ok? then s == flow
             else s == Ok(Flow(if flow.value.sig.Ret? then flow.value.sig else Next, flow.value.env[..n]))
    ensures Close(r, n) == s
  {
  }

  lemma {:induction false} ValuesStep(l: For, i: int, b: int, ns: seq<int>, items: seq<(Value, Value)>)
    requires C.GoValues(l.cmp, C.Step(l.post), i, b) == Some(ns) && Carries(items, ns)
    ensures |items| == |ns| && (ns != [] <==> C.Test(l.cmp, i, b))
    ensures ns != [] ==> items[0].1 == Num(i)
    ensures ns != [] ==> C.GoValues(l.cmp, C.Step(l.post), i + C.Step(l.post), b) == Some(ns[1..]) && Carries(items[1..], ns[1..])
  {
    if C.Test(l.cmp, i, b) {
      var more := C.GoValues(l.cmp, C.Step(l.post), i + C.Step(l.post), b).value;
      assert ns == [i] + more && ns[1..] == more;
    }
  }

  /** Expressions only read variables. */
  lemma {:induction false} SameReads(p: Program, fuel: nat, a: Scopes, b: Scopes, e: Expr)
    requires forall x :: Lookup(a, x) == Lookup(b, x)
    ensures Eval(p, fuel, a, e) == Eval(p, fuel, b, e)
    decreases e, 0
  {
    match e
    case Lit(_) =>
    case Var(_) =>
    case Apply(_, args) => AllSameReads(p, fuel, a, b, args);
    case And(left, right) =>
      SameReads(p, fuel, a, b, left);
      SameReads(p, fuel, a, b, right);
    case Or(left, right) =>
      SameReads(p, fuel, a, b, left);
      SameReads(p, fuel, a, b, right);
    case FuncRef(_) =>
    case MethodRef(_, recv, _) => SameReads(p, fuel, a, b, recv);
    case Call(call) =>
      AllSameReads(p, fuel, a, b, call.args);
      match call.callee {
        case Static(_) =>
        case Method(_, recv, _) => SameReads(p, fuel, a, b, recv);
        case FuncValue(f) => SameReads(p, fuel, a, b, f);
      }
      assert Target(p, fuel, a, call) == Target(p, fuel, b, call);
      assert EvalCall(p, fuel, a, call) == EvalCall(p, fuel, b, call);
  }

  lemma {:induction false} AllSameReads(p: Program, fuel: nat, a: Scopes, b: Scopes, es: seq<Expr>)
    requires forall x :: Lookup(a, x) == Lookup(b, x)
    ensures EvalAll(p, fuel, a, es) == EvalAll(p, fuel, b, es)
    decreases es, 0
  {
    if es != [] {
      SameReads(p, fuel, a, b, es[0]);
      AllSameReads(p, fuel, a, b, es[1..]);
    }
  }

  /** The range that a `for` is translated as.  It reads the bound once, from the expression `decl` that declared it. */
  function AsRange(l: For, decl: Expr): Stmt {
    Range(BLANK, l.x, Apply(Counted(l.cmp, l.post), [l.init, decl]), l.body)
  }

  /** A `for` whose body assigns neither its variable nor its bound, and whose bound still has the value of its
      declaration, ranges over what its variable runs through. */
  lemma {:induction false} ForIsRange(p: Program, fuel: nat, turns: nat, env: Scopes, l: For, decl: Expr, a: int, b: int, ns: seq<int>)
    requires env != [] && Undisturbed(l) && (p.untyped ==> C.Agrees(l.cmp, l.post, a, b))
    requires Eval(p, fuel, env, l.init) == Ok(Num(a))
    requires BoundIs(p, fuel, env, l, b) && Eval(p, fuel, env, decl) == Ok(Num(b))
    requires C.GoValues(l.cmp, C.Step(l.post), a, b) == Some(ns) && turns > |ns|
    ensures ExecFor(p, fuel, turns, env, l) == Exec(p, fuel, env, AsRange(l, decl))
  {
    var env0, list := env + [map[]], List(Nums(ns));
    assert env0[..|env|] == env;
    SameReads(p, fuel, env, env0, l.init);
    Declares(env, l, a);
    assert ExecAssign(p, fuel, env0, true, Single(l.x, l.init)) == Ok(Above(env, l, a));
    EvalCounted(p, fuel, env, l, decl, a, b, ns);
    var items := Items(list).value;
    assert Carries(items, ns);
    TurnsLoop(p, fuel, turns, env, l, a, b, ns, items);
  }

  lemma {:induction false} EvalCounted(p: Program, fuel: nat, env: Scopes, l: For, decl: Expr, a: int, b: int, ns: seq<int>)
    requires (p.untyped ==> C.Agrees(l.cmp, l.post, a, b)) && Eval(p, fuel, env, l.init) == Ok(Num(a)) && Eval(p, fuel, env, decl) == Ok(Num(b))
    requires C.GoValues(l.cmp, C.Step(l.post), a, b) == Some(ns)
    ensures Eval(p, fuel, env, Apply(Counted(l.cmp, l.post), [l.init, decl])) == Ok(List(Nums(ns)))
  {
    var es := [l.init, decl];
    assert es[1..] == [decl] && [decl][1..] == [] && EvalAll(p, fuel, env, []) == Ok([]);
    assert EvalAll(p, fuel, env, [decl]) == Ok([Num(b)] + []);
    assert [Num(b)] + [] == [Num(b)] && [Num(a)] + [Num(b)] == [Num(a), Num(b)];
    assert EvalAll(p, fuel, env, es) == Ok([Num(a), Num(b)]);
    C.CountedLoopIff(l.cmp, l.post, a, b);
  }

  /// ## The translation

  function TranspileFor(l: For, decl: Expr): E.Node {
    E.Range(BLANK, l.x, T.UntilStep(l.cmp, l.post, T.TranspileExpr(l.init), T.TranspileExpr(decl)), E.Block(T.TranspileStatements(l.body)))
  }

  /** The template of a `for` runs its body as Go does, with every `break`, `continue` and `return`, when `untilStep` counts
      like the loop. */
  lemma {:induction false} SimFor(p: Program, fuel: nat, turns: nat, env: Scopes, vars: seq<Binding>, marks: seq<nat>, l: For, decl: Expr,
               a: int, b: int, ns: seq<int>)
    requires S.Good(p) && T.GoodName(l.x) && T.GoodStmts(l.body, SP.Names(env) + {BLANK, l.x})
    requires SP.Rel(env, vars, marks) && FindVar(vars, E.FLAG) == Some(JBool(false))
    requires env != [] && Undisturbed(l) && C.Agrees(l.cmp, l.post, a, b)
    requires Eval(p, fuel, env, l.init) == Ok(Num(a)) && BoundIs(p, fuel, env, l, b) && Eval(p, fuel, env, decl) == Ok(Num(b))
    requires C.GoValues(l.cmp, C.Step(l.post), a, b) == Some(ns) && turns > |ns|
    ensures S.StmtHolds(env, marks, {}, ExecFor(p, fuel, turns, env, l),
                        TExecAll(S.Defs(p), fuel, vars, E.Meaning(TranspileFor(l, decl))))
  {
    ForIsRange(p, fuel, turns, env, l, decl, a, b, ns);
    TranslatedRange(l, decl);
    S.SimStmt(p, fuel, env, vars, marks, AsRange(l, decl), SP.Names(env));
  }

  lemma {:induction false} TranslatedRange(l: For, decl: Expr)
    ensures T.TranspileStatement(AsRange(l, decl)) == TranspileFor(l, decl)
  {
    var es := [l.init, decl];
    assert es[1..] == [decl] && [decl][1..] == [];
    assert T.TranspileExprs(es) == [T.TranspileExpr(l.init)] + ([T.TranspileExpr(decl)] + []);
    assert [T.TranspileExpr(l.init)] + ([T.TranspileExpr(decl)] + []) == [T.TranspileExpr(l.init), T.TranspileExpr(decl)];
  }
}
