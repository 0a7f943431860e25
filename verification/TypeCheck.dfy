/** What Go's type checker asks of a source, and the proof that the runs of a source it accepts are never stuck. */
module TypeCheck {
  import opened Wrappers
  import opened GoLang
  import T = Transpile

  /// ## Types

  datatype Type =
    | TNum
    | TStr
    | TBool
    | TAny
    | TList(elem: Type)
    | TMap(elem: Type)
    | TStruct(name: string)
    | TPointer(name: string)
    | TFunc(params: seq<Type>, results: seq<Type>)

  datatype Sig = Sig(params: seq<Type>, results: seq<Type>)

  /** The struct types and the functions of a package. */
  datatype Table = Table(structs: map<string, map<string, Type>>, sigs: map<string, Sig>)

  /** The types of the variables, scope by scope. */
  type Types = seq<map<string, Type>>

  predicate Basic(t: Type) {
    t.TNum? || t.TStr? || t.TBool?
  }

  predicate Nilable(t: Type) {
    t.TAny? || t.TList? || t.TMap? || t.TPointer? || t.TFunc?
  }

  /** A value of the type. */
  ghost predicate Has(tab: Table, v: Value, t: Type)
    decreases v, 0
  {
    match t
    case TNum => v.Num?
    case TStr => v.Str?
    case TBool => v.Bool?
    case TAny => true
    case TList(e) => v.Nil? || (v.List? && forall i :: 0 <= i < |v.elems| ==> Has(tab, v.elems[i], e))
    case TMap(e) => v.Nil? || (v.Map? && forall i :: 0 <= i < |v.entries| ==> Has(tab, v.entries[i].value, e))
    case TStruct(n) => v.Map? && n in tab.structs && HasFields(tab, v.entries, tab.structs[n])
    case TPointer(n) => v.Nil? || (v.Map? && n in tab.structs && HasFields(tab, v.entries, tab.structs[n]))
    case TFunc(ps, rs) =>
      v.Nil? || (v.Func? && v.name in tab.sigs && |v.captured| <= |tab.sigs[v.name].params|
                 && tab.sigs[v.name].params[|v.captured|..] == ps && tab.sigs[v.name].results == rs
                 && forall i :: 0 <= i < |v.captured| ==> Has(tab, v.captured[i], tab.sigs[v.name].params[i]))
  }

  ghost predicate HasFields(tab: Table, entries: seq<Entry>, fields: map<string, Type>)
    decreases entries, 1
  {
    && (forall f :: f in fields ==> Get(entries, f).Some?)
    && forall i :: 0 <= i < |entries| && entries[i].key in fields ==> Has(tab, entries[i].value, fields[entries[i].key])
  }

  ghost predicate AllHave(tab: Table, vs: seq<Value>, ts: seq<Type>) {
    |vs| == |ts| && forall i :: 0 <= i < |vs| ==> Has(tab, vs[i], ts[i])
  }

  /// ## Expressions

  function TypeOf(g: Types, x: string): Option<Type> {
    if g == [] then None
    else if x in g[|g| - 1] then Some(g[|g| - 1][x])
    else TypeOf(g[..|g| - 1], x)
  }

  /** The types of an operation's operands and of its result. */
  ghost predicate Signature(tab: Table, op: Op, ts: seq<Type>, t: Type) {
    match op
    case Add => ts == [TNum, TNum] && t.TNum?
    case Sub => ts == [TNum, TNum] && t.TNum?
    case Mul => ts == [TNum, TNum] && t.TNum?
    case Less => ts == [TNum, TNum] && t.TBool?
    case LessEq => ts == [TNum, TNum] && t.TBool?
    case Concat => ts == [TStr, TStr] && t.TStr?
    case Equal => |ts| == 2 && Basic(ts[0]) && ts[1] == ts[0] && t.TBool?
    case NotEqual => |ts| == 2 && Basic(ts[0]) && ts[1] == ts[0] && t.TBool?
    case Not => ts == [TBool] && t.TBool?
    case IsNil => |ts| == 1 && Nilable(ts[0]) && t.TBool?
    case NotNil => |ts| == 1 && Nilable(ts[0]) && t.TBool?
    case Len => |ts| == 1 && (ts[0].TStr? || ts[0].TList? || ts[0].TMap?) && t.TNum?
    case Append => ts != [] && ts[0].TList? && (forall i :: 0 < i < |ts| ==> ts[i] == ts[0].elem) && t == ts[0]
    case AppendSpread => |ts| == 2 && ts[0].TList? && ts[1] == ts[0] && t == ts[0]
    case Index => |ts| == 2 && ts[0] == TList(t) && ts[1].TNum?
    case MapIndex => |ts| == 2 && ts[0] == TMap(t) && ts[1].TStr? && Nilable(t)
    case MapGet(zero) => |ts| == 2 && ts[0] == TMap(t) && ts[1].TStr? && Has(tab, zero, t)
    case Field(f, pointer) =>
      && |ts| == 1 && (if pointer then ts[0].TPointer? else ts[0].TStruct?)
      && ts[0].name in tab.structs && f in tab.structs[ts[0].name] && t == tab.structs[ts[0].name][f]
    case Deref => |ts| == 1 && ts[0].TPointer? && t == TStruct(ts[0].name)
    case MakeList => t.TList? && forall i :: 0 <= i < |ts| ==> ts[i] == t.elem
    case MakeMap(keys) =>
      && |keys| == |ts|
      && (if t.TMap? then forall i :: 0 <= i < |ts| ==> ts[i] == t.elem
          else (t.TStruct? || t.TPointer?) && t.name in tab.structs && Fills(keys, ts, tab.structs[t.name]))
    case CmpOr => ts != [] && Basic(t) && forall i :: 0 <= i < |ts| ==> ts[i] == t
    case Counted(_, _) => ts == [TNum, TNum] && t == TList(TNum)
    case Fail => true
  }

  /** A literal with all the fields of a struct and no others. */
  ghost predicate Fills(keys: seq<string>, ts: seq<Type>, fields: map<string, Type>)
    requires |keys| == |ts|
  {
    && (forall f :: f in fields ==> f in keys)
    && forall i :: 0 <= i < |keys| ==> keys[i] in fields && ts[i] == fields[keys[i]]
  }

  /** What a method with a receiver of type `param` takes: Go takes addresses and dereferences by itself. */
  predicate Receives(kind: Receiver, u: Type, param: Type) {
    match kind
    case ByValue => u == param
    case ByPointer => param.TPointer? && (u == param || u == TStruct(param.name))
    case Through => u.TPointer? && param == TStruct(u.name)
  }

  /** Anything may be used as an `any`. */
  ghost predicate Typed(tab: Table, g: Types, e: Expr, t: Type)
    decreases e, 2
  {
    Exact(tab, g, e, t) || (t.TAny? && exists u :: Exact(tab, g, e, u))
  }

  ghost predicate Exact(tab: Table, g: Types, e: Expr, t: Type)
    decreases e, 1
  {
    match e
    case Lit(v) => Has(tab, v, t)
    case Var(x) => TypeOf(g, x) == Some(t)
    case Apply(op, args) => exists ts :: AllTyped(tab, g, args, ts) && Signature(tab, op, ts, t)
    case And(left, right) => t.TBool? && Typed(tab, g, left, TBool) && Typed(tab, g, right, TBool)
    case Or(left, right) => t.TBool? && Typed(tab, g, left, TBool) && Typed(tab, g, right, TBool)
    case FuncRef(f) => f in tab.sigs && t == TFunc(tab.sigs[f].params, tab.sigs[f].results)
    case MethodRef(f, recv, kind) =>
      && f in tab.sigs && tab.sigs[f].params != [] && t == TFunc(tab.sigs[f].params[1..], tab.sigs[f].results)
      && exists u :: Typed(tab, g, recv, u) && Receives(kind, u, tab.sigs[f].params[0])
    case Call(call) => Calls(tab, g, call, [t])
  }

  ghost predicate AllTyped(tab: Table, g: Types, es: seq<Expr>, ts: seq<Type>)
    decreases es, 0
  {
    |es| == |ts| && (es != [] ==> Typed(tab, g, es[0], ts[0]) && AllTyped(tab, g, es[1..], ts[1..]))
  }

  /** A call with results of these types. */
  ghost predicate Calls(tab: Table, g: Types, c: Invocation, rs: seq<Type>)
    decreases c, 1
  {
    match c.callee
    case Static(f) => f in tab.sigs && tab.sigs[f].results == rs && AllTyped(tab, g, c.args, tab.sigs[f].params)
    case Method(f, recv, kind) =>
      && f in tab.sigs && tab.sigs[f].results == rs && tab.sigs[f].params != [] && AllTyped(tab, g, c.args, tab.sigs[f].params[1..])
      && exists u :: Typed(tab, g, recv, u) && Receives(kind, u, tab.sigs[f].params[0])
    case FuncValue(e) => exists ps :: Typed(tab, g, e, TFunc(ps, rs)) && AllTyped(tab, g, c.args, ps)
  }

  /// ## Statements

  /** The types after the variables were declared, or assigned to. */
  function Declared(g: Types, define: bool, xs: seq<string>, ts: seq<Type>): (r: Option<Types>)
    ensures r.Some? && g != [] ==> |r.value| == |g| && r.value[..|g| - 1] == g[..|g| - 1]
    ensures r.Some? && !define ==> r.value == g
    decreases |xs|
  {
    if |xs| != |ts| || g == [] then None
    else if xs == [] then Some(g)
    else if xs[0] == BLANK then Declared(g, define, xs[1..], ts[1..])
    else if define then
      var top := g[|g| - 1];
      if xs[0] in top && top[xs[0]] != ts[0] then None
      else Declared(g[..|g| - 1] + [top[xs[0] := ts[0]]], define, xs[1..], ts[1..])
    else if TypeOf(g, xs[0]) == Some(ts[0]) then Declared(g, define, xs[1..], ts[1..])
    else None
  }

  ghost predicate AssignTyped(tab: Table, g: Types, a: Assign, ts: seq<Type>) {
    match a
    case Single(_, e) => |ts| == 1 && Typed(tab, g, e, ts[0])
    case Tuple(_, es) => AllTyped(tab, g, es, ts)
    case Multi(_, _, MultiCall(call)) => Calls(tab, g, call, ts)
    case Multi(_, _, MapTest(m, k, zero)) =>
      |ts| == 2 && ts[1].TBool? && Typed(tab, g, m, TMap(ts[0])) && Typed(tab, g, k, TStr) && Has(tab, zero, ts[0])
  }

  /** The assignment's values have these types, and it leads to these types of the variables. */
  ghost predicate Assigns(tab: Table, g: Types, define: bool, a: Assign, ts: seq<Type>, g': Types) {
    AssignTyped(tab, g, a, ts) && Declared(g, define, T.Targets(a), ts) == Some(g')
  }

  /** `ret` are the result types of the function. */
  ghost predicate StmtTyped(tab: Table, g: Types, ret: seq<Type>, inLoop: bool, s: Stmt)
    decreases s, 0
  {
    match s
    case AssignStmt(define, a) => exists ts, g' :: Assigns(tab, g, define, a, ts, g')
    case ExprStmt(e) => if e.Call? then exists rs :: Calls(tab, g, e.call, rs) else exists t :: Typed(tab, g, e, t)
    case Break => inLoop
    case Continue => inLoop
    case Return(es) =>
      if |es| == 1 && es[0].Call? then ret != [] && Calls(tab, g, es[0].call, ret) else AllTyped(tab, g, es, ret)
    case If(chain) => ChainTyped(tab, g, ret, inLoop, chain)
    case Range(key, val, over, body) =>
      exists o, inner :: Typed(tab, g, over, o) && Ranges(g, o, key, val, inner) && StmtsTyped(tab, inner + [map[]], ret, true, body)
    case Block(body) => StmtsTyped(tab, g + [map[]], ret, inLoop, body)
  }

  /** Ranging over an `o` declares the two variables. */
  predicate Ranges(g: Types, o: Type, key: string, val: string, inner: Types) {
    || (o.TList? && Declared(g + [map[]], true, [key, val], [TNum, o.elem]) == Some(inner))
    || (o.TMap? && Declared(g + [map[]], true, [key, val], [TStr, o.elem]) == Some(inner))
  }

  ghost predicate StmtsTyped(tab: Table, g: Types, ret: seq<Type>, inLoop: bool, ss: seq<Stmt>)
    decreases ss, 0
  {
    ss != [] ==>
      if ss[0].AssignStmt? then
        exists ts, g' :: Assigns(tab, g, ss[0].define, ss[0].a, ts, g') && StmtsTyped(tab, g', ret, inLoop, ss[1..])
      else
        StmtTyped(tab, g, ret, inLoop, ss[0]) && StmtsTyped(tab, g, ret, inLoop, ss[1..])
  }

  /** The scope that a clause's initialiser opens. */
  ghost predicate Opens(tab: Table, g: Types, init: Option<Assign>, inner: Types) {
    match init
    case None => inner == g
    case Some(a) => exists ts :: Assigns(tab, g + [map[]], true, a, ts, inner)
  }

  ghost predicate ChainTyped(tab: Table, g: Types, ret: seq<Type>, inLoop: bool, c: Chain)
    decreases c, 0
  {
    match c
    case Else(body) => StmtsTyped(tab, g + [map[]], ret, inLoop, body)
    case Cond(init, cond, body, rest) =>
      exists inner ::
        && Opens(tab, g, init, inner) && Typed(tab, inner, cond, TBool)
        && StmtsTyped(tab, inner + [map[]], ret, inLoop, body) && ChainTyped(tab, inner, ret, inLoop, rest)
  }

  /** The statements do not run off their end: Go's terminating statements. */
  predicate Ends(ss: seq<Stmt>)
    decreases ss
  {
    ss != [] && StmtEnds(ss[|ss| - 1])
  }

  predicate StmtEnds(s: Stmt)
    decreases s
  {
    match s
    case Return(_) => true
    case ExprStmt(Apply(op, _)) => op.Fail?
    case If(chain) => ChainEnds(chain)
    case Block(body) => Ends(body)
    case _ => false
  }

  predicate ChainEnds(c: Chain)
    decreases c
  {
    match c
    case Else(body) => Ends(body)
    case Cond(_, _, body, rest) => Ends(body) && ChainEnds(rest)
  }

  ghost predicate FuncTyped(tab: Table, sig: Sig, d: FuncDecl) {
    && |d.params| == |sig.params| && (sig.results != [] ==> Ends(d.body))
    && Declared([map[]], true, d.params, sig.params).Some?
    && StmtsTyped(tab, Declared([map[]], true, d.params, sig.params).value, sig.results, false, d.body)
  }

  /** Every function of the table is in the file, with a body that its signature allows. */
  ghost predicate FileTyped(tab: Table, fs: seq<FuncDecl>) {
    forall f :: f in tab.sigs ==> Find(fs, f).Some? && FuncTyped(tab, tab.sigs[f], Find(fs, f).value)
  }

  lemma {:induction false} DeclaresOne(top: map<string, Type>, x: string, t: Type, xs: seq<string>, ts: seq<Type>)
    requires x != BLANK && x !in top && |xs| == |ts|
    ensures Declared([top], true, [x] + xs, [t] + ts) == Declared([top[x := t]], true, xs, ts)
  {
    var g: Types, all, types := [top], [x] + xs, [t] + ts;
    assert all[0] == x && types[0] == t && all[1..] == xs && types[1..] == ts;
    var g' := g[..|g| - 1] + [g[|g| - 1][x := t]];
    assert Declared(g, true, all, types) == Declared(g', true, all[1..], types[1..]);
    assert g' == [top[x := t]];
  }

  lemma {:induction false} DeclaresNone(g: Types)
    requires g != []
    ensures Declared(g, true, [], []) == Some(g)
  {
  }

  /** A file of one function that only returns. */
  lemma {:induction false} TypedReturn(tab: Table, d: FuncDecl, sig: Sig, g: Types, es: seq<Expr>)
    requires tab.sigs == map[d.name := sig] && d.body == [Return(es)] && |d.params| == |sig.params|
    requires Declared([map[]], true, d.params, sig.params) == Some(g) && AllTyped(tab, g, es, sig.results)
    requires |es| == 1 ==> !es[0].Call?
    ensures FileTyped(tab, [d])
  {
    hide AllTyped, Declared;
    assert d.body[1..] == [] && StmtsTyped(tab, g, sig.results, false, []);
    assert StmtTyped(tab, g, sig.results, false, Return(es));
    assert StmtEnds(Return(es)) && Ends(d.body);
    assert StmtsTyped(tab, g, sig.results, false, d.body);
    assert FuncTyped(tab, sig, d);
  }

  /// ## Variables

  ghost predicate ScopeHas(tab: Table, scope: Scope, types: map<string, Type>) {
    scope.Keys == types.Keys && forall x :: x in scope ==> Has(tab, scope[x], types[x])
  }

  /** Exactly the typed variables are declared, and hold values of their types. */
  ghost predicate EnvHas(tab: Table, g: Types, env: Scopes) {
    |env| == |g| && forall i :: 0 <= i < |g| ==> ScopeHas(tab, env[i], g[i])
  }

  lemma {:induction false} LookupHas(tab: Table, g: Types, env: Scopes, x: string)
    requires EnvHas(tab, g, env) && TypeOf(g, x).Some?
    ensures Lookup(env, x).Some? && Has(tab, Lookup(env, x).value, TypeOf(g, x).value)
  {
    var n := |g| - 1;
    assert ScopeHas(tab, env[n], g[n]);
    if x !in g[n] {
      assert EnvHas(tab, g[..n], env[..n]);
      LookupHas(tab, g[..n], env[..n], x);
    }
  }

  lemma {:induction false} UpdateHas(tab: Table, g: Types, env: Scopes, x: string, v: Value)
    requires EnvHas(tab, g, env) && TypeOf(g, x).Some? && Has(tab, v, TypeOf(g, x).value)
    ensures Update(env, x, v).Some? && EnvHas(tab, g, Update(env, x, v).value)
  {
    var n := |g| - 1;
    assert ScopeHas(tab, env[n], g[n]);
    if x in g[n] {
      var env' := Update(env, x, v).value;
      assert forall i :: 0 <= i < n ==> env'[i] == env[i];
      assert ScopeHas(tab, env[n][x := v], g[n]);
    } else {
      assert EnvHas(tab, g[..n], env[..n]);
      UpdateHas(tab, g[..n], env[..n], x, v);
      var outer := Update(env[..n], x, v).value;
      var env' := Update(env, x, v).value;
      assert env' == outer + [env[n]];
      forall i | 0 <= i < |g| ensures ScopeHas(tab, env'[i], g[i]) {
        if i < n { assert ScopeHas(tab, outer[i], g[..n][i]); }
      }
    }
  }

  lemma {:induction false} StoreHas(tab: Table, g: Types, env: Scopes, define: bool, xs: seq<string>, ts: seq<Type>, vs: seq<Value>)
    requires g != [] && EnvHas(tab, g, env) && Declared(g, define, xs, ts).Some? && AllHave(tab, vs, ts)
    ensures |xs| == |vs| && StoreAll(define, env, xs, vs).Ok?
    ensures EnvHas(tab, Declared(g, define, xs, ts).value, StoreAll(define, env, xs, vs).value)
    decreases |xs|
  {
    if xs != [] {
      assert Has(tab, vs[0], ts[0]);
      assert forall i :: 0 <= i < |vs[1..]| ==> Has(tab, vs[1..][i], ts[1..][i]) by {
        forall i | 0 <= i < |vs[1..]| ensures Has(tab, vs[1..][i], ts[1..][i]) { assert Has(tab, vs[i + 1], ts[i + 1]); }
      }
      if xs[0] == BLANK {
        StoreHas(tab, g, env, define, xs[1..], ts[1..], vs[1..]);
      } else if define {
        DeclareHas(tab, g, env, xs[0], ts[0], vs[0]);
        var g1 := g[..|g| - 1] + [g[|g| - 1][xs[0] := ts[0]]];
        StoreHas(tab, g1, Declare(env, xs[0], vs[0]), define, xs[1..], ts[1..], vs[1..]);
      } else {
        UpdateHas(tab, g, env, xs[0], vs[0]);
        StoreHas(tab, g, Update(env, xs[0], vs[0]).value, define, xs[1..], ts[1..], vs[1..]);
      }
    }
  }

  lemma {:induction false} DeclareHas(tab: Table, g: Types, env: Scopes, x: string, t: Type, v: Value)
    requires g != [] && EnvHas(tab, g, env) && Has(tab, v, t)
    ensures EnvHas(tab, g[..|g| - 1] + [g[|g| - 1][x := t]], Declare(env, x, v))
  {
    var n := |g| - 1;
    assert ScopeHas(tab, env[n], g[n]);
    assert ScopeHas(tab, env[n][x := v], g[n][x := t]);
  }

  lemma {:induction false} OpenHas(tab: Table, g: Types, env: Scopes, types: map<string, Type>, scope: Scope)
    requires EnvHas(tab, g, env) && ScopeHas(tab, scope, types)
    ensures EnvHas(tab, g + [types], env + [scope])
  {
  }

  lemma {:induction false} OuterHas(tab: Table, g: Types, env: Scopes, n: nat)
    requires EnvHas(tab, g, env) && n <= |g|
    ensures EnvHas(tab, g[..n], env[..n])
  {
  }

  /// ## Operations

  lemma {:induction false} GetHas(tab: Table, es: seq<Entry>, k: string, t: Type)
    requires forall i :: 0 <= i < |es| ==> Has(tab, es[i].value, t)
    ensures Get(es, k).Some? ==> Has(tab, Get(es, k).value, t)
  {
    if es != [] && es[0].key != k {
      assert forall i :: 0 <= i < |es[1..]| ==> es[1..][i] == es[i + 1];
      GetHas(tab, es[1..], k, t);
    }
  }

  lemma {:induction false} FieldHas(tab: Table, es: seq<Entry>, fields: map<string, Type>, f: string)
    requires f in fields && Get(es, f).Some?
    requires forall i :: 0 <= i < |es| && es[i].key in fields ==> Has(tab, es[i].value, fields[es[i].key])
    ensures Has(tab, Get(es, f).value, fields[f])
  {
    if es[0].key != f {
      assert forall i :: 0 <= i < |es[1..]| ==> es[1..][i] == es[i + 1];
      FieldHas(tab, es[1..], fields, f);
    }
  }

  lemma {:induction false} GetPut(es: seq<Entry>, k: string, v: Value, j: string)
    ensures Get(Put(es, k, v), j) == if j == k then Some(v) else Get(es, j)
  {
    if es != [] && es[0].key != k && !Before(k, es[0].key) {
      GetPut(es[1..], k, v, j);
      assert ([es[0]] + Put(es[1..], k, v))[1..] == Put(es[1..], k, v);
    } else if es != [] && es[0].key == k {
      assert ([Entry(k, v)] + es[1..])[1..] == es[1..];
    } else {
      assert ([Entry(k, v)] + es)[1..] == es;
    }
  }

  /** What is in a map after putting a key was there before, or is the new entry. */
  lemma {:induction false} PutEntries(es: seq<Entry>, k: string, v: Value)
    ensures forall e :: e in Put(es, k, v) ==> e in es || e == Entry(k, v)
  {
    if es != [] && es[0].key != k && !Before(k, es[0].key) { PutEntries(es[1..], k, v); }
  }

  lemma {:induction false} LiteralEntries(keys: seq<string>, vs: seq<Value>)
    requires |keys| == |vs|
    ensures forall e :: e in MapLiteral(keys, vs) ==> exists i :: 0 <= i < |keys| && e == Entry(keys[i], vs[i])
    ensures forall k :: k in keys ==> Get(MapLiteral(keys, vs), k).Some?
  {
    if keys != [] {
      var n := |keys| - 1;
      var es := MapLiteral(keys[..n], vs[..n]);
      LiteralEntries(keys[..n], vs[..n]);
      PutEntries(es, keys[n], vs[n]);
      forall e | e in MapLiteral(keys, vs) ensures exists i :: 0 <= i < |keys| && e == Entry(keys[i], vs[i]) {
        if e in es {
          var i :| 0 <= i < n && e == Entry(keys[..n][i], vs[..n][i]);
          assert e == Entry(keys[i], vs[i]);
        }
      }
      forall k | k in keys ensures Get(MapLiteral(keys, vs), k).Some? {
        GetPut(es, keys[n], vs[n], k);
        assert keys == keys[..n] + [keys[n]];
      }
    }
  }

  lemma {:induction false} LiteralHas(tab: Table, keys: seq<string>, vs: seq<Value>, ts: seq<Type>, t: Type)
    requires AllHave(tab, vs, ts) && Signature(tab, MakeMap(keys), ts, t)
    ensures Has(tab, Map(MapLiteral(keys, vs)), t)
  {
    var es := MapLiteral(keys, vs);
    LiteralEntries(keys, vs);
    forall i | 0 <= i < |es|
      ensures if t.TMap? then Has(tab, es[i].value, t.elem)
              else es[i].key in tab.structs[t.name] && Has(tab, es[i].value, tab.structs[t.name][es[i].key])
    {
      assert es[i] in es;
      var j :| 0 <= j < |keys| && es[i] == Entry(keys[j], vs[j]);
      assert Has(tab, vs[j], ts[j]);
    }
  }

  lemma {:induction false} FirstHas(tab: Table, vs: seq<Value>, t: Type)
    requires vs != [] && forall i :: 0 <= i < |vs| ==> Has(tab, vs[i], t)
    ensures Has(tab, FirstNonZero(vs), t)
  {
    if |vs| > 1 && IsZero(vs[0]) { FirstHas(tab, vs[1..], t); }
  }

  lemma {:induction false} ConcatHas(tab: Table, vs: seq<Value>, ws: seq<Value>, e: Type)
    requires forall i :: 0 <= i < |vs| ==> Has(tab, vs[i], e)
    requires forall i :: 0 <= i < |ws| ==> Has(tab, ws[i], e)
    ensures Has(tab, List(vs + ws), TList(e))
  {
  }

  /** On operands of the types it takes, an operation has a result of its type, or panics. */
  lemma {:induction false} OpHas(tab: Table, op: Op, ts: seq<Type>, vs: seq<Value>, t: Type)
    requires Signature(tab, op, ts, t) && AllHave(tab, vs, ts)
    ensures !Perform(op, vs).Stuck? && (Perform(op, vs).Ok? ==> Has(tab, Perform(op, vs).value, t))
  {
    hide Perform, Signature, Has, AllHave;
    if op.Append? || op.AppendSpread? {
      AppendHas(tab, op, ts, vs, t);
    } else if op.Index? || op.MapIndex? || op.MapGet? || op.Field? || op.Deref? {
      ReadHas(tab, op, ts, vs, t);
    } else if op.MakeMap? || op.CmpOr? || op.MakeList? || op.Counted? {
      MakeHas(tab, op, ts, vs, t);
    } else {
      BasicHas(tab, op, ts, vs, t);
    }
  }

  lemma {:induction false} AppendHas(tab: Table, op: Op, ts: seq<Type>, vs: seq<Value>, t: Type)
    requires Signature(tab, op, ts, t) && AllHave(tab, vs, ts) && (op.Append? || op.AppendSpread?)
    ensures !Perform(op, vs).Stuck? && (Perform(op, vs).Ok? ==> Has(tab, Perform(op, vs).value, t))
  {
    assert forall i :: 0 <= i < |vs| ==> Has(tab, vs[i], ts[i]);
    if !NilAppend(op, vs) {
      ConcatHas(tab, Elems(vs[0]).value, if op.Append? then vs[1..] else Elems(vs[1]).value, t.elem);
    }
  }

  lemma {:induction false} ReadHas(tab: Table, op: Op, ts: seq<Type>, vs: seq<Value>, t: Type)
    requires Signature(tab, op, ts, t) && AllHave(tab, vs, ts)
    requires op.Index? || op.MapIndex? || op.MapGet? || op.Field? || op.Deref?
    ensures !Perform(op, vs).Stuck? && (Perform(op, vs).Ok? ==> Has(tab, Perform(op, vs).value, t))
  {
    assert forall i :: 0 <= i < |vs| ==> Has(tab, vs[i], ts[i]);
    if vs[0].Map? && (op.MapIndex? || op.MapGet?) { GetHas(tab, vs[0].entries, vs[1].s, t); }
    if vs[0].Map? && op.Field? { FieldHas(tab, vs[0].entries, tab.structs[ts[0].name], op.field); }
  }

  lemma {:induction false} MakeHas(tab: Table, op: Op, ts: seq<Type>, vs: seq<Value>, t: Type)
    requires Signature(tab, op, ts, t) && AllHave(tab, vs, ts) && (op.MakeMap? || op.CmpOr? || op.MakeList? || op.Counted?)
    ensures !Perform(op, vs).Stuck? && (Perform(op, vs).Ok? ==> Has(tab, Perform(op, vs).value, t))
  {
    assert forall i :: 0 <= i < |vs| ==> Has(tab, vs[i], ts[i]);
    if op.MakeMap? { LiteralHas(tab, op.keys, vs, ts, t); }
    if op.CmpOr? { FirstHas(tab, vs, t); }
  }

  lemma {:induction false} BasicHas(tab: Table, op: Op, ts: seq<Type>, vs: seq<Value>, t: Type)
    requires Signature(tab, op, ts, t) && AllHave(tab, vs, ts)
    requires !op.Append? && !op.AppendSpread? && !op.Index? && !op.MapIndex? && !op.MapGet? && !op.Field? && !op.Deref?
    requires !op.MakeMap? && !op.CmpOr? && !op.MakeList? && !op.Counted?
    ensures !Perform(op, vs).Stuck? && (Perform(op, vs).Ok? ==> Has(tab, Perform(op, vs).value, t))
  {
    assert forall i :: 0 <= i < |vs| ==> Has(tab, vs[i], ts[i]);
  }

  /// ## Runs

  ghost predicate Accepts(tab: Table, p: Program) {
    !p.untyped && FileTyped(tab, p.funcs)
  }

  ghost predicate Sound(tab: Table, r: Res<Value>, t: Type) {
    !r.Stuck? && (r.Ok? ==> Has(tab, r.value, t))
  }

  ghost predicate AllSound(tab: Table, r: Res<seq<Value>>, ts: seq<Type>) {
    !r.Stuck? && (r.Ok? ==> AllHave(tab, r.value, ts))
  }

  /** How a statement of a function with result types `ret` may end. */
  ghost predicate SignalFits(tab: Table, sig: Signal, ret: seq<Type>, inLoop: bool) {
    match sig
    case Next => true
    case Ret(vs) => AllHave(tab, vs, ret)
    case _ => inLoop
  }

  ghost predicate Fine(tab: Table, g: Types, ret: seq<Type>, inLoop: bool, r: Res<Flow>) {
    !r.Stuck? && (r.Ok? ==> SignalFits(tab, r.value.sig, ret, inLoop) && EnvHas(tab, g, r.value.env))
  }

  lemma {:induction false} SoundExpr(tab: Table, p: Program, fuel: nat, g: Types, env: Scopes, e: Expr, t: Type)
    requires Accepts(tab, p) && EnvHas(tab, g, env) && Typed(tab, g, e, t)
    ensures Sound(tab, Eval(p, fuel, env, e), t)
    decreases fuel, e, 3
  {
    if Exact(tab, g, e, t) {
      SoundExact(tab, p, fuel, g, env, e, t);
    } else {
      var u :| Exact(tab, g, e, u);
      SoundExact(tab, p, fuel, g, env, e, u);
    }
  }

  lemma {:induction false} SoundExact(tab: Table, p: Program, fuel: nat, g: Types, env: Scopes, e: Expr, t: Type)
    requires Accepts(tab, p) && EnvHas(tab, g, env) && Exact(tab, g, e, t)
    ensures Sound(tab, Eval(p, fuel, env, e), t)
    decreases fuel, e, 2
  {
    hide EnvHas, Accepts, Perform, Signature, AllHave, EvalAll, EvalCall, Received;
    match e
    case Lit(_) =>
    case Var(x) => LookupHas(tab, g, env, x);
    case Apply(op, args) =>
      var ts :| AllTyped(tab, g, args, ts) && Signature(tab, op, ts, t);
      SoundExprs(tab, p, fuel, g, env, args, ts);
      var vs := EvalAll(p, fuel, env, args);
      if vs.Ok? { GoComputes(tab, p, op, ts, vs.value, t); }
    case And(left, right) =>
      SoundExpr(tab, p, fuel, g, env, left, TBool);
      SoundExpr(tab, p, fuel, g, env, right, TBool);
    case Or(left, right) =>
      SoundExpr(tab, p, fuel, g, env, left, TBool);
      SoundExpr(tab, p, fuel, g, env, right, TBool);
    case FuncRef(f) => assert tab.sigs[f].params[0..] == tab.sigs[f].params;
    case MethodRef(f, recv, kind) =>
      var u :| Typed(tab, g, recv, u) && Receives(kind, u, tab.sigs[f].params[0]);
      SoundReceiver(tab, p, fuel, g, env, recv, kind, u, tab.sigs[f].params[0]);
    case Call(call) =>
      SoundCall(tab, p, fuel, g, env, call, [t]);
      OneHas(tab, EvalCall(p, fuel, env, call), t);
  }

  lemma {:induction false} OneHas(tab: Table, r: Res<seq<Value>>, t: Type)
    requires AllSound(tab, r, [t])
    ensures r.Ok? ==> |r.value| == 1 && Has(tab, r.value[0], t)
  {
  }

  lemma {:induction false} GoComputes(tab: Table, p: Program, op: Op, ts: seq<Type>, vs: seq<Value>, t: Type)
    requires Accepts(tab, p) && Signature(tab, op, ts, t) && AllHave(tab, vs, ts)
    ensures Sound(tab, Compute(p.untyped, op, vs), t)
  {
    OpHas(tab, op, ts, vs, t);
  }

  /** The receiver, taken or dereferenced. */
  lemma {:induction false} SoundReceiver(tab: Table, p: Program, fuel: nat, g: Types, env: Scopes, recv: Expr, kind: Receiver, u: Type, param: Type)
    requires Accepts(tab, p) && EnvHas(tab, g, env) && Typed(tab, g, recv, u) && Receives(kind, u, param)
    ensures var r := Eval(p, fuel, env, recv);
            !r.Stuck? && (r.Ok? ==> Sound(tab, Received(p.untyped, kind, r.value), param))
    decreases fuel, recv, 4
  {
    hide Eval, EnvHas, Typed, FileTyped;
    SoundExpr(tab, p, fuel, g, env, recv, u);
  }

  lemma {:induction false} SoundExprs(tab: Table, p: Program, fuel: nat, g: Types, env: Scopes, es: seq<Expr>, ts: seq<Type>)
    requires Accepts(tab, p) && EnvHas(tab, g, env) && AllTyped(tab, g, es, ts)
    ensures AllSound(tab, EvalAll(p, fuel, env, es), ts)
    decreases fuel, es, 0
  {
    hide EnvHas, Accepts, Typed;
    if es != [] {
      SoundExpr(tab, p, fuel, g, env, es[0], ts[0]);
      SoundExprs(tab, p, fuel, g, env, es[1..], ts[1..]);
    }
  }

  lemma {:induction false} SoundCall(tab: Table, p: Program, fuel: nat, g: Types, env: Scopes, c: Invocation, rs: seq<Type>)
    requires Accepts(tab, p) && EnvHas(tab, g, env) && Calls(tab, g, c, rs)
    ensures AllSound(tab, EvalCall(p, fuel, env, c), rs)
    decreases fuel, c, 2
  {
    SoundTarget(tab, p, fuel, g, env, c, rs);
    hide *;
    var target := Target(p, fuel, env, c);
    if target.Ok? && fuel > 0 {
      Reached(tab, target, rs);
      SoundInvoke(tab, p, fuel - 1, target.value.0, target.value.1);
    }
    CallReturns(tab, p, fuel, env, c, rs);
  }

  lemma {:induction false} Reached(tab: Table, r: Res<(string, seq<Value>)>, rs: seq<Type>)
    requires Reaches(tab, r, rs) && r.Ok?
    ensures r.value.0 in tab.sigs && tab.sigs[r.value.0].results == rs && AllHave(tab, r.value.1, tab.sigs[r.value.0].params)
  {
  }

  lemma {:induction false} CallReturns(tab: Table, p: Program, fuel: nat, env: Scopes, c: Invocation, rs: seq<Type>)
    requires Reaches(tab, Target(p, fuel, env, c), rs)
    requires var t := Target(p, fuel, env, c); t.Ok? && fuel > 0 ==> Returns(tab, Invoke(p, fuel - 1, t.value.0, t.value.1), rs)
    ensures AllSound(tab, EvalCall(p, fuel, env, c), rs)
  {
    hide Target, Invoke, Has;
  }

  /** What a call of a function may come to. */
  ghost predicate Returns(tab: Table, r: Res<Signal>, rs: seq<Type>) {
    !r.Stuck? && (r.Ok? ==> if r.value.Ret? then AllHave(tab, r.value.vs, rs) else r.value.Next? && rs == [])
  }

  /** The function is one of the table, and gets what it takes. */
  ghost predicate Reaches(tab: Table, r: Res<(string, seq<Value>)>, rs: seq<Type>) {
    !r.Stuck? && (r.Ok? ==> r.value.0 in tab.sigs && tab.sigs[r.value.0].results == rs && AllHave(tab, r.value.1, tab.sigs[r.value.0].params))
  }

  lemma {:induction false} SoundTarget(tab: Table, p: Program, fuel: nat, g: Types, env: Scopes, c: Invocation, rs: seq<Type>)
    requires Accepts(tab, p) && EnvHas(tab, g, env) && Calls(tab, g, c, rs)
    ensures Reaches(tab, Target(p, fuel, env, c), rs)
    decreases fuel, c, 1
  {
    hide EnvHas, Accepts, Typed, AllTyped, Eval, EvalAll;
    match c.callee
    case Static(f) => SoundExprs(tab, p, fuel, g, env, c.args, tab.sigs[f].params);
    case Method(f, recv, kind) =>
      var params := tab.sigs[f].params;
      var u :| Typed(tab, g, recv, u) && Receives(kind, u, params[0]);
      SoundReceiver(tab, p, fuel, g, env, recv, kind, u, params[0]);
      SoundExprs(tab, p, fuel, g, env, c.args, params[1..]);
      assert params == [params[0]] + params[1..];
    case FuncValue(e) =>
      var ps :| Typed(tab, g, e, TFunc(ps, rs)) && AllTyped(tab, g, c.args, ps);
      SoundExpr(tab, p, fuel, g, env, e, TFunc(ps, rs));
      SoundExprs(tab, p, fuel, g, env, c.args, ps);
      var h, vs := Eval(p, fuel, env, e), EvalAll(p, fuel, env, c.args);
      if h.Ok? && vs.Ok? && h.value.Func? { CapturedHas(tab, h.value, vs.value, ps, rs); }
  }

  lemma {:induction false} CapturedHas(tab: Table, h: Value, vs: seq<Value>, ps: seq<Type>, rs: seq<Type>)
    requires h.Func? && Has(tab, h, TFunc(ps, rs)) && AllHave(tab, vs, ps)
    ensures h.name in tab.sigs && tab.sigs[h.name].results == rs && AllHave(tab, h.captured + vs, tab.sigs[h.name].params)
  {
    var params, n := tab.sigs[h.name].params, |h.captured|;
    assert forall i :: n <= i < |params| ==> params[i] == ps[i - n];
  }

  lemma {:induction false} SoundInvoke(tab: Table, p: Program, fuel: nat, f: string, vs: seq<Value>)
    requires Accepts(tab, p) && f in tab.sigs && AllHave(tab, vs, tab.sigs[f].params)
    ensures Returns(tab, Invoke(p, fuel, f, vs), tab.sigs[f].results)
    decreases fuel
  {
    hide ExecAll, StmtsTyped, Ends, Declared, Has, StoreAll;
    var d, sig := Find(p.funcs, f).value, tab.sigs[f];
    var g := Declared([map[]], true, d.params, sig.params).value;
    assert EnvHas(tab, [map[]], [map[]]);
    StoreHas(tab, [map[]], [map[]], true, d.params, sig.params, vs);
    var env := StoreAll(true, [map[]], d.params, vs).value;
    SoundStmts(tab, p, fuel, g, env, sig.results, false, d.body);
    if sig.results != [] { EndsSo(p, fuel, env, d.body); }
  }

  lemma {:induction false} SoundAssign(tab: Table, p: Program, fuel: nat, g: Types, env: Scopes, define: bool, a: Assign, ts: seq<Type>, g': Types)
    requires Accepts(tab, p) && g != [] && EnvHas(tab, g, env) && Assigns(tab, g, define, a, ts, g')
    ensures var r := ExecAssign(p, fuel, env, define, a); !r.Stuck? && (r.Ok? ==> EnvHas(tab, g', r.value))
    decreases fuel, a, 0
  {
    hide EnvHas, Accepts, Typed, Declared;
    match a
    case Single(x, e) =>
      SoundExpr(tab, p, fuel, g, env, e, ts[0]);
      var v := Eval(p, fuel, env, e);
      if v.Ok? {
        assert ts == [ts[0]];
        StoreHas(tab, g, env, define, [x], ts, [v.value]);
      }
    case Tuple(xs, es) =>
      SoundExprs(tab, p, fuel, g, env, es, ts);
      var vs := EvalAll(p, fuel, env, es);
      if vs.Ok? { StoreHas(tab, g, env, define, xs, ts, vs.value); }
    case Multi(_, xs, rhs) =>
      SoundRhs(tab, p, fuel, g, env, a, ts);
      var vs := EvalRhs(p, fuel, env, rhs);
      if vs.Ok? { StoreHas(tab, g, env, define, xs, ts, vs.value); }
  }

  lemma {:induction false} SoundAssignStmt(tab: Table, p: Program, fuel: nat, g: Types, env: Scopes, s: Stmt, ts: seq<Type>, g': Types)
    requires Accepts(tab, p) && g != [] && EnvHas(tab, g, env) && s.AssignStmt? && Assigns(tab, g, s.define, s.a, ts, g')
    ensures var r := ExecAssign(p, fuel, env, s.define, s.a); !r.Stuck? && (r.Ok? ==> EnvHas(tab, g', r.value))
    decreases fuel, s, 0
  {
    SoundAssign(tab, p, fuel, g, env, s.define, s.a, ts, g');
  }

  lemma {:induction false} SoundRhs(tab: Table, p: Program, fuel: nat, g: Types, env: Scopes, a: Assign, ts: seq<Type>)
    requires Accepts(tab, p) && EnvHas(tab, g, env) && a.Multi? && AssignTyped(tab, g, a, ts)
    ensures AllSound(tab, EvalRhs(p, fuel, env, a.rhs), ts)
    decreases fuel, a.rhs, 0
  {
    hide EnvHas, Accepts, Typed, Calls;
    match a.rhs
    case MultiCall(call) => SoundCall(tab, p, fuel, g, env, call, ts);
    case MapTest(m, k, zero) =>
      SoundExpr(tab, p, fuel, g, env, m, TMap(ts[0]));
      SoundExpr(tab, p, fuel, g, env, k, TStr);
      var mv, kv := Eval(p, fuel, env, m), Eval(p, fuel, env, k);
      if mv.Ok? && kv.Ok? && mv.value.Map? { GetHas(tab, mv.value.entries, kv.value.s, ts[0]); }
  }

  lemma {:induction false} SoundStmt(tab: Table, p: Program, fuel: nat, g: Types, env: Scopes, ret: seq<Type>, inLoop: bool, s: Stmt)
    requires Accepts(tab, p) && g != [] && EnvHas(tab, g, env) && !s.AssignStmt? && StmtTyped(tab, g, ret, inLoop, s)
    ensures Fine(tab, g, ret, inLoop, Exec(p, fuel, env, s))
    decreases fuel, s, 0
  {
    hide EnvHas, Accepts, Typed, Calls, StmtsTyped, ChainTyped, ExecChain, ExecScoped, Loop, Has;
    match s
    case ExprStmt(e) =>
      if e.Call? {
        var rs :| Calls(tab, g, e.call, rs);
        SoundCall(tab, p, fuel, g, env, e.call, rs);
      } else {
        var t :| Typed(tab, g, e, t);
        SoundExpr(tab, p, fuel, g, env, e, t);
      }
    case Break =>
    case Continue =>
    case Return(es) =>
      if |es| == 1 && es[0].Call? {
        SoundCall(tab, p, fuel, g, env, es[0].call, ret);
      } else {
        SoundExprs(tab, p, fuel, g, env, es, ret);
      }
    case If(chain) =>
      if p.eager {
        SoundInits(tab, p, fuel, g, env, ret, inLoop, chain);
        var frames := InitFrames(p, fuel, env, chain);
        if frames.Ok? { SoundChain(tab, p, fuel, g, env, ret, inLoop, chain, frames.value); }
      } else {
        SoundChain(tab, p, fuel, g, env, ret, inLoop, chain, []);
      }
    case Range(key, val, over, body) =>
      var o, inner :| Typed(tab, g, over, o) && Ranges(g, o, key, val, inner) && StmtsTyped(tab, inner + [map[]], ret, true, body);
      SoundExpr(tab, p, fuel, g, env, over, o);
      var v := Eval(p, fuel, env, over);
      if v.Ok? {
        ItemsHave(tab, v.value, o);
        SoundLoop(tab, p, fuel, g, env, ret, inLoop, key, val, if o.TList? then TNum else TStr, o.elem, inner, Items(v.value).value, body);
      }
    case Block(body) => SoundScoped(tab, p, fuel, g, env, ret, inLoop, body);
  }

  ghost predicate Pairs(tab: Table, items: seq<(Value, Value)>, kt: Type, vt: Type) {
    forall i :: 0 <= i < |items| ==> Has(tab, items[i].0, kt) && Has(tab, items[i].1, vt)
  }

  lemma {:induction false} ItemsHave(tab: Table, v: Value, o: Type)
    requires (o.TList? || o.TMap?) && Has(tab, v, o)
    ensures Items(v).Some? && Pairs(tab, Items(v).value, if o.TList? then TNum else TStr, o.elem)
  {
  }

  lemma {:induction false} SoundStmts(tab: Table, p: Program, fuel: nat, g: Types, env: Scopes, ret: seq<Type>, inLoop: bool, ss: seq<Stmt>)
    requires Accepts(tab, p) && g != [] && EnvHas(tab, g, env) && StmtsTyped(tab, g, ret, inLoop, ss)
    ensures FineStmts(tab, g, ret, inLoop, ExecAll(p, fuel, env, ss))
    decreases fuel, ss, 0
  {
    assert |env| == |g|;
    if ss == [] {
      OuterHas(tab, g, env, |g| - 1);
    } else if ss[0].AssignStmt? {
      var ts, g' := AssignHead(tab, g, ret, inLoop, ss);
      SoundAssignStmt(tab, p, fuel, g, env, ss[0], ts, g');
      hide *;
      AssignIs(p, fuel, env, ss);
      var r := ExecAssign(p, fuel, env, ss[0].define, ss[0].a);
      if r.Ok? { SoundStmts(tab, p, fuel, g', r.value, ret, inLoop, ss[1..]); }
      SameOuter(tab, g, g', ret, inLoop, r, ExecAll(p, fuel, env, ss));
    } else {
      StmtHead(tab, g, ret, inLoop, ss);
      SoundStmt(tab, p, fuel, g, env, ret, inLoop, ss[0]);
      hide *;
      StmtIs(p, fuel, env, ss);
      var r := Exec(p, fuel, env, ss[0]);
      FineFirst(tab, g, ret, inLoop, r);
      if r.Ok? && r.value.sig.Next? { SoundStmts(tab, p, fuel, g, r.value.env, ret, inLoop, ss[1..]); }
    }
  }

  /** Statements may declare more in the innermost scope. */
  ghost predicate FineStmts(tab: Table, g: Types, ret: seq<Type>, inLoop: bool, r: Res<Flow>)
    requires g != []
  {
    && !r.Stuck?
    && (r.Ok? ==> SignalFits(tab, r.value.sig, ret, inLoop) && |r.value.env| == |g| && EnvHas(tab, g[..|g| - 1], r.value.env[..|g| - 1]))
  }

  lemma {:induction false} FineFirst(tab: Table, g: Types, ret: seq<Type>, inLoop: bool, r: Res<Flow>)
    requires g != [] && Fine(tab, g, ret, inLoop, r)
    ensures FineStmts(tab, g, ret, inLoop, r) && (r.Ok? ==> EnvHas(tab, g, r.value.env))
    ensures !r.Stuck?
  {
    if r.Ok? { OuterHas(tab, g, r.value.env, |g| - 1); }
    assert r.Panic? || r.Timeout? ==> FineStmts(tab, g, ret, inLoop, r);
  }

  lemma {:induction false} SameOuter(tab: Table, g: Types, g': Types, ret: seq<Type>, inLoop: bool, first: Res<Scopes>, r: Res<Flow>)
    requires g != [] && |g'| == |g| && g'[..|g| - 1] == g[..|g| - 1] && !first.Stuck?
    requires if first.Ok? then FineStmts(tab, g', ret, inLoop, r) else r == first.PropagateFailure()
    ensures FineStmts(tab, g, ret, inLoop, r)
  {
  }

  lemma {:induction false} AssignHead(tab: Table, g: Types, ret: seq<Type>, inLoop: bool, ss: seq<Stmt>) returns (ts: seq<Type>, g': Types)
    requires g != [] && ss != [] && ss[0].AssignStmt? && StmtsTyped(tab, g, ret, inLoop, ss)
    ensures Assigns(tab, g, ss[0].define, ss[0].a, ts, g') && StmtsTyped(tab, g', ret, inLoop, ss[1..])
    ensures |g'| == |g| && g'[..|g| - 1] == g[..|g| - 1]
  {
    ts, g' :| Assigns(tab, g, ss[0].define, ss[0].a, ts, g') && StmtsTyped(tab, g', ret, inLoop, ss[1..]);
  }

  lemma {:induction false} StmtHead(tab: Table, g: Types, ret: seq<Type>, inLoop: bool, ss: seq<Stmt>)
    requires ss != [] && !ss[0].AssignStmt? && StmtsTyped(tab, g, ret, inLoop, ss)
    ensures StmtTyped(tab, g, ret, inLoop, ss[0]) && StmtsTyped(tab, g, ret, inLoop, ss[1..])
  {
  }

  lemma {:induction false} AssignIs(p: Program, fuel: nat, env: Scopes, ss: seq<Stmt>)
    requires env != [] && ss != [] && ss[0].AssignStmt?
    ensures var r := ExecAssign(p, fuel, env, ss[0].define, ss[0].a);
            ExecAll(p, fuel, env, ss) == if r.Ok? then ExecAll(p, fuel, r.value, ss[1..]) else r.PropagateFailure()
  {
    hide ExecAssign;
  }

  lemma {:induction false} StmtIs(p: Program, fuel: nat, env: Scopes, ss: seq<Stmt>)
    requires env != [] && ss != []
    ensures var r := Exec(p, fuel, env, ss[0]);
            ExecAll(p, fuel, env, ss) == if r.Ok? && r.value.sig.Next? then ExecAll(p, fuel, r.value.env, ss[1..]) else r
  {
    hide Exec;
  }

  lemma {:induction false} SoundScoped(tab: Table, p: Program, fuel: nat, g: Types, env: Scopes, ret: seq<Type>, inLoop: bool, ss: seq<Stmt>)
    requires Accepts(tab, p) && EnvHas(tab, g, env) && StmtsTyped(tab, g + [map[]], ret, inLoop, ss)
    ensures Fine(tab, g, ret, inLoop, ExecScoped(p, fuel, env, ss))
    decreases fuel, ss, 1
  {
    assert |env| == |g|;
    OpenHas(tab, g, env, map[], map[]);
    hide EnvHas, Accepts, StmtsTyped;
    SoundStmts(tab, p, fuel, g + [map[]], env + [map[]], ret, inLoop, ss);
    assert (g + [map[]])[..|g|] == g;
  }

  lemma {:induction false} SoundLoop(tab: Table, p: Program, fuel: nat, g: Types, env: Scopes, ret: seq<Type>, inLoop: bool, key: string, val: string,
                                     kt: Type, vt: Type, inner: Types, items: seq<(Value, Value)>, body: seq<Stmt>)
    requires Accepts(tab, p) && EnvHas(tab, g, env) && Pairs(tab, items, kt, vt)
    requires Declared(g + [map[]], true, [key, val], [kt, vt]) == Some(inner) && StmtsTyped(tab, inner + [map[]], ret, true, body)
    ensures Fine(tab, g, ret, inLoop, Loop(p, fuel, env, key, val, items, body))
    decreases fuel, body, 2, |items|
  {
    if items != [] {
      var env1 := TurnHas(tab, g, env, key, val, kt, vt, inner, items);
      assert |env| == |g| && Pairs(tab, items[1..], kt, vt);
      hide EnvHas, Accepts, StmtsTyped, Declared, ExecScoped, StoreAll, Has, Pairs, SignalFits;
      SoundScoped(tab, p, fuel, inner, env1, ret, true, body);
      var flow := ExecScoped(p, fuel, env1, body);
      if flow.Ok? {
        OuterHas(tab, inner, flow.value.env, |g|);
        SignalOut(tab, flow.value.sig, ret, inLoop);
        var env2 := flow.value.env[..|g|];
        if flow.value.sig.Next? || flow.value.sig.Cont? {
          SoundLoop(tab, p, fuel, g, env2, ret, inLoop, key, val, kt, vt, inner, items[1..], body);
        }
      }
    }
  }

  lemma {:induction false} SignalOut(tab: Table, sig: Signal, ret: seq<Type>, inLoop: bool)
    requires SignalFits(tab, sig, ret, true)
    ensures SignalFits(tab, Next, ret, inLoop) && (sig.Ret? ==> SignalFits(tab, sig, ret, inLoop))
  {
  }

  /** The environment of a turn. */
  lemma {:induction false} TurnHas(tab: Table, g: Types, env: Scopes, key: string, val: string, kt: Type, vt: Type, inner: Types,
                                   items: seq<(Value, Value)>) returns (env1: Scopes)
    requires EnvHas(tab, g, env) && items != [] && Pairs(tab, items, kt, vt) && Declared(g + [map[]], true, [key, val], [kt, vt]) == Some(inner)
    ensures StoreAll(true, env + [map[]], [key, val], [items[0].0, items[0].1]) == Ok(env1) && EnvHas(tab, inner, env1)
    ensures |inner| == |g| + 1 && inner[..|g|] == g
  {
    OpenHas(tab, g, env, map[], map[]);
    assert (g + [map[]])[..|g|] == g;
    hide EnvHas, Declared;
    StoreHas(tab, g + [map[]], env + [map[]], true, [key, val], [kt, vt], [items[0].0, items[0].1]);
    env1 := StoreAll(true, env + [map[]], [key, val], [items[0].0, items[0].1]).value;
  }

  /// ## Conditionals

  /** The chain is typed, and its initialisers' scopes hold what their types say. */
  ghost predicate FramesTyped(tab: Table, g: Types, ret: seq<Type>, inLoop: bool, c: Chain, fs: seq<Scope>)
    requires |fs| == Clauses(c)
    decreases c
  {
    match c
    case Else(body) => StmtsTyped(tab, g + [map[]], ret, inLoop, body)
    case Cond(init, cond, body, rest) =>
      exists inner ::
        && Opens(tab, g, init, inner) && (init.Some? ==> |inner| == |g| + 1 && ScopeHas(tab, fs[0], inner[|g|]))
        && Typed(tab, inner, cond, TBool) && StmtsTyped(tab, inner + [map[]], ret, inLoop, body)
        && FramesTyped(tab, inner, ret, inLoop, rest, fs[1..])
  }

  /** An initialiser opens a scope and leaves the others as they are. */
  lemma {:induction false} SoundInit(tab: Table, p: Program, fuel: nat, g: Types, env: Scopes, init: Option<Assign>, inner: Types)
    requires Accepts(tab, p) && EnvHas(tab, g, env) && Opens(tab, g, init, inner)
    ensures |inner| == |g| + (if init.Some? then 1 else 0) && inner[..|g|] == g
    ensures var r := ExecInit(p, fuel, env, init); !r.Stuck? && (r.Ok? ==> EnvHas(tab, inner, r.value))
    decreases fuel, init, 1
  {
    if init.Some? {
      var ts :| Assigns(tab, g + [map[]], true, init.value, ts, inner);
      OpenHas(tab, g, env, map[], map[]);
      assert (g + [map[]])[..|g|] == g;
      SoundAssign(tab, p, fuel, g + [map[]], env + [map[]], true, init.value, ts, inner);
    }
  }

  lemma {:induction false} SoundInits(tab: Table, p: Program, fuel: nat, g: Types, env: Scopes, ret: seq<Type>, inLoop: bool, c: Chain)
    requires Accepts(tab, p) && EnvHas(tab, g, env) && ChainTyped(tab, g, ret, inLoop, c)
    ensures var fs := InitFrames(p, fuel, env, c); !fs.Stuck? && (fs.Ok? ==> FramesTyped(tab, g, ret, inLoop, c, fs.value))
    decreases fuel, c, 0
  {
    if c.Cond? {
      var inner :| Opens(tab, g, c.init, inner) && Typed(tab, inner, c.cond, TBool)
                   && StmtsTyped(tab, inner + [map[]], ret, inLoop, c.body) && ChainTyped(tab, inner, ret, inLoop, c.rest);
      SoundInit(tab, p, fuel, g, env, c.init, inner);
      assert |env| == |g|;
      var env1 := ExecInit(p, fuel, env, c.init);
      if env1.Ok? {
        SoundInits(tab, p, fuel, inner, env1.value, ret, inLoop, c.rest);
        if c.init.Some? { assert ScopeHas(tab, env1.value[|g|], inner[|g|]); }
        hide EnvHas, Accepts, StmtsTyped, ChainTyped, Opens, Typed, ScopeHas;
        var fs := InitFrames(p, fuel, env, c);
        if fs.Ok? {
          var rest := InitFrames(p, fuel, env1.value, c.rest).value;
          assert fs.value[1..] == rest;
        }
      }
    }
  }

  lemma {:induction false} SoundChain(tab: Table, p: Program, fuel: nat, g: Types, env: Scopes, ret: seq<Type>, inLoop: bool, c: Chain, fs: seq<Scope>)
    requires Accepts(tab, p) && EnvHas(tab, g, env)
    requires if p.eager then |fs| == Clauses(c) && FramesTyped(tab, g, ret, inLoop, c, fs) else ChainTyped(tab, g, ret, inLoop, c)
    ensures Fine(tab, g, ret, inLoop, ExecChain(p, fuel, env, c, fs))
    decreases fuel, c, 1
  {
    SameLength(tab, g, env);
    hide *;
    if c.Else? {
      ElseIs(tab, p, fuel, g, env, ret, inLoop, c, fs);
      SoundScoped(tab, p, fuel, g, env, ret, inLoop, c.body);
    } else {
      var inner := ClauseTyped(tab, p, g, ret, inLoop, c, fs);
      if p.eager { SomeFrame(c, fs); }
      SoundEnter(tab, p, fuel, g, env, c, fs, inner);
      var env1 := Entered(p, fuel, env, c.init, fs);
      var more := if p.eager then fs[1..] else [];
      if env1.Ok? { SoundClause(tab, p, fuel, g, env, inner, env1.value, ret, inLoop, c, more); }
      ChainIs(tab, p, fuel, g, env, ret, inLoop, c, fs);
    }
  }

  lemma {:induction false} SameLength(tab: Table, g: Types, env: Scopes)
    requires EnvHas(tab, g, env)
    ensures |g| == |env|
  {
  }

  lemma {:induction false} SomeFrame(c: Chain, fs: seq<Scope>)
    requires c.Cond? && |fs| == Clauses(c)
    ensures fs != [] && |fs[1..]| == Clauses(c.rest)
  {
  }

  lemma {:induction false} ElseIs(tab: Table, p: Program, fuel: nat, g: Types, env: Scopes, ret: seq<Type>, inLoop: bool, c: Chain, fs: seq<Scope>)
    requires c.Else?
    requires if p.eager then |fs| == Clauses(c) && FramesTyped(tab, g, ret, inLoop, c, fs) else ChainTyped(tab, g, ret, inLoop, c)
    ensures StmtsTyped(tab, g + [map[]], ret, inLoop, c.body) && ExecChain(p, fuel, env, c, fs) == ExecScoped(p, fuel, env, c.body)
  {
    hide ExecScoped, StmtsTyped;
  }

  /** How the clause goes on from its own environment `env1`. */
  ghost predicate ClauseFine(tab: Table, p: Program, fuel: nat, g: Types, env: Scopes, env1: Scopes, ret: seq<Type>, inLoop: bool, c: Chain, fs: seq<Scope>)
    requires c.Cond? && (p.eager ==> |fs| == Clauses(c.rest))
  {
    var b := Eval(p, fuel, env1, c.cond);
    && !b.Stuck?
    && (b.Ok? ==>
          && b.value.Bool?
          && var r := if b.value.b then ExecScoped(p, fuel, env1, c.body) else ExecChain(p, fuel, env1, c.rest, fs);
          !r.Stuck? && (r.Ok? ==> SignalFits(tab, r.value.sig, ret, inLoop)
                                  && |env| <= |r.value.env| && EnvHas(tab, g, r.value.env[..|env|])))
  }

  lemma {:induction false} ChainIs(tab: Table, p: Program, fuel: nat, g: Types, env: Scopes, ret: seq<Type>, inLoop: bool, c: Chain, fs: seq<Scope>)
    requires c.Cond? && (p.eager ==> fs != [] && |fs| == Clauses(c) && |fs[1..]| == Clauses(c.rest))
    requires var env1 := Entered(p, fuel, env, c.init, fs);
             !env1.Stuck? && (env1.Ok? ==> ClauseFine(tab, p, fuel, g, env, env1.value, ret, inLoop, c, if p.eager then fs[1..] else []))
    ensures Fine(tab, g, ret, inLoop, ExecChain(p, fuel, env, c, fs))
  {
    hide Eval, ExecScoped, ExecInit, Enter, SignalFits, EnvHas;
  }

  /** The environment of the first clause. */
  function Entered(p: Program, fuel: nat, env: Scopes, init: Option<Assign>, fs: seq<Scope>): Res<Scopes>
    requires p.eager ==> fs != []
  {
    if p.eager then Ok(Enter(env, init, fs[0])) else ExecInit(p, fuel, env, init)
  }

  lemma {:induction false} SoundEnter(tab: Table, p: Program, fuel: nat, g: Types, env: Scopes, c: Chain, fs: seq<Scope>, inner: Types)
    requires Accepts(tab, p) && EnvHas(tab, g, env) && c.Cond? && Opens(tab, g, c.init, inner)
    requires p.eager ==> fs != [] && (c.init.Some? ==> |inner| == |g| + 1 && ScopeHas(tab, fs[0], inner[|g|]))
    ensures |g| <= |inner| && inner[..|g|] == g
    ensures var env1 := Entered(p, fuel, env, c.init, fs); !env1.Stuck? && (env1.Ok? ==> EnvHas(tab, inner, env1.value))
    decreases fuel, c, 0
  {
    SoundInit(tab, p, fuel, g, env, c.init, inner);
    if p.eager && c.init.Some? {
      OpenHas(tab, g, env, inner[|g|], fs[0]);
      assert inner == g + [inner[|g|]];
    } else {
      assert c.init.None? ==> inner[..|g|] == inner;
    }
  }

  /** What the types say of the first clause. */
  lemma {:induction false} ClauseTyped(tab: Table, p: Program, g: Types, ret: seq<Type>, inLoop: bool, c: Chain, fs: seq<Scope>) returns (inner: Types)
    requires c.Cond?
    requires if p.eager then |fs| == Clauses(c) && FramesTyped(tab, g, ret, inLoop, c, fs) else ChainTyped(tab, g, ret, inLoop, c)
    ensures Opens(tab, g, c.init, inner) && Typed(tab, inner, c.cond, TBool) && StmtsTyped(tab, inner + [map[]], ret, inLoop, c.body)
    ensures if p.eager then |fs[1..]| == Clauses(c.rest) && FramesTyped(tab, inner, ret, inLoop, c.rest, fs[1..])
            else ChainTyped(tab, inner, ret, inLoop, c.rest)
    ensures p.eager && c.init.Some? ==> |inner| == |g| + 1 && ScopeHas(tab, fs[0], inner[|g|])
  {
    hide Typed, StmtsTyped, Opens, ScopeHas;
    if p.eager {
      inner :| && Opens(tab, g, c.init, inner) && (c.init.Some? ==> |inner| == |g| + 1 && ScopeHas(tab, fs[0], inner[|g|]))
               && Typed(tab, inner, c.cond, TBool) && StmtsTyped(tab, inner + [map[]], ret, inLoop, c.body)
               && FramesTyped(tab, inner, ret, inLoop, c.rest, fs[1..]);
    } else {
      inner :| Opens(tab, g, c.init, inner) && Typed(tab, inner, c.cond, TBool)
               && StmtsTyped(tab, inner + [map[]], ret, inLoop, c.body) && ChainTyped(tab, inner, ret, inLoop, c.rest);
    }
  }

  /** A clause past its initialiser. */
  lemma {:induction false} SoundClause(tab: Table, p: Program, fuel: nat, g: Types, env: Scopes, inner: Types, env1: Scopes, ret: seq<Type>, inLoop: bool,
                                       c: Chain, fs: seq<Scope>)
    requires Accepts(tab, p) && EnvHas(tab, inner, env1) && |g| == |env| <= |inner| && inner[..|g|] == g
    requires c.Cond? && Typed(tab, inner, c.cond, TBool) && StmtsTyped(tab, inner + [map[]], ret, inLoop, c.body)
    requires if p.eager then |fs| == Clauses(c.rest) && FramesTyped(tab, inner, ret, inLoop, c.rest, fs)
             else ChainTyped(tab, inner, ret, inLoop, c.rest)
    ensures ClauseFine(tab, p, fuel, g, env, env1, ret, inLoop, c, fs)
    decreases fuel, c, 0
  {
    SoundExpr(tab, p, fuel, inner, env1, c.cond, TBool);
    var b := Eval(p, fuel, env1, c.cond);
    if b.Ok? {
      if b.value.b {
        SoundScoped(tab, p, fuel, inner, env1, ret, inLoop, c.body);
      } else {
        SoundChain(tab, p, fuel, inner, env1, ret, inLoop, c.rest, fs);
      }
      var r := if b.value.b then ExecScoped(p, fuel, env1, c.body) else ExecChain(p, fuel, env1, c.rest, fs);
      if r.Ok? { OuterHas(tab, inner, r.value.env, |g|); }
    }
  }

  /// ## Terminating statements

  lemma {:induction false} EndsSo(p: Program, fuel: nat, env: Scopes, ss: seq<Stmt>)
    requires env != [] && Ends(ss)
    ensures var r := ExecAll(p, fuel, env, ss); r.Ok? ==> !r.value.sig.Next?
    decreases ss, 1
  {
    if |ss| > 1 {
      var r := Exec(p, fuel, env, ss[0]);
      if r.Ok? && r.value.sig.Next? { EndsSo(p, fuel, r.value.env, ss[1..]); }
    } else {
      StmtEndsSo(p, fuel, env, ss[0]);
    }
  }

  lemma {:induction false} StmtEndsSo(p: Program, fuel: nat, env: Scopes, s: Stmt)
    requires env != [] && StmtEnds(s)
    ensures var r := Exec(p, fuel, env, s); r.Ok? ==> !r.value.sig.Next?
    decreases s, 0
  {
    match s
    case Return(_) =>
    case ExprStmt(Apply(op, args)) =>
      var vs := EvalAll(p, fuel, env, args);
      if vs.Ok? { assert !Compute(p.untyped, op, vs.value).Ok?; }
    case If(chain) =>
      if p.eager {
        var frames := InitFrames(p, fuel, env, chain);
        if frames.Ok? { ChainEndsSo(p, fuel, env, chain, frames.value); }
      } else {
        ChainEndsSo(p, fuel, env, chain, []);
      }
    case Block(body) => EndsSo(p, fuel, env + [map[]], body);
  }

  lemma {:induction false} ChainEndsSo(p: Program, fuel: nat, env: Scopes, c: Chain, fs: seq<Scope>)
    requires ChainEnds(c) && (p.eager ==> |fs| == Clauses(c))
    ensures var r := ExecChain(p, fuel, env, c, fs); r.Ok? ==> !r.value.sig.Next?
    decreases c, 0
  {
    match c
    case Else(body) => EndsSo(p, fuel, env + [map[]], body);
    case Cond(init, cond, body, rest) =>
      var env1 := if p.eager then Ok(Enter(env, init, fs[0])) else ExecInit(p, fuel, env, init);
      if env1.Ok? {
        EndsSo(p, fuel, env1.value + [map[]], body);
        ChainEndsSo(p, fuel, env1.value, rest, if p.eager then fs[1..] else []);
      }
  }
}
