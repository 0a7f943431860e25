/** The Go subset that gotohelm accepts: syntax and a big-step semantics. */
module GoLang {
  import opened Wrappers
  import C = CountedLoop

  /// ## Values

  /** Maps and structs are key-sorted entry lists, the order in which they are ranged over.
      A function value is the name of a function and the receiver it captured, if any. */
  datatype Value =
    | Nil
    | Bool(b: bool)
    | Num(n: int)
    | Str(s: string)
    | List(elems: seq<Value>)
    | Map(entries: seq<Entry>)
    | Func(name: string, captured: seq<Value>)

  datatype Entry = Entry(key: string, value: Value)

  /// ## Expressions

  datatype Op =
    | Add | Sub | Mul | Less | LessEq        // on numbers
    | Concat                                 // string + string
    | Equal | NotEqual                       // on operands of one basic type
    | Not
    | IsNil | NotNil                         // x == nil, x != nil
    | Len
    | Append                                 // append(xs, v, ...)
    | AppendSpread                           // append(xs, ys...)
    | Index                                  // xs[i] on slices
    | MapIndex                               // m[k] on maps whose element zero is nil
    | MapGet(zero: Value)                    // m[k] on maps whose element zero is not nil
    | Field(field: string, pointer: bool)    // x.f on structs, or through a pointer to one
    | Deref                                  // *p on pointers to structs
    | MakeList                               // []T{...}
    | MakeMap(keys: seq<string>)             // map[string]T{...}
    | CmpOr                                  // cmp.Or on basic types
    | Counted(cmp: C.Cmp, post: C.Post)      // what i runs through in for i := a; i < b; i++ { ... }
    | Fail                                   // panic(...)

  datatype Expr =
    | Lit(v: Value)
    | Var(x: string)
    | Apply(op: Op, args: seq<Expr>)
    | And(left: Expr, right: Expr)
    | Or(left: Expr, right: Expr)
    | FuncRef(f: string)
    | MethodRef(f: string, recv: Expr, kind: Receiver)
    | Call(call: Invocation)

  /** A pointer receiver; a value receiver on a value; a value receiver on a pointer, which Go dereferences. */
  datatype Receiver = ByPointer | ByValue | Through

  datatype Invocation = Invocation(callee: Callee, args: seq<Expr>)

  datatype Callee =
    | Static(f: string)
    | Method(f: string, recv: Expr, kind: Receiver)
    | FuncValue(e: Expr)

  /// ## Statements

  /** The right side of an assignment to two or more variables: a call, or the comma-ok map test. */
  datatype MultiRhs =
    | MultiCall(call: Invocation)
    | MapTest(m: Expr, k: Expr, zero: Value)

  /** `line` is the source line of the statement, from which gotohelm names its intermediate variable. */
  datatype Assign =
    | Single(x: string, e: Expr)
    | Tuple(xs: seq<string>, es: seq<Expr>)
    | Multi(line: nat, xs: seq<string>, rhs: MultiRhs)

  datatype Stmt =
    | AssignStmt(define: bool, a: Assign)
    | ExprStmt(e: Expr)
    | Break
    | Continue
    | Return(es: seq<Expr>)
    | If(chain: Chain)
    | Range(key: string, val: string, over: Expr, body: seq<Stmt>)
    | Block(body: seq<Stmt>)

  /** An if/else-if chain.  A missing `else` is `Else([])`. */
  datatype Chain =
    | Else(body: seq<Stmt>)
    | Cond(init: Option<Assign>, cond: Expr, body: seq<Stmt>, rest: Chain)

  datatype FuncDecl = FuncDecl(name: string, params: seq<string>, body: seq<Stmt>)

  /** The functions of a file, in file order.  `eager` selects the evaluation order of `if` initialisers:
      Go's own (false), or all initialisers of a chain before its first condition (true).  `untyped` selects
      what nil does where it matters whether it is a map, a slice or a pointer, and how loops count: as in Go
      (false), or as in templates (true). */
  datatype Program = Program(funcs: seq<FuncDecl>, eager: bool, untyped: bool)

  function Find(funcs: seq<FuncDecl>, f: string): Option<FuncDecl> {
    if funcs == [] then None
    else if funcs[0].name == f then Some(funcs[0])
    else Find(funcs[1..], f)
  }

  /// ## Environments

  type Scope = map<string, Value>
  type Scopes = seq<Scope>  // innermost last

  const BLANK := "_"

  function Lookup(env: Scopes, x: string): Option<Value> {
    if env == [] then None
    else if x in env[|env| - 1] then Some(env[|env| - 1][x])
    else Lookup(env[..|env| - 1], x)
  }

  /** `x = v` writes the innermost variable named `x`. */
  function Update(env: Scopes, x: string, v: Value): (r: Option<Scopes>)
    ensures r.Some? ==> |r.value| == |env|
  {
    if env == [] then None
    else
      var top := env[|env| - 1];
      if x in top then Some(env[..|env| - 1] + [top[x := v]])
      else match Update(env[..|env| - 1], x, v)
        case None => None
        case Some(outer) => Some(outer + [top])
  }

  /** `x := v` declares `x` in the innermost scope, or assigns to it when that scope already declares it. */
  function Declare(env: Scopes, x: string, v: Value): (r: Scopes)
    requires env != []
  {
    env[..|env| - 1] + [env[|env| - 1][x := v]]
  }

  function Store(define: bool, env: Scopes, x: string, v: Value): (r: Res<Scopes>)
    requires env != []
    ensures r.Stuck? || (r.Ok? && |r.value| == |env|)
  {
    if x == BLANK then Ok(env)
    else if define then Ok(Declare(env, x, v))
    else match Update(env, x, v)
      case None => Stuck
      case Some(env') => Ok(env')
  }

  function StoreAll(define: bool, env: Scopes, xs: seq<string>, vs: seq<Value>): (r: Res<Scopes>)
    requires env != [] && |xs| == |vs|
    ensures r.Stuck? || (r.Ok? && |r.value| == |env|)
    decreases |xs|
  {
    if xs == [] then Ok(env)
    else
      var env' :- Store(define, env, xs[0], vs[0]);
      StoreAll(define, env', xs[1..], vs[1..])
  }

  /// ## Primitive operations

  function Get(entries: seq<Entry>, k: string): Option<Value> {
    if entries == [] then None
    else if entries[0].key == k then Some(entries[0].value)
    else Get(entries[1..], k)
  }

  /** Byte-wise string order. */
  predicate Before(a: string, b: string) {
    b != [] && (a == [] || a[0] < b[0] || (a[0] == b[0] && Before(a[1..], b[1..])))
  }

  function Put(entries: seq<Entry>, k: string, v: Value): seq<Entry> {
    if entries == [] then [Entry(k, v)]
    else if entries[0].key == k then [Entry(k, v)] + entries[1..]
    else if Before(k, entries[0].key) then [Entry(k, v)] + entries
    else [entries[0]] + Put(entries[1..], k, v)
  }

  function MapLiteral(keys: seq<string>, vs: seq<Value>): seq<Entry>
    requires |keys| == |vs|
  {
    if keys == [] then []
    else Put(MapLiteral(keys[..|keys| - 1], vs[..|vs| - 1]), keys[|keys| - 1], vs[|vs| - 1])
  }

  predicate SameBasic(a: Value, b: Value) {
    (a.Num? && b.Num?) || (a.Str? && b.Str?) || (a.Bool? && b.Bool?)
  }

  predicate IsZero(v: Value) {
    v == Num(0) || v == Str("") || v == Bool(false)
  }

  /** cmp.Or: the first operand that is not the zero value, else the zero value. */
  function FirstNonZero(vs: seq<Value>): Value
    requires vs != []
  {
    if |vs| == 1 || !IsZero(vs[0]) then vs[0] else FirstNonZero(vs[1..])
  }

  function Elems(v: Value): Option<seq<Value>> {
    match v
    case Nil => Some([])
    case List(xs) => Some(xs)
    case _ => None
  }

  /** `m[k]`: a key that is not there, like any key of a nil map, has the zero value. */
  function ReadMap(vs: seq<Value>, zero: Value): Res<Value> {
    if |vs| != 2 || !vs[1].Str? then Stuck
    else if vs[0].Nil? then Ok(zero)
    else if vs[0].Map? then Ok(match Get(vs[0].entries, vs[1].s) case Some(v) => v case None => zero)
    else Stuck
  }

  /** `m[k]` on a nil map. */
  predicate NilRead(op: Op, vs: seq<Value>) {
    (op.MapIndex? || op.MapGet?) && |vs| == 2 && vs[0].Nil? && vs[1].Str?
  }

  /** Appending nothing to a nil slice. */
  predicate NilAppend(op: Op, vs: seq<Value>) {
    if op.Append? then |vs| == 1 && vs[0].Nil?
    else op.AppendSpread? && |vs| == 2 && vs[0].Nil? && Elems(vs[1]) == Some([])
  }

  /** `*p` with a nil pointer. */
  predicate NilDeref(op: Op, vs: seq<Value>) {
    op.Deref? && |vs| == 1 && vs[0].Nil?
  }

  function Nums(ns: seq<int>): seq<Value> {
    seq(|ns|, i requires 0 <= i < |ns| => Num(ns[i]))
  }

  /** The bounds of a counted loop. */
  predicate Counts(op: Op, vs: seq<Value>) {
    op.Counted? && |vs| == 2 && vs[0].Num? && vs[1].Num?
  }

  /** A counted loop whose `untilStep` list is not what the loop variable runs through. */
  predicate Miscounted(op: Op, vs: seq<Value>) {
    Counts(op, vs) && !C.Agrees(op.cmp, op.post, vs[0].n, vs[1].n)
  }

  /** An operation, in Go and in what templates do instead: with one nil for all types, a nil map cannot be read,
      appending nothing to nil gives an empty list, and nil is passed on where Go dereferences it; a counted loop
      runs through an `untilStep` list. */
  function Compute(untyped: bool, op: Op, vs: seq<Value>): Res<Value> {
    if !untyped then Perform(op, vs)
    else if Counts(op, vs) then Ok(List(Nums(C.Emitted(op.cmp, op.post, vs[0].n, vs[1].n))))
    else if NilRead(op, vs) then Panic
    else if NilAppend(op, vs) then Ok(List([]))
    else if NilDeref(op, vs) then Ok(Nil)
    else Perform(op, vs)
  }

  /** The receiver that a method gets. */
  function Received(untyped: bool, kind: Receiver, r: Value): Res<Value> {
    if !untyped && kind.Through? && r.Nil? then Panic else Ok(r)
  }

  function Perform(op: Op, vs: seq<Value>): Res<Value> {
    match op
    case Add => if |vs| == 2 && vs[0].Num? && vs[1].Num? then Ok(Num(vs[0].n + vs[1].n)) else Stuck
    case Sub => if |vs| == 2 && vs[0].Num? && vs[1].Num? then Ok(Num(vs[0].n - vs[1].n)) else Stuck
    case Mul => if |vs| == 2 && vs[0].Num? && vs[1].Num? then Ok(Num(vs[0].n * vs[1].n)) else Stuck
    case Less => if |vs| == 2 && vs[0].Num? && vs[1].Num? then Ok(Bool(vs[0].n < vs[1].n)) else Stuck
    case LessEq => if |vs| == 2 && vs[0].Num? && vs[1].Num? then Ok(Bool(vs[0].n <= vs[1].n)) else Stuck
    case Concat => if |vs| == 2 && vs[0].Str? && vs[1].Str? then Ok(Str(vs[0].s + vs[1].s)) else Stuck
    case Equal => if |vs| == 2 && SameBasic(vs[0], vs[1]) then Ok(Bool(vs[0] == vs[1])) else Stuck
    case NotEqual => if |vs| == 2 && SameBasic(vs[0], vs[1]) then Ok(Bool(vs[0] != vs[1])) else Stuck
    case Not => if |vs| == 1 && vs[0].Bool? then Ok(Bool(!vs[0].b)) else Stuck
    case IsNil => if |vs| == 1 then Ok(Bool(vs[0].Nil?)) else Stuck
    case NotNil => if |vs| == 1 then Ok(Bool(!vs[0].Nil?)) else Stuck
    case Len => if |vs| != 1 then Stuck else (
      match vs[0]
      case Nil => Ok(Num(0))
      case Str(s) => Ok(Num(|s|))
      case List(xs) => Ok(Num(|xs|))
      case Map(es) => Ok(Num(|es|))
      case _ => Stuck)
    case Append =>
      if NilAppend(op, vs) then Ok(Nil)
      else if |vs| >= 1 && Elems(vs[0]).Some? then Ok(List(Elems(vs[0]).value + vs[1..])) else Stuck
    case AppendSpread =>
      if NilAppend(op, vs) then Ok(Nil)
      else if |vs| == 2 && Elems(vs[0]).Some? && Elems(vs[1]).Some?
      then Ok(List(Elems(vs[0]).value + Elems(vs[1]).value)) else Stuck
    case Index =>
      if |vs| != 2 || !vs[1].Num? then Stuck
      else if vs[0].List? then
        if 0 <= vs[1].n < |vs[0].elems| then Ok(vs[0].elems[vs[1].n]) else Panic
      else if vs[0].Nil? then Panic
      else Stuck
    case MapIndex => ReadMap(vs, Nil)
    case MapGet(zero) => ReadMap(vs, zero)
    case Field(f, pointer) =>
      if |vs| != 1 then Stuck
      else if vs[0].Nil? && pointer then Panic
      else if vs[0].Map? && Get(vs[0].entries, f).Some? then Ok(Get(vs[0].entries, f).value)
      else Stuck
    case Deref => if |vs| != 1 then Stuck else if vs[0].Nil? then Panic else Ok(vs[0])
    case MakeList => Ok(List(vs))
    case MakeMap(keys) => if |keys| == |vs| then Ok(Map(MapLiteral(keys, vs))) else Stuck
    case CmpOr =>
      if vs != [] && forall i :: 0 <= i < |vs| ==> SameBasic(vs[0], vs[i]) then Ok(FirstNonZero(vs)) else Stuck
    case Counted(cmp, post) =>
      if !Counts(op, vs) then Stuck
      else (
        match C.GoValues(cmp, C.Step(post), vs[0].n, vs[1].n)
        case Some(ns) => Ok(List(Nums(ns)))
        case None => Timeout)
    case Fail => Panic
  }

  /** `v, ok := m[k]` */
  function TestKey(m: Value, k: Value, zero: Value): Res<seq<Value>> {
    if m.Nil? && k.Str? then Ok([zero, Bool(false)])
    else if m.Map? && k.Str? then
      match Get(m.entries, k.s)
      case Some(v) => Ok([v, Bool(true)])
      case None => Ok([zero, Bool(false)])
    else Stuck
  }

  /** The key and element pairs that a `range` visits, in order. */
  function Items(v: Value): Option<seq<(Value, Value)>> {
    match v
    case Nil => Some([])
    case List(xs) => Some(seq(|xs|, i requires 0 <= i < |xs| => (Num(i), xs[i])))
    case Map(es) => Some(seq(|es|, i requires 0 <= i < |es| => (Str(es[i].key), es[i].value)))
    case _ => None
  }

  /// ## Evaluation

  datatype Signal = Next | Brk | Cont | Ret(vs: seq<Value>)
  datatype Flow = Flow(sig: Signal, env: Scopes)

  function Eval(p: Program, fuel: nat, env: Scopes, e: Expr): Res<Value>
    decreases fuel, e, 0
  {
    match e
    case Lit(v) => Ok(v)
    case Var(x) => (match Lookup(env, x) case Some(v) => Ok(v) case None => Stuck)
    case Apply(op, args) =>
      var vs :- EvalAll(p, fuel, env, args);
      Compute(p.untyped, op, vs)
    case And(left, right) =>
      var l :- Eval(p, fuel, env, left);
      if !l.Bool? then Stuck
      else if !l.b then Ok(l)
      else
        var r :- Eval(p, fuel, env, right);
        if r.Bool? then Ok(r) else Stuck
    case Or(left, right) =>
      var l :- Eval(p, fuel, env, left);
      if !l.Bool? then Stuck
      else if l.b then Ok(l)
      else
        var r :- Eval(p, fuel, env, right);
        if r.Bool? then Ok(r) else Stuck
    case FuncRef(f) => Ok(Func(f, []))
    case MethodRef(f, recv, kind) =>
      var v :- Eval(p, fuel, env, recv);
      var r :- Received(p.untyped, kind, v);
      Ok(Func(f, [r]))
    case Call(call) =>
      var vs :- EvalCall(p, fuel, env, call);
      if |vs| == 1 then Ok(vs[0]) else Stuck
  }

  function EvalAll(p: Program, fuel: nat, env: Scopes, es: seq<Expr>): (r: Res<seq<Value>>)
    ensures r.Ok? ==> |r.value| == |es|
    decreases fuel, es, 0
  {
    if es == [] then Ok([])
    else
      var v :- Eval(p, fuel, env, es[0]);
      var vs :- EvalAll(p, fuel, env, es[1..]);
      Ok([v] + vs)
  }

  /** A call in a context that takes any number of results. */
  function EvalCall(p: Program, fuel: nat, env: Scopes, call: Invocation): Res<seq<Value>>
    decreases fuel, call, 1
  {
    var target :- Target(p, fuel, env, call);
    if fuel == 0 then Timeout
    else
      var sig :- Invoke(p, fuel - 1, target.0, target.1);
      Results(sig)
  }

  /** The function that a call reaches and the arguments it passes, captured receiver first. */
  function Target(p: Program, fuel: nat, env: Scopes, call: Invocation): Res<(string, seq<Value>)>
    decreases fuel, call, 0
  {
    match call.callee
    case Static(f) =>
      var vs :- EvalAll(p, fuel, env, call.args);
      Ok((f, vs))
    case Method(f, recv, kind) =>
      var v :- Eval(p, fuel, env, recv);
      var r :- Received(p.untyped, kind, v);
      var vs :- EvalAll(p, fuel, env, call.args);
      Ok((f, [r] + vs))
    case FuncValue(e) =>
      var h :- Eval(p, fuel, env, e);
      var vs :- EvalAll(p, fuel, env, call.args);
      match h
      case Func(f, captured) => Ok((f, captured + vs))
      case Nil => Panic
      case _ => Stuck
  }

  /** The results of a call: those of the `return` it executed, or none if it fell off the end. */
  function Results(sig: Signal): Res<seq<Value>> {
    match sig
    case Ret(vs) => Ok(vs)
    case Next => Ok([])
    case _ => Stuck
  }

  /** How the body of function `f` ends when it is called with `vs` and may nest `fuel` more calls. */
  function Invoke(p: Program, fuel: nat, f: string, vs: seq<Value>): Res<Signal>
    decreases fuel
  {
    match Find(p.funcs, f)
    case None => Stuck
    case Some(decl) =>
      if |decl.params| != |vs| then Stuck
      else
        var env :- StoreAll(true, [map[]], decl.params, vs);
        var flow :- ExecAll(p, fuel, env, decl.body);
        Ok(flow.sig)
  }

  function ExecAssign(p: Program, fuel: nat, env: Scopes, define: bool, a: Assign): (r: Res<Scopes>)
    requires env != []
    ensures r.Ok? ==> |r.value| == |env|
    decreases fuel, a, 0
  {
    match a
    case Single(x, e) =>
      var v :- Eval(p, fuel, env, e);
      StoreAll(define, env, [x], [v])
    case Tuple(xs, es) =>
      var vs :- EvalAll(p, fuel, env, es);
      if |xs| == |vs| then StoreAll(define, env, xs, vs) else Stuck
    case Multi(_, xs, rhs) =>
      var vs :- EvalRhs(p, fuel, env, rhs);
      if |xs| == |vs| then StoreAll(define, env, xs, vs) else Stuck
  }

  function EvalRhs(p: Program, fuel: nat, env: Scopes, rhs: MultiRhs): Res<seq<Value>>
    decreases fuel, rhs, 0
  {
    match rhs
    case MultiCall(call) => EvalCall(p, fuel, env, call)
    case MapTest(me, ke, zero) =>
      var m :- Eval(p, fuel, env, me);
      var k :- Eval(p, fuel, env, ke);
      TestKey(m, k, zero)
  }

  function Exec(p: Program, fuel: nat, env: Scopes, s: Stmt): (r: Res<Flow>)
    requires env != []
    ensures r.Ok? ==> |r.value.env| == |env|
    decreases fuel, s, 0
  {
    match s
    case AssignStmt(define, a) =>
      var env' :- ExecAssign(p, fuel, env, define, a);
      Ok(Flow(Next, env'))
    case ExprStmt(e) =>
      if e.Call? then
        var _ :- EvalCall(p, fuel, env, e.call);
        Ok(Flow(Next, env))
      else
        var _ :- Eval(p, fuel, env, e);
        Ok(Flow(Next, env))
    case Break => Ok(Flow(Brk, env))
    case Continue => Ok(Flow(Cont, env))
    case Return(es) =>
      if |es| == 1 && es[0].Call? then
        var vs :- EvalCall(p, fuel, env, es[0].call);
        if vs == [] then Stuck else Ok(Flow(Ret(vs), env))
      else
        var vs :- EvalAll(p, fuel, env, es);
        Ok(Flow(Ret(vs), env))
    case If(chain) =>
      if p.eager then
        var frames :- InitFrames(p, fuel, env, chain);
        ExecChain(p, fuel, env, chain, frames)
      else
        ExecChain(p, fuel, env, chain, [])
    case Range(key, val, over, body) =>
      var o :- Eval(p, fuel, env, over);
      (match Items(o)
       case None => Stuck
       case Some(items) => Loop(p, fuel, env, key, val, items, body))
    case Block(body) => ExecScoped(p, fuel, env, body)
  }

  function ExecAll(p: Program, fuel: nat, env: Scopes, ss: seq<Stmt>): (r: Res<Flow>)
    requires env != []
    ensures r.Ok? ==> |r.value.env| == |env|
    decreases fuel, ss, 0
  {
    if ss == [] then Ok(Flow(Next, env))
    else
      var flow :- Exec(p, fuel, env, ss[0]);
      if flow.sig.Next? then ExecAll(p, fuel, flow.env, ss[1..]) else Ok(flow)
  }

  /** A block: its declarations end with it. */
  function ExecScoped(p: Program, fuel: nat, env: Scopes, ss: seq<Stmt>): (r: Res<Flow>)
    ensures r.Ok? ==> |r.value.env| == |env|
    decreases fuel, ss, 1
  {
    var flow :- ExecAll(p, fuel, env + [map[]], ss);
    Ok(Flow(flow.sig, flow.env[..|env|]))
  }

  /** One clause after the other.  An initialiser opens a scope that encloses the rest of the chain.
      Initialisers that were evaluated up front are in `frames`. */
  function ExecChain(p: Program, fuel: nat, env: Scopes, c: Chain, frames: seq<Scope>): (r: Res<Flow>)
    requires p.eager ==> |frames| == Clauses(c)
    ensures r.Ok? ==> |r.value.env| == |env|
    decreases fuel, c, 0
  {
    match c
    case Else(body) => ExecScoped(p, fuel, env, body)
    case Cond(init, cond, body, rest) =>
      var env1 :- if p.eager then Ok(Enter(env, init, frames[0])) else ExecInit(p, fuel, env, init);
      var b :- Eval(p, fuel, env1, cond);
      if !b.Bool? then Stuck
      else
        var flow :-
          if b.b then ExecScoped(p, fuel, env1, body)
          else ExecChain(p, fuel, env1, rest, if p.eager then frames[1..] else []);
        Ok(Flow(flow.sig, flow.env[..|env|]))
  }

  function Enter(env: Scopes, init: Option<Assign>, frame: Scope): Scopes {
    if init.None? then env else env + [frame]
  }

  /** The environment of a clause: a new scope with what its initialiser declares, if it has one. */
  function ExecInit(p: Program, fuel: nat, env: Scopes, init: Option<Assign>): (r: Res<Scopes>)
    ensures r.Ok? ==> |r.value| == |env| + if init.None? then 0 else 1
    decreases fuel, init, 0
  {
    match init
    case None => Ok(env)
    case Some(a) => ExecAssign(p, fuel, env + [map[]], true, a)
  }

  function Clauses(c: Chain): nat {
    match c
    case Else(_) => 0
    case Cond(_, _, _, rest) => 1 + Clauses(rest)
  }

  /** The scopes of a chain's clauses when every initialiser is evaluated before any condition. */
  function InitFrames(p: Program, fuel: nat, env: Scopes, c: Chain): (r: Res<seq<Scope>>)
    ensures r.Ok? ==> |r.value| == Clauses(c)
    decreases fuel, c, 0
  {
    match c
    case Else(_) => Ok([])
    case Cond(init, _, _, rest) =>
      var env1 :- ExecInit(p, fuel, env, init);
      var frames :- InitFrames(p, fuel, env1, rest);
      Ok([if init.None? then map[] else env1[|env|]] + frames)
  }

  function Loop(p: Program, fuel: nat, env: Scopes, key: string, val: string,
                items: seq<(Value, Value)>, body: seq<Stmt>): (r: Res<Flow>)
    ensures r.Ok? ==> |r.value.env| == |env|
    decreases fuel, body, 2, |items|
  {
    if items == [] then Ok(Flow(Next, env))
    else
      var env1 :- StoreAll(true, env + [map[]], [key, val], [items[0].0, items[0].1]);
      var flow :- ExecScoped(p, fuel, env1, body);
      var env2 := flow.env[..|env|];
      match flow.sig
      case Ret(_) => Ok(Flow(flow.sig, env2))
      case Brk => Ok(Flow(Next, env2))
      case _ => Loop(p, fuel, env2, key, val, items[1..], body)
  }
}
