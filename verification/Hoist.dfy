/** The rewrite that runs before the translation: it moves the initialisers of if-chains above them. */
module Hoist {
  import opened Wrappers
  import opened GoLang
  import T = Transpile

  /// ## Names

  /** The name given to variable `x` when it is the `k`-th that an initialiser declares in the file. */
  function Gen(x: string, k: nat): string {
    x + "_" + T.Digits(k)
  }

  /** What is in scope, innermost last: a block that declares `names`, or an initialiser whose variables
      get new names. */
  datatype Frame =
    | BlockFrame(names: set<string>)
    | IfFrame(renames: map<string, string>)

  /** The new name of a variable, found by Go's scoping. */
  function Rename(frames: seq<Frame>, x: string): string {
    if frames == [] then x
    else match frames[|frames| - 1]
      case BlockFrame(names) => if x in names then x else Rename(frames[..|frames| - 1], x)
      case IfFrame(renames) => if x in renames then renames[x] else Rename(frames[..|frames| - 1], x)
  }

  /// ## Expressions

  function HoistExpr(frames: seq<Frame>, e: Expr): Expr
    decreases e, 0
  {
    match e
    case Lit(v) => e
    case Var(x) => Var(Rename(frames, x))
    case Apply(op, args) => Apply(op, HoistExprs(frames, args))
    case And(left, right) => And(HoistExpr(frames, left), HoistExpr(frames, right))
    case Or(left, right) => Or(HoistExpr(frames, left), HoistExpr(frames, right))
    case FuncRef(f) => e
    case MethodRef(f, recv, kind) => MethodRef(f, HoistExpr(frames, recv), kind)
    case Call(call) => Call(HoistCall(frames, call))
  }

  function HoistExprs(frames: seq<Frame>, es: seq<Expr>): (r: seq<Expr>)
    ensures |r| == |es|
    decreases es, 0
  {
    if es == [] then [] else [HoistExpr(frames, es[0])] + HoistExprs(frames, es[1..])
  }

  function HoistCall(frames: seq<Frame>, c: Invocation): Invocation
    decreases c, 0
  {
    Invocation(
      match c.callee
      case Static(f) => c.callee
      case Method(f, recv, kind) => Method(f, HoistExpr(frames, recv), kind)
      case FuncValue(e) => FuncValue(HoistExpr(frames, e)),
      HoistExprs(frames, c.args))
  }

  function HoistRhs(frames: seq<Frame>, rhs: MultiRhs): MultiRhs {
    match rhs
    case MultiCall(call) => MultiCall(HoistCall(frames, call))
    case MapTest(m, k, zero) => MapTest(HoistExpr(frames, m), HoistExpr(frames, k), zero)
  }

  /// ## Assignments

  /** The same assignment, with the targets `xs`. */
  function Retarget(frames: seq<Frame>, a: Assign, xs: seq<string>): Assign
    requires |xs| == |T.Targets(a)|
  {
    match a
    case Single(_, e) => Single(xs[0], HoistExpr(frames, e))
    case Tuple(_, es) => Tuple(xs, HoistExprs(frames, es))
    case Multi(line, _, rhs) => Multi(line, xs, HoistRhs(frames, rhs))
  }

  function RenameAll(frames: seq<Frame>, xs: seq<string>): (r: seq<string>)
    ensures |r| == |xs|
  {
    if xs == [] then [] else [if xs[0] == BLANK then BLANK else Rename(frames, xs[0])] + RenameAll(frames, xs[1..])
  }

  /** A declaration keeps its names: it stands in a block. */
  function HoistAssign(frames: seq<Frame>, define: bool, a: Assign): Assign {
    Retarget(frames, a, if define then T.Targets(a) else RenameAll(frames, T.Targets(a)))
  }

  /// ## Initialisers

  /** How many names an initialiser with targets `xs` uses up. */
  function Named(xs: seq<string>): nat {
    if xs == [] then 0 else (if xs[0] == BLANK then 0 else 1) + Named(xs[1..])
  }

  /** The new names of the targets of an initialiser, when `n` were given out before. */
  function Renames(xs: seq<string>, n: nat): map<string, string> {
    if xs == [] then map[]
    else if xs[0] == BLANK then Renames(xs[1..], n)
    else map[xs[0] := Gen(xs[0], n + 1)] + Renames(xs[1..], n + 1)
  }

  function NewTargets(xs: seq<string>, n: nat): (r: seq<string>)
    ensures |r| == |xs|
  {
    if xs == [] then []
    else if xs[0] == BLANK then [BLANK] + NewTargets(xs[1..], n)
    else [Gen(xs[0], n + 1)] + NewTargets(xs[1..], n + 1)
  }

  function Enclose(frames: seq<Frame>, init: Option<Assign>, n: nat): seq<Frame> {
    if init.None? then frames else frames + [IfFrame(Renames(T.Targets(init.value), n))]
  }

  /** The hoisted initialiser: evaluated outside the chain, under the new names. */
  function HoistInit(frames: seq<Frame>, init: Option<Assign>, n: nat): seq<Stmt> {
    if init.None? then []
    else
      [AssignStmt(true, Retarget(frames, init.value, NewTargets(T.Targets(init.value), n)))]
  }

  function InitNamed(init: Option<Assign>): nat {
    if init.None? then 0 else Named(T.Targets(init.value))
  }

  /** Names used up by the initialisers inside a statement, in the order of a walk over the tree. */
  function Count(s: Stmt): nat
    decreases s, 0
  {
    match s
    case If(chain) => CountChain(chain)
    case Range(_, _, _, body) => CountAll(body)
    case Block(body) => CountAll(body)
    case _ => 0
  }

  function CountAll(ss: seq<Stmt>): nat
    decreases ss, 0
  {
    if ss == [] then 0 else Count(ss[0]) + CountAll(ss[1..])
  }

  function CountChain(c: Chain): nat
    decreases c, 0
  {
    match c
    case Else(body) => CountAll(body)
    case Cond(init, _, body, rest) => InitNamed(init) + CountAll(body) + CountChain(rest)
  }

  /// ## Statements

  predicate InBlock(frames: seq<Frame>) {
    frames != [] && frames[|frames| - 1].BlockFrame?
  }

  function Grow(frames: seq<Frame>, s: Stmt): seq<Frame>
    requires InBlock(frames)
  {
    var n := |frames| - 1;
    frames[..n] + [BlockFrame(frames[n].names + (T.Declared(s) - {BLANK}))]
  }

  function HoistStmt(frames: seq<Frame>, s: Stmt, n: nat): seq<Stmt>
    decreases s, 0
  {
    match s
    case AssignStmt(define, a) => [AssignStmt(define, HoistAssign(frames, define, a))]
    case ExprStmt(e) => [ExprStmt(HoistExpr(frames, e))]
    case Break => [s]
    case Continue => [s]
    case Return(es) => [Return(HoistExprs(frames, es))]
    case If(chain) => HoistInits(frames, chain, n) + [If(HoistChain(frames, chain, n))]
    case Range(key, val, over, body) =>
      [Range(key, val, HoistExpr(frames, over),
             HoistStmts(frames + [BlockFrame({key, val} - {BLANK}), BlockFrame({})], body, n))]
    case Block(body) => [Block(HoistStmts(frames + [BlockFrame({})], body, n))]
  }

  function HoistStmts(frames: seq<Frame>, ss: seq<Stmt>, n: nat): seq<Stmt>
    requires InBlock(frames)
    decreases ss, 0
  {
    if ss == [] then []
    else HoistStmt(frames, ss[0], n) + HoistStmts(Grow(frames, ss[0]), ss[1..], n + Count(ss[0]))
  }

  /** The initialisers of a chain, in order. */
  function HoistInits(frames: seq<Frame>, c: Chain, n: nat): seq<Stmt>
    decreases c
  {
    match c
    case Else(_) => []
    case Cond(init, _, body, rest) =>
      var n1 := n + InitNamed(init);
      HoistInit(frames, init, n) + HoistInits(Enclose(frames, init, n), rest, n1 + CountAll(body))
  }

  /** The chain without its initialisers. */
  function HoistChain(frames: seq<Frame>, c: Chain, n: nat): Chain
    decreases c, 0
  {
    match c
    case Else(body) => Else(HoistStmts(frames + [BlockFrame({})], body, n))
    case Cond(init, cond, body, rest) =>
      var n1 := n + InitNamed(init);
      var frames1 := Enclose(frames, init, n);
      Cond(None, HoistExpr(frames1, cond),
           HoistStmts(frames1 + [BlockFrame({})], body, n1),
           HoistChain(frames1, rest, n1 + CountAll(body)))
  }

  /** The functions of a file share one counter. */
  function HoistFuncs(fs: seq<FuncDecl>, n: nat): seq<FuncDecl> {
    if fs == [] then []
    else
      [FuncDecl(fs[0].name, fs[0].params, HoistStmts([BlockFrame((set x | x in fs[0].params) - {BLANK})], fs[0].body, n))]
      + HoistFuncs(fs[1..], n + CountAll(fs[0].body))
  }

  function CountFuncs(fs: seq<FuncDecl>): nat {
    if fs == [] then 0 else CountAll(fs[0].body) + CountFuncs(fs[1..])
  }

  function HoistProgram(p: Program): Program {
    Program(HoistFuncs(p.funcs, 0), false, p.untyped)
  }

  /// ## Names that are asked not to clash

  /** Variables that initialisers declare. */
  function InitVars(s: Stmt): set<string>
    decreases s, 0
  {
    match s
    case If(chain) => ChainInitVars(chain)
    case Range(_, _, _, body) => AllInitVars(body)
    case Block(body) => AllInitVars(body)
    case _ => {}
  }

  function AllInitVars(ss: seq<Stmt>): set<string>
    decreases ss, 0
  {
    if ss == [] then {} else InitVars(ss[0]) + AllInitVars(ss[1..])
  }

  function ChainInitVars(c: Chain): set<string>
    decreases c, 0
  {
    match c
    case Else(body) => AllInitVars(body)
    case Cond(init, _, body, rest) =>
      (if init.None? then {} else set x | x in T.Targets(init.value)) + AllInitVars(body) + ChainInitVars(rest)
  }

  /** Variables that blocks and loops declare. */
  function BlockVars(s: Stmt): set<string>
    decreases s, 0
  {
    match s
    case AssignStmt(_, _) => T.Declared(s)
    case If(chain) => ChainBlockVars(chain)
    case Range(key, val, _, body) => {key, val} + AllBlockVars(body)
    case Block(body) => AllBlockVars(body)
    case _ => {}
  }

  function AllBlockVars(ss: seq<Stmt>): set<string>
    decreases ss, 0
  {
    if ss == [] then {} else BlockVars(ss[0]) + AllBlockVars(ss[1..])
  }

  function ChainBlockVars(c: Chain): set<string>
    decreases c, 0
  {
    match c
    case Else(body) => AllBlockVars(body)
    case Cond(_, _, body, rest) => AllBlockVars(body) + ChainBlockVars(rest)
  }

  /** Each initialiser declares distinct variables. */
  predicate GoodInits(s: Stmt)
    decreases s, 0
  {
    match s
    case If(chain) => GoodChainInits(chain)
    case Range(_, _, _, body) => AllGoodInits(body)
    case Block(body) => AllGoodInits(body)
    case _ => true
  }

  predicate AllGoodInits(ss: seq<Stmt>)
    decreases ss, 0
  {
    ss != [] ==> GoodInits(ss[0]) && AllGoodInits(ss[1..])
  }

  predicate GoodChainInits(c: Chain)
    decreases c, 0
  {
    match c
    case Else(body) => AllGoodInits(body)
    case Cond(init, _, body, rest) =>
      (init.Some? ==> Distinct(T.Targets(init.value))) && AllGoodInits(body) && GoodChainInits(rest)
  }

  predicate Distinct(xs: seq<string>) {
    forall i, j :: 0 <= i < j < |xs| && xs[i] != BLANK ==> xs[i] != xs[j]
  }

  function FileInitVars(fs: seq<FuncDecl>): set<string> {
    if fs == [] then {} else AllInitVars(fs[0].body) + FileInitVars(fs[1..])
  }

  function FileBlockVars(fs: seq<FuncDecl>): set<string> {
    if fs == [] then {} else (set x | x in fs[0].params) + AllBlockVars(fs[0].body) + FileBlockVars(fs[1..])
  }

  /** The names that hoisting may give out. */
  function Generated(xs: set<string>, limit: nat): set<string> {
    set x, k | x in xs && 1 <= k <= limit :: Gen(x, k)
  }

  /** Go code that the rewrite handles: initialisers declare distinct variables, and no variable that a
      block, a loop or a parameter list declares already has a name that the rewrite gives out. */
  predicate Hoistable(fs: seq<FuncDecl>) {
    && (forall i :: 0 <= i < |fs| ==> AllGoodInits(fs[i].body))
    && FileBlockVars(fs) !! Generated(FileInitVars(fs), CountFuncs(fs))
  }

  /// ## The rewrite

  lemma {:induction false} Override(a: map<string, string>, x: string, y: string, b: map<string, string>)
    ensures a + (map[x := y] + b) == a[x := y] + b
  {
  }

  /** The rewrite of one file: a walk that numbers initialisers as it meets them. */
  class Rewriter {
    var count: nat

    constructor ()
      ensures count == 0
    {
      count := 0;
    }

    /** New names for the targets of an initialiser. */
    method NewNames(xs: seq<string>) returns (ys: seq<string>, renames: map<string, string>)
      modifies this
      ensures ys == NewTargets(xs, old(count)) && renames == Renames(xs, old(count))
      ensures count == old(count) + Named(xs)
    {
      hide Gen;
      ys, renames := [], map[];
      for i := 0 to |xs|
        invariant count + Named(xs[i..]) == old(count) + Named(xs)
        invariant ys + NewTargets(xs[i..], count) == NewTargets(xs, old(count))
        invariant renames + Renames(xs[i..], count) == Renames(xs, old(count))
      {
        assert xs[i..][1..] == xs[i + 1..];
        var rest := NewTargets(xs[i + 1..], if xs[i] == BLANK then count else count + 1);
        if xs[i] == BLANK {
          assert ys + ([BLANK] + rest) == (ys + [BLANK]) + rest;
          ys := ys + [BLANK];
        } else {
          count := count + 1;
          var y := Gen(xs[i], count);
          assert ys + ([y] + rest) == (ys + [y]) + rest;
          Override(renames, xs[i], y, Renames(xs[i + 1..], count));
          ys, renames := ys + [y], renames[xs[i] := y];
        }
      }
    }

    method Stmts(frames: seq<Frame>, ss: seq<Stmt>) returns (out: seq<Stmt>)
      requires InBlock(frames)
      modifies this
      ensures out == HoistStmts(frames, ss, old(count)) && count == old(count) + CountAll(ss)
      decreases ss, 0
    {
      hide HoistStmt, Count;
      out := [];
      var inner := frames;
      for i := 0 to |ss|
        invariant InBlock(inner)
        invariant out + HoistStmts(inner, ss[i..], count) == HoistStmts(frames, ss, old(count))
        invariant count + CountAll(ss[i..]) == old(count) + CountAll(ss)
      {
        assert ss[i..][1..] == ss[i + 1..];
        var more := One(inner, ss[i]);
        out := out + more;
        inner := Grow(inner, ss[i]);
      }
    }

    method One(frames: seq<Frame>, s: Stmt) returns (out: seq<Stmt>)
      modifies this
      ensures out == HoistStmt(frames, s, old(count)) && count == old(count) + Count(s)
      decreases s, 0
    {
      match s
      case If(chain) =>
        var inits, rest := IfChain(frames, chain);
        out := inits + [If(rest)];
      case Range(key, val, over, body) =>
        var body' := Stmts(frames + [BlockFrame({key, val} - {BLANK}), BlockFrame({})], body);
        out := [Range(key, val, HoistExpr(frames, over), body')];
      case Block(body) =>
        var body' := Stmts(frames + [BlockFrame({})], body);
        out := [Block(body')];
      case AssignStmt(define, a) => out := [AssignStmt(define, HoistAssign(frames, define, a))];
      case ExprStmt(e) => out := [ExprStmt(HoistExpr(frames, e))];
      case Return(es) => out := [Return(HoistExprs(frames, es))];
      case Break => out := [s];
      case Continue => out := [s];
    }

    method Init(frames: seq<Frame>, init: Option<Assign>) returns (out: seq<Stmt>, frames1: seq<Frame>)
      modifies this
      ensures out == HoistInit(frames, init, old(count)) && frames1 == Enclose(frames, init, old(count))
      ensures count == old(count) + InitNamed(init)
    {
      if init.None? {
        out, frames1 := [], frames;
      } else {
        var ys, renames := NewNames(T.Targets(init.value));
        out, frames1 := [AssignStmt(true, Retarget(frames, init.value, ys))], frames + [IfFrame(renames)];
      }
    }

    /** The initialisers of a chain, to be inserted before it, and the chain without them. */
    method IfChain(frames: seq<Frame>, c: Chain) returns (inits: seq<Stmt>, rest: Chain)
      modifies this
      ensures inits == HoistInits(frames, c, old(count)) && rest == HoistChain(frames, c, old(count))
      ensures count == old(count) + CountChain(c)
      decreases c, 0
    {
      hide HoistStmts, HoistInit, Enclose, CountAll, HoistExpr, InitNamed;
      match c
      case Else(body) =>
        var body' := Stmts(frames + [BlockFrame({})], body);
        inits, rest := [], Else(body');
      case Cond(init, cond, body, more) =>
        var frames1;
        inits, frames1 := Init(frames, init);
        var body' := Stmts(frames1 + [BlockFrame({})], body);
        var inits', rest' := IfChain(frames1, more);
        inits, rest := inits + inits', Cond(None, HoistExpr(frames1, cond), body', rest');
    }

    method File(fs: seq<FuncDecl>) returns (out: seq<FuncDecl>)
      modifies this
      ensures out == HoistFuncs(fs, old(count)) && count == old(count) + CountFuncs(fs)
    {
      hide HoistStmts, CountAll;
      out := [];
      for i := 0 to |fs|
        invariant out + HoistFuncs(fs[i..], count) == HoistFuncs(fs, old(count))
        invariant count + CountFuncs(fs[i..]) == old(count) + CountFuncs(fs)
      {
        assert fs[i..][1..] == fs[i + 1..];
        var params := (set x | x in fs[i].params) - {BLANK};
        var body := Stmts([BlockFrame(params)], fs[i].body);
        out := out + [FuncDecl(fs[i].name, fs[i].params, body)];
      }
    }
  }
}
