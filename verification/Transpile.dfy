/** gotohelm's translation of Go functions to template nodes. */
module Transpile {
  import opened Wrappers
  import C = CountedLoop
  import G = GoLang
  import opened HelmTemplate
  import E = Emit

  /// ## Values

  /** The template value that stands for a Go value: its JSON form.  A function value is the list of its
      template name and its captured receiver. */
  function Enc(v: G.Value): Json
    decreases v, 0
  {
    match v
    case Nil => JNull
    case Bool(b) => JBool(b)
    case Num(n) => JNum(n)
    case Str(s) => JStr(s)
    case List(xs) => JList(EncAll(xs))
    case Map(es) => JDict(EncEntries(es))
    case Func(name, captured) => JList([JStr(name)] + EncAll(captured))
  }

  function EncAll(vs: seq<G.Value>): (r: seq<Json>)
    ensures |r| == |vs| && forall i :: 0 <= i < |vs| ==> r[i] == Enc(vs[i])
    decreases vs, 0
  {
    if vs == [] then [] else [Enc(vs[0])] + EncAll(vs[1..])
  }

  function EncEntries(es: seq<G.Entry>): (r: seq<(string, Json)>)
    ensures |r| == |es| && forall i :: 0 <= i < |es| ==> r[i] == (es[i].key, Enc(es[i].value))
    decreases es, 0
  {
    if es == [] then [] else [(es[0].key, Enc(es[0].value))] + EncEntries(es[1..])
  }

  /// ## Expressions

  /** Where the translation of an ill-formed operation stops. */
  function Unsupported(): TExpr {
    TApply(BFail, [])
  }

  function OrEmpty(e: TExpr): TExpr {
    TApply(BDefault, [TApply(BList, []), e])
  }

  /** `cmp.Or(a, b, c)` is `(default (default c b) a)`. */
  function FoldOr(args: seq<TExpr>): TExpr {
    if |args| == 0 then Unsupported()
    else if |args| == 1 then args[0]
    else TApply(BDefault, [FoldOr(args[1..]), args[0]])
  }

  /** `(untilStep start stop step)`: for `>` and `>=` the bound is taken for the start, and `-=` swaps the two. */
  function UntilStep(cmp: C.Cmp, post: C.Post, init: TExpr, bound: TExpr): TExpr {
    var start := if C.Up(cmp) then init else bound;
    var stop := if C.Up(cmp) then bound else init;
    if post.Sub? then TApply(BUntilStep, [stop, start, TLit(JNum(0 - post.k))])
    else TApply(BUntilStep, [start, stop, TLit(JNum(C.Step(post)))])
  }

  function TranspileOp(op: G.Op, args: seq<TExpr>): TExpr {
    match op
    case Add => TApply(BAdd, args)
    case Sub => TApply(BSub, args)
    case Mul => TApply(BMul, args)
    case Less => TApply(BLt, args)
    case LessEq => TApply(BLe, args)
    case Concat => TApply(BPrintf2, args)
    case Equal => TApply(BEq, args)
    case NotEqual => TApply(BNe, args)
    case Not => TApply(BNot, args)
    case IsNil => TApply(BEq, [TApply(BToJson, args), TLit(Text([JNull]))])
    case NotNil => TApply(BNe, [TApply(BToJson, args), TLit(Text([JNull]))])
    case Len => TApply(BLen, args)
    case Append =>
      if args == [] then Unsupported() else TApply(BConcat, [OrEmpty(args[0]), TApply(BList, args[1..])])
    case AppendSpread =>
      if |args| != 2 then Unsupported() else TApply(BConcat, [OrEmpty(args[0]), OrEmpty(args[1])])
    case Index => TApply(BIndex, args)
    case MapIndex => TApply(BIndex, args)
    case MapGet(zero) => TApply(BTernary, [TApply(BIndex, args), TLit(Enc(zero)), TApply(BHasKey, args)])
    case Field(f, _) => TApply(BField(f), args)
    case Deref => if |args| != 1 then Unsupported() else args[0]
    case MakeList => TApply(BList, args)
    case MakeMap(keys) => TApply(BDict(keys), args)
    case CmpOr => FoldOr(args)
    case Counted(cmp, post) => if |args| != 2 then Unsupported() else UntilStep(cmp, post, args[0], args[1])
    case Fail => TApply(BFail, args)
  }

  /** Value receivers are copied. */
  function Receiver(kind: G.Receiver, e: TExpr): TExpr {
    if kind.ByPointer? then e else TApply(BDeepCopy, [e])
  }

  function TranspileExpr(e: G.Expr): TExpr
    decreases e, 0
  {
    match e
    case Lit(v) => TLit(Enc(v))
    case Var(x) => TVar(x)
    case Apply(op, args) => TranspileOp(op, TranspileExprs(args))
    case And(left, right) => TAnd(TranspileExpr(left), TranspileExpr(right))
    case Or(left, right) => TOr(TranspileExpr(left), TranspileExpr(right))
    case FuncRef(f) => TApply(BList, [TLit(JStr(f))])
    case MethodRef(f, recv, kind) => TApply(BList, [TLit(JStr(f)), Receiver(kind, TranspileExpr(recv))])
    case Call(call) => TranspileCall(call)
  }

  function TranspileExprs(es: seq<G.Expr>): (r: seq<TExpr>)
    ensures |r| == |es|
    decreases es, 0
  {
    if es == [] then [] else [TranspileExpr(es[0])] + TranspileExprs(es[1..])
  }

  function TranspileCall(c: G.Invocation): TExpr
    decreases c, 0
  {
    match c.callee
    case Static(f) => E.CallNode(TLit(JStr(f)), BList, TranspileExprs(c.args))
    case Method(f, recv, kind) =>
      E.CallNode(TLit(JStr(f)), BList, [Receiver(kind, TranspileExpr(recv))] + TranspileExprs(c.args))
    case FuncValue(e) =>
      E.CallNode(TApply(BFirst, [TranspileExpr(e)]), BConcat,
                 [TApply(BRest, [TranspileExpr(e)]), TApply(BList, TranspileExprs(c.args))])
  }

  /// ## Statements

  function Digits(n: nat): (s: string)
    ensures s != [] && '0' <= s[0] <= '9'
  {
    var d := [('0' as int + n % 10) as char];
    if n < 10 then d else Digits(n / 10) + d
  }

  function Join(xs: seq<string>): string {
    if xs == [] then [] else "_" + xs[0] + Join(xs[1..])
  }

  /** `x, ok := ...` on line 12 goes through `$_12_x_ok`. */
  function Intermediate(line: nat, xs: seq<string>): string {
    "_" + Digits(line) + Join(xs)
  }

  function Unpack(define: bool, from: string, xs: seq<string>, i: nat): seq<E.Node>
    requires i <= |xs|
    decreases |xs| - i
  {
    if i == |xs| then []
    else [E.Assignment(xs[i], define, TApply(BIndex, [TVar(from), TLit(JNum(i))]))] + Unpack(define, from, xs, i + 1)
  }

  function Unroll(define: bool, xs: seq<string>, es: seq<G.Expr>): seq<E.Node> {
    if xs == [] || es == [] then []
    else [E.Assignment(xs[0], define, TranspileExpr(es[0]))] + Unroll(define, xs[1..], es[1..])
  }

  function TranspileRhs(rhs: G.MultiRhs): TExpr {
    match rhs
    case MultiCall(call) => TranspileCall(call)
    case MapTest(m, k, zero) => TApply(BDictTest, [TranspileExpr(m), TranspileExpr(k), TLit(Enc(zero))])
  }

  function TranspileAssign(define: bool, a: G.Assign): E.Node {
    match a
    case Single(x, e) => E.Assignment(x, define, TranspileExpr(e))
    case Tuple(xs, es) => E.Block(Unroll(define, xs, es))
    case Multi(line, xs, rhs) =>
      var tmp := Intermediate(line, xs);
      E.Block([E.Assignment(tmp, true, TranspileRhs(rhs))] + Unpack(define, tmp, xs, 0))
  }

  function TranspileStatement(s: G.Stmt): E.Node
    decreases s, 0
  {
    match s
    case AssignStmt(define, a) => TranspileAssign(define, a)
    case ExprStmt(e) => E.Capture(TranspileExpr(e))
    case Break => E.BreakNode
    case Continue => E.ContinueNode
    case Return(es) =>
      if |es| == 1 then E.Return(TranspileExpr(es[0])) else E.Return(TApply(BList, TranspileExprs(es)))
    case If(chain) => TranspileChain(chain)
    case Range(key, val, over, body) => E.Range(key, val, TranspileExpr(over), E.Block(TranspileStatements(body)))
    case Block(body) => E.Block(TranspileStatements(body))
  }

  function TranspileStatements(ss: seq<G.Stmt>): seq<E.Node>
    decreases ss, 0
  {
    if ss == [] then [] else [TranspileStatement(ss[0])] + TranspileStatements(ss[1..])
  }

  function TranspileChain(c: G.Chain): E.Node
    decreases c, 0
  {
    match c
    case Else(body) => E.Block(TranspileStatements(body))
    case Cond(init, cond, body, rest) =>
      E.IfStmt(if init.None? then None else Some(TranspileAssign(true, init.value)),
               TranspileExpr(cond),
               E.Block(TranspileStatements(body)),
               if rest == G.Else([]) then None else Some(TranspileChain(rest)))
  }

  function TranspileFuncs(fs: seq<G.FuncDecl>): seq<E.FuncNode> {
    if fs == [] then []
    else [E.FuncNode(fs[0].name, fs[0].params, TranspileStatements(fs[0].body))] + TranspileFuncs(fs[1..])
  }

  /// ## What the translation takes for granted

  /** A name that gotohelm itself uses: the return flag, or an intermediate variable. */
  predicate Reserved(x: string) {
    x == E.FLAG || (|x| >= 2 && x[0] == '_' && '0' <= x[1] <= '9')
  }

  /** A Go variable that can be read back. */
  predicate UserName(x: string) {
    x != G.BLANK && !Reserved(x)
  }

  predicate GoodName(x: string) {
    x == G.BLANK || UserName(x)
  }

  predicate GoodNames(xs: seq<string>) {
    forall i :: 0 <= i < |xs| ==> GoodName(xs[i])
  }

  function FreeVars(e: G.Expr): set<string>
    decreases e, 0
  {
    match e
    case Lit(_) => {}
    case Var(x) => {x}
    case Apply(_, args) => AllFreeVars(args)
    case And(left, right) => FreeVars(left) + FreeVars(right)
    case Or(left, right) => FreeVars(left) + FreeVars(right)
    case FuncRef(_) => {}
    case MethodRef(_, recv, _) => FreeVars(recv)
    case Call(call) => CallFreeVars(call)
  }

  function AllFreeVars(es: seq<G.Expr>): set<string>
    decreases es, 0
  {
    if es == [] then {} else FreeVars(es[0]) + AllFreeVars(es[1..])
  }

  function CallFreeVars(c: G.Invocation): set<string>
    decreases c, 0
  {
    AllFreeVars(c.args) + (match c.callee
      case Static(_) => {}
      case Method(_, recv, _) => FreeVars(recv)
      case FuncValue(e) => FreeVars(e))
  }

  /** A tuple assignment is unrolled in order, so no right side may read an earlier left side. */
  predicate InOrder(xs: seq<string>, es: seq<G.Expr>) {
    |xs| == |es| && forall i, j :: 0 <= i < j < |xs| ==> xs[i] !in FreeVars(es[j])
  }

  function Targets(a: G.Assign): seq<string> {
    match a
    case Single(x, _) => [x]
    case Tuple(xs, _) => xs
    case Multi(_, xs, _) => xs
  }

  predicate GoodAssign(a: G.Assign) {
    && GoodNames(Targets(a))
    && (a.Tuple? ==> InOrder(a.xs, a.es))
    && (a.Multi? ==> |a.xs| >= 2)
  }

  /** What a statement declares in the scope it stands in. */
  function Declared(s: G.Stmt): set<string> {
    if s.AssignStmt? then NewNames(s.define, Targets(s.a)) else {}
  }

  function NewNames(define: bool, xs: seq<string>): set<string> {
    if define then (set x | x in xs) else {}
  }

  function AllDeclared(ss: seq<G.Stmt>): set<string> {
    if ss == [] then {} else Declared(ss[0]) + AllDeclared(ss[1..])
  }

  /** `visible` are the variables in scope.  A bare block opens no scope in the template, so what it
      declares must not hide a visible variable.  Initialisers have been hoisted. */
  predicate GoodStmt(s: G.Stmt, visible: set<string>)
    decreases s, 0
  {
    match s
    case AssignStmt(_, a) => GoodAssign(a)
    case If(chain) => chain.Cond? && GoodChain(chain, visible)
    case Range(key, val, _, body) =>
      GoodName(key) && GoodName(val) && GoodStmts(body, visible + {key, val})
    case Block(body) => AllDeclared(body) !! visible && GoodStmts(body, visible)
    case _ => true
  }

  predicate GoodStmts(ss: seq<G.Stmt>, visible: set<string>)
    decreases ss, 0
  {
    ss != [] ==> GoodStmt(ss[0], visible) && GoodStmts(ss[1..], visible + Declared(ss[0]))
  }

  predicate GoodChain(c: G.Chain, visible: set<string>)
    decreases c, 0
  {
    match c
    case Else(body) => GoodStmts(body, visible)
    case Cond(init, _, body, rest) => init.None? && GoodStmts(body, visible) && GoodChain(rest, visible)
  }

  predicate GoodFunc(f: G.FuncDecl) {
    GoodNames(f.params) && GoodStmts(f.body, set x | x in f.params)
  }

  predicate GoodFuncs(fs: seq<G.FuncDecl>) {
    forall i :: 0 <= i < |fs| ==> GoodFunc(fs[i])
  }
}
