/** The part of text/template, sprig and Helm that the emitted templates use. */
module HelmTemplate {
  import opened Wrappers
  import C = CountedLoop

  /// ## Values

  /** What template variables hold.  `Text` is a string made of the JSON renderings of `docs`, one after
      the other: what `toJson` returns (one document) and what rendering a template returns (any number). */
  datatype Json =
    | JNull
    | JBool(b: bool)
    | JNum(n: int)
    | JStr(s: string)
    | JList(elems: seq<Json>)
    | JDict(entries: seq<(string, Json)>)
    | Text(docs: seq<Json>)

  /// ## Syntax

  /** Builtins, and the helpers of `_shims` by what they are documented to return. */
  datatype Builtin =
    | BAdd | BSub | BMul | BLt | BLe | BPrintf2 | BEq | BNe | BNot
    | BToJson | BFromJson
    | BList | BDict(keys: seq<string>) | BConcat | BDefault | BFirst | BRest
    | BIndex | BHasKey | BTernary | BGet(key: string) | BField(field: string)
    | BDeepCopy | BFail
    | BLen | BDictTest | BUntilStep

  datatype TExpr =
    | TLit(v: Json)
    | TVar(x: string)
    | TApply(f: Builtin, args: seq<TExpr>)
    | TAnd(left: TExpr, right: TExpr)
    | TOr(left: TExpr, right: TExpr)
    | TInclude(name: TExpr, dot: TExpr)

  datatype TStmt =
    | TAssign(x: string, isNew: bool, e: TExpr)    // {{ $x := e }} or {{ $x = e }}
    | TEmit(e: TExpr)                              // {{ e | toJson }}
    | TBreak
    | TContinue
    | TIf(cond: TExpr, thn: seq<TStmt>, els: seq<TStmt>)
    | TRange(decl: seq<string>, over: TExpr, body: seq<TStmt>)

  /** `define "name"`; each parameter is bound to `(index .a i)` before the body. */
  datatype Define = Define(name: string, params: seq<string>, body: seq<TStmt>)

  function FindDefine(defs: seq<Define>, f: string): Option<Define> {
    if defs == [] then None
    else if defs[0].name == f then Some(defs[0])
    else FindDefine(defs[1..], f)
  }

  /// ## Variables

  /** The variable stack, most recent last: `:=` pushes, `=` writes the most recent variable of that
      name, and leaving an `if` or a `range` pops back to where it started. */
  datatype Binding = Binding(name: string, value: Json)

  function FindVar(vars: seq<Binding>, x: string): Option<Json> {
    if vars == [] then None
    else if vars[|vars| - 1].name == x then Some(vars[|vars| - 1].value)
    else FindVar(vars[..|vars| - 1], x)
  }

  function SetVar(vars: seq<Binding>, x: string, v: Json): (r: Option<seq<Binding>>)
    ensures r.Some? ==> |r.value| == |vars|
  {
    if vars == [] then None
    else
      var last := vars[|vars| - 1];
      if last.name == x then Some(vars[..|vars| - 1] + [Binding(x, v)])
      else match SetVar(vars[..|vars| - 1], x, v)
        case None => None
        case Some(vars') => Some(vars' + [last])
  }

  function Put(vars: seq<Binding>, x: string, isNew: bool, v: Json): (r: Res<seq<Binding>>)
    ensures r.Ok? ==> |r.value| >= |vars|
  {
    if isNew then Ok(vars + [Binding(x, v)])
    else match SetVar(vars, x, v)
      case None => Panic
      case Some(vars') => Ok(vars')
  }

  /// ## Builtins

  predicate Truth(v: Json) {
    match v
    case JNull => false
    case JBool(b) => b
    case JNum(n) => n != 0
    case JStr(s) => s != ""
    case JList(xs) => xs != []
    case JDict(es) => es != []
    case Text(docs) => docs != []
  }

  predicate Comparable(a: Json, b: Json) {
    (a.JNum? && b.JNum?) || (a.JStr? && b.JStr?) || (a.JBool? && b.JBool?) || (a.Text? && b.Text?)
  }

  function Entry(es: seq<(string, Json)>, k: string): Option<Json> {
    if es == [] then None
    else if es[0].0 == k then Some(es[0].1)
    else Entry(es[1..], k)
  }

  predicate KeyBefore(a: string, b: string) {
    b != [] && (a == [] || a[0] < b[0] || (a[0] == b[0] && KeyBefore(a[1..], b[1..])))
  }

  function SetEntry(es: seq<(string, Json)>, k: string, v: Json): seq<(string, Json)> {
    if es == [] then [(k, v)]
    else if es[0].0 == k then [(k, v)] + es[1..]
    else if KeyBefore(k, es[0].0) then [(k, v)] + es
    else [es[0]] + SetEntry(es[1..], k, v)
  }

  function DictOf(keys: seq<string>, vs: seq<Json>): seq<(string, Json)>
    requires |keys| == |vs|
  {
    if keys == [] then []
    else SetEntry(DictOf(keys[..|keys| - 1], vs[..|vs| - 1]), keys[|keys| - 1], vs[|vs| - 1])
  }

  /** Helm's fromJson reads one JSON object; anything else becomes an object describing the error. */
  function FromJson(text: Json): Res<Json> {
    if !text.Text? then Panic
    else if |text.docs| == 1 && text.docs[0].JDict? then Ok(text.docs[0])
    else Ok(JDict([("Error", JStr("not a JSON object"))]))
  }

  function Concat(lists: seq<Json>): Res<Json> {
    if lists == [] then Ok(JList([]))
    else if !lists[0].JList? then Panic
    else
      var rest :- Concat(lists[1..]);
      if rest.JList? then Ok(JList(lists[0].elems + rest.elems)) else Panic
  }

  function JNums(ns: seq<int>): seq<Json> {
    seq(|ns|, i requires 0 <= i < |ns| => JNum(ns[i]))
  }

  function Run(f: Builtin, vs: seq<Json>): Res<Json> {
    match f
    case BAdd => if |vs| == 2 && vs[0].JNum? && vs[1].JNum? then Ok(JNum(vs[0].n + vs[1].n)) else Panic
    case BSub => if |vs| == 2 && vs[0].JNum? && vs[1].JNum? then Ok(JNum(vs[0].n - vs[1].n)) else Panic
    case BMul => if |vs| == 2 && vs[0].JNum? && vs[1].JNum? then Ok(JNum(vs[0].n * vs[1].n)) else Panic
    case BLt => if |vs| == 2 && vs[0].JNum? && vs[1].JNum? then Ok(JBool(vs[0].n < vs[1].n)) else Panic
    case BLe => if |vs| == 2 && vs[0].JNum? && vs[1].JNum? then Ok(JBool(vs[0].n <= vs[1].n)) else Panic
    case BPrintf2 => if |vs| == 2 && vs[0].JStr? && vs[1].JStr? then Ok(JStr(vs[0].s + vs[1].s)) else Panic
    case BEq => if |vs| == 2 && Comparable(vs[0], vs[1]) then Ok(JBool(vs[0] == vs[1])) else Panic
    case BNe => if |vs| == 2 && Comparable(vs[0], vs[1]) then Ok(JBool(vs[0] != vs[1])) else Panic
    case BNot => if |vs| == 1 then Ok(JBool(!Truth(vs[0]))) else Panic
    case BToJson => if |vs| == 1 then Ok(Text([vs[0]])) else Panic
    case BFromJson => if |vs| == 1 then FromJson(vs[0]) else Panic
    case BList => Ok(JList(vs))
    case BDict(keys) => if |keys| == |vs| then Ok(JDict(DictOf(keys, vs))) else Panic
    case BConcat => Concat(vs)
    case BDefault => if |vs| == 2 then Ok(if Truth(vs[1]) then vs[1] else vs[0]) else Panic
    case BFirst =>
      if |vs| == 1 && vs[0].JList? then Ok(if vs[0].elems == [] then JNull else vs[0].elems[0]) else Panic
    case BRest =>
      if |vs| == 1 && vs[0].JList? then Ok(if vs[0].elems == [] then JNull else JList(vs[0].elems[1..])) else Panic
    case BIndex =>
      if |vs| != 2 then Panic
      else if vs[0].JList? && vs[1].JNum? then
        if 0 <= vs[1].n < |vs[0].elems| then Ok(vs[0].elems[vs[1].n]) else Panic
      else if vs[0].JDict? && vs[1].JStr? then
        Ok(match Entry(vs[0].entries, vs[1].s) case Some(v) => v case None => JNull)
      else Panic
    case BHasKey =>
      if |vs| == 2 && vs[0].JDict? && vs[1].JStr? then Ok(JBool(Entry(vs[0].entries, vs[1].s).Some?))
      else if |vs| == 2 && vs[0].JNull? && vs[1].JStr? then Ok(JBool(false))
      else Panic
    case BTernary => if |vs| == 3 && vs[2].JBool? then Ok(if vs[2].b then vs[0] else vs[1]) else Panic
    case BGet(k) =>
      if |vs| == 1 && vs[0].JDict? then
        Ok(match Entry(vs[0].entries, k) case Some(v) => v case None => JStr(""))
      else Panic
    case BField(k) =>
      if |vs| == 1 && vs[0].JDict? then
        Ok(match Entry(vs[0].entries, k) case Some(v) => v case None => JNull)
      else Panic
    case BDeepCopy => if |vs| == 1 then Ok(vs[0]) else Panic
    case BFail => Panic
    case BLen => if |vs| != 1 then Panic else (
      match vs[0]
      case JNull => Ok(JNum(0))
      case JStr(s) => Ok(JNum(|s|))
      case JList(xs) => Ok(JNum(|xs|))
      case JDict(es) => Ok(JNum(|es|))
      case _ => Panic)
    case BDictTest =>
      if |vs| == 3 && vs[0].JDict? && vs[1].JStr? then
        Ok(match Entry(vs[0].entries, vs[1].s)
           case Some(v) => JList([v, JBool(true)])
           case None => JList([vs[2], JBool(false)]))
      else if |vs| == 3 && vs[0].JNull? && vs[1].JStr? then Ok(JList([vs[2], JBool(false)]))
      else Panic
    case BUntilStep =>
      if |vs| == 3 && vs[0].JNum? && vs[1].JNum? && vs[2].JNum? then
        Ok(JList(JNums(C.UntilStep(vs[0].n, vs[1].n, vs[2].n))))
      else Panic
  }

  function RangeItems(v: Json): Res<seq<(Json, Json)>> {
    match v
    case JNull => Ok([])
    case JList(xs) => Ok(seq(|xs|, i requires 0 <= i < |xs| => (JNum(i), xs[i])))
    case JDict(es) => Ok(seq(|es|, i requires 0 <= i < |es| => (JStr(es[i].0), es[i].1)))
    case _ => Panic
  }

  /// ## Rendering

  datatype TSignal = TNext | TBrk | TCont
  datatype TFlow = TFlow(sig: TSignal, vars: seq<Binding>, out: seq<Json>)

  function TEval(defs: seq<Define>, fuel: nat, vars: seq<Binding>, e: TExpr): Res<Json>
    decreases fuel, e, 0
  {
    match e
    case TLit(v) => Ok(v)
    case TVar(x) => (match FindVar(vars, x) case Some(v) => Ok(v) case None => Panic)
    case TApply(f, args) =>
      var vs :- TEvalAll(defs, fuel, vars, args);
      Run(f, vs)
    case TAnd(left, right) =>
      var l :- TEval(defs, fuel, vars, left);
      if !Truth(l) then Ok(l) else TEval(defs, fuel, vars, right)
    case TOr(left, right) =>
      var l :- TEval(defs, fuel, vars, left);
      if Truth(l) then Ok(l) else TEval(defs, fuel, vars, right)
    case TInclude(name, dot) =>
      var f :- TEval(defs, fuel, vars, name);
      var d :- TEval(defs, fuel, vars, dot);
      if !f.JStr? then Panic
      else if fuel == 0 then Timeout
      else
        var out :- Render(defs, fuel - 1, f.s, d);
        Ok(Text(out))
  }

  function TEvalAll(defs: seq<Define>, fuel: nat, vars: seq<Binding>, es: seq<TExpr>): (r: Res<seq<Json>>)
    ensures r.Ok? ==> |r.value| == |es|
    decreases fuel, es, 0
  {
    if es == [] then Ok([])
    else
      var v :- TEval(defs, fuel, vars, es[0]);
      var vs :- TEvalAll(defs, fuel, vars, es[1..]);
      Ok([v] + vs)
  }

  function Bind(params: seq<string>, args: Json, i: nat): Res<seq<Binding>>
    requires i <= |params|
    decreases |params| - i
  {
    if i == |params| then Ok([])
    else
      var v :- Run(BIndex, [args, JNum(i)]);
      var more :- Bind(params, args, i + 1);
      Ok([Binding(params[i], v)] + more)
  }

  /** What the template `f` prints for the argument `dot`. */
  function Render(defs: seq<Define>, fuel: nat, f: string, dot: Json): Res<seq<Json>>
    decreases fuel
  {
    match FindDefine(defs, f)
    case None => Panic
    case Some(def) =>
      var args :- Run(BField("a"), [dot]);
      var vars :- Bind(def.params, args, 0);
      var flow :- TExecAll(defs, fuel, vars, def.body);
      Ok(flow.out)
  }

  function TExec(defs: seq<Define>, fuel: nat, vars: seq<Binding>, s: TStmt): (r: Res<TFlow>)
    ensures r.Ok? ==> |r.value.vars| >= |vars|
    decreases fuel, s, 0
  {
    match s
    case TAssign(x, isNew, e) =>
      var v :- TEval(defs, fuel, vars, e);
      var vars' :- Put(vars, x, isNew, v);
      Ok(TFlow(TNext, vars', []))
    case TEmit(e) =>
      var v :- TEval(defs, fuel, vars, e);
      Ok(TFlow(TNext, vars, [v]))
    case TBreak => Ok(TFlow(TBrk, vars, []))
    case TContinue => Ok(TFlow(TCont, vars, []))
    case TIf(cond, thn, els) =>
      var c :- TEval(defs, fuel, vars, cond);
      var flow :- if Truth(c) then TExecAll(defs, fuel, vars, thn) else TExecAll(defs, fuel, vars, els);
      Ok(flow.(vars := flow.vars[..|vars|]))
    case TRange(decl, over, body) =>
      var o :- TEval(defs, fuel, vars, over);
      var items :- RangeItems(o);
      TLoop(defs, fuel, vars, decl, items, body)
  }

  function TExecAll(defs: seq<Define>, fuel: nat, vars: seq<Binding>, ss: seq<TStmt>): (r: Res<TFlow>)
    ensures r.Ok? ==> |r.value.vars| >= |vars|
    decreases fuel, ss, 0
  {
    if ss == [] then Ok(TFlow(TNext, vars, []))
    else
      var flow :- TExec(defs, fuel, vars, ss[0]);
      if !flow.sig.TNext? then Ok(flow)
      else
        var more :- TExecAll(defs, fuel, flow.vars, ss[1..]);
        Ok(more.(out := flow.out + more.out))
  }

  /** With one declared variable a `range` binds the element, with two the key and the element. */
  function Bindings(decl: seq<string>, item: (Json, Json)): seq<Binding> {
    if |decl| == 1 then [Binding(decl[0], item.1)]
    else if |decl| == 2 then [Binding(decl[0], item.0), Binding(decl[1], item.1)]
    else []
  }

  function TLoop(defs: seq<Define>, fuel: nat, vars: seq<Binding>, decl: seq<string>,
                 items: seq<(Json, Json)>, body: seq<TStmt>): (r: Res<TFlow>)
    ensures r.Ok? ==> |r.value.vars| >= |vars|
    decreases fuel, body, 1, |items|
  {
    if items == [] then Ok(TFlow(TNext, vars, []))
    else
      var flow :- TExecAll(defs, fuel, vars + Bindings(decl, items[0]), body);
      var vars' := flow.vars[..|vars|];
      if flow.sig.TBrk? then Ok(TFlow(TNext, vars', flow.out))
      else
        var more :- TLoop(defs, fuel, vars', decl, items[1..], body);
        Ok(more.(out := flow.out + more.out))
  }
}
