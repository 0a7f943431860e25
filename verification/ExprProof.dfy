/** Primitive operations: each template expression computes the encoding of what the Go operation computes. */
module ExprProof {
  import opened Wrappers
  import C = CountedLoop
  import G = GoLang
  import opened HelmTemplate
  import opened Transpile

  /// ## Encoding

  lemma {:induction false} EncEntry(es: seq<G.Entry>, k: string)
    ensures Entry(EncEntries(es), k)
         == match G.Get(es, k) { case Some(v) => Some(Enc(v)) case None => None }
  {
    if es != [] {
      EncEntry(es[1..], k);
    }
  }

  lemma {:induction false} SameOrder(a: string, b: string)
    ensures KeyBefore(a, b) == G.Before(a, b)
  {
    if a != [] && b != [] {
      SameOrder(a[1..], b[1..]);
    }
  }

  lemma {:induction false} EncPut(es: seq<G.Entry>, k: string, v: G.Value)
    ensures EncEntries(G.Put(es, k, v)) == SetEntry(EncEntries(es), k, Enc(v))
  {
    if es == [] {
    } else {
      SameOrder(k, es[0].key);
      EncPut(es[1..], k, v);
      assert ([G.Entry(k, v)] + es[1..])[1..] == es[1..];
      assert ([G.Entry(k, v)] + es)[1..] == es;
      assert ([es[0]] + G.Put(es[1..], k, v))[1..] == G.Put(es[1..], k, v);
    }
  }

  lemma {:induction false} EncMapLiteral(keys: seq<string>, vs: seq<G.Value>)
    requires |keys| == |vs|
    ensures EncEntries(G.MapLiteral(keys, vs)) == DictOf(keys, EncAll(vs))
  {
    if keys != [] {
      var n := |keys| - 1;
      EncMapLiteral(keys[..n], vs[..n]);
      EncPut(G.MapLiteral(keys[..n], vs[..n]), keys[n], vs[n]);
      assert EncAll(vs[..n]) == EncAll(vs)[..n];
    }
  }

  lemma {:induction false} EncAppend(xs: seq<G.Value>, ys: seq<G.Value>)
    ensures EncAll(xs + ys) == EncAll(xs) + EncAll(ys)
  {
  }

  /// ## Argument lists

  lemma {:induction false} EvalCons(defs: seq<Define>, fuel: nat, vars: seq<Binding>, a: TExpr, rest: seq<TExpr>)
    ensures var r := TEvalAll(defs, fuel, vars, [a] + rest);
            var x, xs := TEval(defs, fuel, vars, a), TEvalAll(defs, fuel, vars, rest);
            if x.Ok? && xs.Ok? then r == Ok([x.value] + xs.value) else !r.Ok?
  {
    assert ([a] + rest)[1..] == rest;
  }

  lemma {:induction false} EvalOne(defs: seq<Define>, fuel: nat, vars: seq<Binding>, a: TExpr)
    ensures var r := TEvalAll(defs, fuel, vars, [a]);
            var x := TEval(defs, fuel, vars, a);
            if x.Ok? then r == Ok([x.value]) else !r.Ok?
  {
    EvalCons(defs, fuel, vars, a, []);
    assert [a] + [] == [a];
    assert TEvalAll(defs, fuel, vars, []) == Ok([]);
    var x := TEval(defs, fuel, vars, a);
    if x.Ok? {
      assert [x.value] + [] == [x.value];
    }
  }

  lemma {:induction false} EvalTwo(defs: seq<Define>, fuel: nat, vars: seq<Binding>, a: TExpr, b: TExpr)
    ensures var r := TEvalAll(defs, fuel, vars, [a, b]);
            var x, y := TEval(defs, fuel, vars, a), TEval(defs, fuel, vars, b);
            if x.Ok? && y.Ok? then r == Ok([x.value, y.value]) else !r.Ok?
  {
    EvalCons(defs, fuel, vars, a, [b]);
    EvalOne(defs, fuel, vars, b);
    assert [a] + [b] == [a, b];
    var x, y := TEval(defs, fuel, vars, a), TEval(defs, fuel, vars, b);
    if x.Ok? && y.Ok? {
      assert [x.value] + [y.value] == [x.value, y.value];
    }
  }

  lemma {:induction false} EvalThree(defs: seq<Define>, fuel: nat, vars: seq<Binding>, a: TExpr, b: TExpr, c: TExpr)
    ensures var r := TEvalAll(defs, fuel, vars, [a, b, c]);
            var x, y, z := TEval(defs, fuel, vars, a), TEval(defs, fuel, vars, b), TEval(defs, fuel, vars, c);
            if x.Ok? && y.Ok? && z.Ok? then r == Ok([x.value, y.value, z.value]) else !r.Ok?
  {
    EvalCons(defs, fuel, vars, a, [b, c]);
    EvalTwo(defs, fuel, vars, b, c);
    assert [a] + [b, c] == [a, b, c];
    var x, y, z := TEval(defs, fuel, vars, a), TEval(defs, fuel, vars, b), TEval(defs, fuel, vars, c);
    if x.Ok? && y.Ok? && z.Ok? {
      assert [x.value] + [y.value, z.value] == [x.value, y.value, z.value];
    }
  }

  lemma {:induction false} EvalSplit(defs: seq<Define>, fuel: nat, vars: seq<Binding>, args: seq<TExpr>, vs: seq<G.Value>)
    requires args != [] && TEvalAll(defs, fuel, vars, args) == Ok(EncAll(vs))
    ensures vs != []
    ensures TEval(defs, fuel, vars, args[0]) == Ok(Enc(vs[0]))
    ensures TEvalAll(defs, fuel, vars, args[1..]) == Ok(EncAll(vs[1..]))
  {
    EvalCons(defs, fuel, vars, args[0], args[1..]);
    assert [args[0]] + args[1..] == args;
    assert |EncAll(vs)| == |args|;
    var tail := TEvalAll(defs, fuel, vars, args[1..]);
    assert tail.value == ([EncAll(vs)[0]] + tail.value)[1..] == EncAll(vs)[1..];
  }

  lemma {:induction false} EvalOrEmpty(defs: seq<Define>, fuel: nat, vars: seq<Binding>, a: TExpr, v: G.Value)
    requires TEval(defs, fuel, vars, a) == Ok(Enc(v))
    requires G.Elems(v).Some?
    ensures TEval(defs, fuel, vars, OrEmpty(a)) == Ok(JList(EncAll(G.Elems(v).value)))
  {
    EvalTwo(defs, fuel, vars, TApply(BList, []), a);
    assert TEval(defs, fuel, vars, TApply(BList, [])) == Ok(JList([])) by {
      assert TEvalAll(defs, fuel, vars, []) == Ok([]);
    }
  }

  lemma {:induction false} OrEmptyFails(defs: seq<Define>, fuel: nat, vars: seq<Binding>, a: TExpr)
    requires !TEval(defs, fuel, vars, a).Ok?
    ensures !TEval(defs, fuel, vars, OrEmpty(a)).Ok?
  {
    EvalTwo(defs, fuel, vars, TApply(BList, []), a);
  }

  lemma {:induction false} ConcatTwo(xs: seq<Json>, ys: seq<Json>)
    ensures Concat([JList(xs), JList(ys)]) == Ok(JList(xs + ys))
  {
    assert [JList(xs), JList(ys)][1..] == [JList(ys)];
    assert [JList(ys)][1..] == [];
    assert Concat([JList(ys)]) == Ok(JList(ys + []));
    assert ys + [] == ys;
  }

  lemma {:induction false} EvalConcat(defs: seq<Define>, fuel: nat, vars: seq<Binding>, a: TExpr, b: TExpr, xs: seq<Json>, ys: seq<Json>)
    requires TEval(defs, fuel, vars, a) == Ok(JList(xs)) && TEval(defs, fuel, vars, b) == Ok(JList(ys))
    ensures TEval(defs, fuel, vars, TApply(BConcat, [a, b])) == Ok(JList(xs + ys))
  {
    EvalTwo(defs, fuel, vars, a, b);
    ConcatTwo(xs, ys);
  }

  lemma {:induction false} EvalList(defs: seq<Define>, fuel: nat, vars: seq<Binding>, args: seq<TExpr>)
    ensures var r := TEval(defs, fuel, vars, TApply(BList, args));
            var xs := TEvalAll(defs, fuel, vars, args);
            if xs.Ok? then r == Ok(JList(xs.value)) else !r.Ok?
  {
  }

  /// ## Operations

  /** The template expression of an operation, when its arguments evaluate to the encodings of `vs`. */
  ghost predicate OpHolds(defs: seq<Define>, fuel: nat, vars: seq<Binding>, op: G.Op, args: seq<TExpr>, vs: seq<G.Value>) {
    var r := TEval(defs, fuel, vars, TranspileOp(op, args));
    match G.Compute(true, op, vs)
    case Ok(v) => r == Ok(Enc(v))
    case Stuck => true
    case _ => !r.Ok?
  }

  lemma {:induction false} ApplyEvaluated(defs: seq<Define>, fuel: nat, vars: seq<Binding>, f: Builtin, args: seq<TExpr>, vs: seq<Json>)
    requires TEvalAll(defs, fuel, vars, args) == Ok(vs)
    ensures TEval(defs, fuel, vars, TApply(f, args)) == Run(f, vs)
  {
  }

  lemma {:induction false} EvalAppend(defs: seq<Define>, fuel: nat, vars: seq<Binding>, args: seq<TExpr>, vs: seq<G.Value>, xs: seq<G.Value>)
    requires TEvalAll(defs, fuel, vars, args) == Ok(EncAll(vs))
    requires vs != [] && args != [] && G.Elems(vs[0]) == Some(xs)
    ensures TEval(defs, fuel, vars, TApply(BConcat, [OrEmpty(args[0]), TApply(BList, args[1..])]))
         == Ok(JList(EncAll(xs + vs[1..])))
  {
    EvalSplit(defs, fuel, vars, args, vs);
    EvalOrEmpty(defs, fuel, vars, args[0], vs[0]);
    EvalList(defs, fuel, vars, args[1..]);
    EvalConcat(defs, fuel, vars, OrEmpty(args[0]), TApply(BList, args[1..]), EncAll(xs), EncAll(vs[1..]));
    EncAppend(xs, vs[1..]);
  }

  lemma {:induction false} SimAppend(defs: seq<Define>, fuel: nat, vars: seq<Binding>, args: seq<TExpr>, vs: seq<G.Value>)
    requires TEvalAll(defs, fuel, vars, args) == Ok(EncAll(vs))
    ensures OpHolds(defs, fuel, vars, G.Append, args, vs)
  {
    if vs != [] && G.Elems(vs[0]).Some? {
      EvalAppend(defs, fuel, vars, args, vs, G.Elems(vs[0]).value);
    }
  }

  lemma {:induction false} EvalPair(defs: seq<Define>, fuel: nat, vars: seq<Binding>, args: seq<TExpr>, vs: seq<G.Value>)
    requires |vs| == 2 && TEvalAll(defs, fuel, vars, args) == Ok(EncAll(vs))
    ensures |args| == 2
    ensures TEval(defs, fuel, vars, args[0]) == Ok(Enc(vs[0]))
    ensures TEval(defs, fuel, vars, args[1]) == Ok(Enc(vs[1]))
  {
    EvalSplit(defs, fuel, vars, args, vs);
    EvalSplit(defs, fuel, vars, args[1..], vs[1..]);
  }

  lemma {:induction false} EvalSpread(defs: seq<Define>, fuel: nat, vars: seq<Binding>, a: TExpr, b: TExpr, u: G.Value, v: G.Value)
    requires TEval(defs, fuel, vars, a) == Ok(Enc(u)) && TEval(defs, fuel, vars, b) == Ok(Enc(v))
    requires G.Elems(u).Some? && G.Elems(v).Some?
    ensures TEval(defs, fuel, vars, TApply(BConcat, [OrEmpty(a), OrEmpty(b)]))
         == Ok(JList(EncAll(G.Elems(u).value + G.Elems(v).value)))
  {
    var xs, ys := G.Elems(u).value, G.Elems(v).value;
    EvalOrEmpty(defs, fuel, vars, a, u);
    EvalOrEmpty(defs, fuel, vars, b, v);
    EvalConcat(defs, fuel, vars, OrEmpty(a), OrEmpty(b), EncAll(xs), EncAll(ys));
    EncAppend(xs, ys);
  }

  lemma {:induction false} SimAppendSpread(defs: seq<Define>, fuel: nat, vars: seq<Binding>, args: seq<TExpr>, vs: seq<G.Value>)
    requires TEvalAll(defs, fuel, vars, args) == Ok(EncAll(vs))
    ensures OpHolds(defs, fuel, vars, G.AppendSpread, args, vs)
  {
    if |vs| == 2 && G.Elems(vs[0]).Some? && G.Elems(vs[1]).Some? {
      EvalPair(defs, fuel, vars, args, vs);
      EvalSpread(defs, fuel, vars, args[0], args[1], vs[0], vs[1]);
    }
  }

  lemma {:induction false} EvalTernary(defs: seq<Define>, fuel: nat, vars: seq<Binding>, args: seq<TExpr>, js: seq<Json>,
                    elem: Json, zero: Json, found: bool)
    requires TEvalAll(defs, fuel, vars, args) == Ok(js)
    requires Run(BIndex, js) == Ok(elem) && Run(BHasKey, js) == Ok(JBool(found))
    ensures TEval(defs, fuel, vars, TApply(BTernary, [TApply(BIndex, args), TLit(zero), TApply(BHasKey, args)]))
         == Ok(if found then elem else zero)
  {
    EvalThree(defs, fuel, vars, TApply(BIndex, args), TLit(zero), TApply(BHasKey, args));
  }

  lemma {:induction false} SimMapGet(defs: seq<Define>, fuel: nat, vars: seq<Binding>, zero: G.Value, args: seq<TExpr>, vs: seq<G.Value>)
    requires TEvalAll(defs, fuel, vars, args) == Ok(EncAll(vs))
    ensures OpHolds(defs, fuel, vars, G.MapGet(zero), args, vs)
  {
    assert TranspileOp(G.MapGet(zero), args) == TApply(BTernary, [TApply(BIndex, args), TLit(Enc(zero)), TApply(BHasKey, args)]);
    if |vs| == 2 && vs[1].Str? && vs[0].Map? {
      var elem, found := FoundRuns(zero, vs);
      hide Run, G.Compute, TranspileOp, Enc, EncAll;
      EvalTernary(defs, fuel, vars, args, EncAll(vs), elem, Enc(zero), found);
    } else if |vs| == 2 && vs[1].Str? && vs[0].Nil? {
      NilRuns(zero, vs);
      hide Run, G.Compute, TranspileOp, Enc, EncAll;
      ApplyEvaluated(defs, fuel, vars, BIndex, args, EncAll(vs));
      EvalThree(defs, fuel, vars, TApply(BIndex, args), TLit(Enc(zero)), TApply(BHasKey, args));
    }
  }

  lemma {:induction false} FoundRuns(zero: G.Value, vs: seq<G.Value>) returns (elem: Json, found: bool)
    requires |vs| == 2 && vs[0].Map? && vs[1].Str?
    ensures Run(BIndex, EncAll(vs)) == Ok(elem) && Run(BHasKey, EncAll(vs)) == Ok(JBool(found))
    ensures var r := G.Compute(true, G.MapGet(zero), vs); r.Ok? && Enc(r.value) == if found then elem else Enc(zero)
  {
    assert EncAll(vs)[0] == Enc(vs[0]) && EncAll(vs)[1] == Enc(vs[1]);
    var m, k := vs[0].entries, vs[1].s;
    EncEntry(m, k);
    found := Entry(EncEntries(m), k).Some?;
    elem := match Entry(EncEntries(m), k) case Some(v) => v case None => JNull;
  }

  /** An index into nil fails, whatever the other branch of the ternary would be. */
  lemma {:induction false} NilRuns(zero: G.Value, vs: seq<G.Value>)
    requires |vs| == 2 && vs[0].Nil? && vs[1].Str?
    ensures !Run(BIndex, EncAll(vs)).Ok? && G.Compute(true, G.MapGet(zero), vs).Panic?
  {
    NilIndexFails(EncAll(vs));
    hide Run, EncAll, G.Perform, G.Counts, G.NilAppend;
    assert !G.Counts(G.MapGet(zero), vs) by { NotCounted(G.MapGet(zero), vs); }
  }

  lemma {:induction false} NotCounted(op: G.Op, vs: seq<G.Value>)
    requires !op.Counted?
    ensures !G.Counts(op, vs)
  {
  }

  lemma {:induction false} NilIndexFails(js: seq<Json>)
    requires |js| == 2 && js[0].JNull?
    ensures !Run(BIndex, js).Ok?
  {
  }

  lemma {:induction false} SimMapIndex(defs: seq<Define>, fuel: nat, vars: seq<Binding>, args: seq<TExpr>, vs: seq<G.Value>)
    requires TEvalAll(defs, fuel, vars, args) == Ok(EncAll(vs))
    ensures OpHolds(defs, fuel, vars, G.MapIndex, args, vs)
  {
    ApplyEvaluated(defs, fuel, vars, BIndex, args, EncAll(vs));
    hide TEval, TEvalAll;
    if |vs| == 2 && vs[0].Map? && vs[1].Str? {
      EncEntry(vs[0].entries, vs[1].s);
    }
  }

  lemma {:induction false} SimIsNil(defs: seq<Define>, fuel: nat, vars: seq<Binding>, op: G.Op, args: seq<TExpr>, vs: seq<G.Value>)
    requires op.IsNil? || op.NotNil?
    requires TEvalAll(defs, fuel, vars, args) == Ok(EncAll(vs))
    ensures OpHolds(defs, fuel, vars, op, args, vs)
  {
    NilTestIs(op, args, vs);
    if |vs| == 1 {
      var f := if op.IsNil? then BEq else BNe;
      ApplyEvaluated(defs, fuel, vars, BToJson, args, EncAll(vs));
      EvalTwo(defs, fuel, vars, TApply(BToJson, args), TLit(Text([JNull])));
      ApplyEvaluated(defs, fuel, vars, f, [TApply(BToJson, args), TLit(Text([JNull]))], [Text([Enc(vs[0])]), Text([JNull])]);
    }
    hide TEval, TEvalAll, Run, TranspileOp, G.Compute, Enc, EncAll;
  }

  lemma {:induction false} NilTestIs(op: G.Op, args: seq<TExpr>, vs: seq<G.Value>)
    requires op.IsNil? || op.NotNil?
    ensures var f := if op.IsNil? then BEq else BNe;
            && TranspileOp(op, args) == TApply(f, [TApply(BToJson, args), TLit(Text([JNull]))])
            && G.Compute(true, op, vs) == (if |vs| == 1 then Ok(G.Bool(vs[0].Nil? == op.IsNil?)) else Stuck)
            && (|vs| == 1 ==>
                  && Run(BToJson, EncAll(vs)) == Ok(Text([Enc(vs[0])]))
                  && Run(f, [Text([Enc(vs[0])]), Text([JNull])]) == Ok(Enc(G.Bool(vs[0].Nil? == op.IsNil?))))
  {
    NilTestComputes(op, vs);
    if |vs| == 1 {
      RunsToJson(EncAll(vs));
      RunsEqual(op.IsNil?, [Enc(vs[0])], [JNull]);
      NilText(vs[0]);
    }
    hide Run, EncAll, G.Compute;
  }

  lemma {:induction false} NilTestComputes(op: G.Op, vs: seq<G.Value>)
    requires op.IsNil? || op.NotNil?
    ensures G.Compute(true, op, vs) == (if |vs| == 1 then Ok(G.Bool(vs[0].Nil? == op.IsNil?)) else Stuck)
  {
  }

  lemma {:induction false} RunsToJson(js: seq<Json>)
    requires |js| == 1
    ensures Run(BToJson, js) == Ok(Text([js[0]]))
  {
  }

  lemma {:induction false} RunsEqual(same: bool, a: seq<Json>, b: seq<Json>)
    ensures Run(if same then BEq else BNe, [Text(a), Text(b)]) == Ok(JBool((Text(a) == Text(b)) == same))
  {
  }

  /** Only nil is rendered as `null`. */
  lemma {:induction false} NilText(v: G.Value)
    ensures Text([Enc(v)]) == Text([JNull]) <==> v.Nil?
  {
    assert (Text([Enc(v)]) == Text([JNull])) == ([Enc(v)][0] == [JNull][0]);
  }

  lemma {:induction false} SimCmpOr(defs: seq<Define>, fuel: nat, vars: seq<Binding>, args: seq<TExpr>, vs: seq<G.Value>)
    requires TEvalAll(defs, fuel, vars, args) == Ok(EncAll(vs))
    requires vs != [] && forall i :: 0 <= i < |vs| ==> G.SameBasic(vs[0], vs[i])
    ensures TEval(defs, fuel, vars, FoldOr(args)) == Ok(Enc(G.FirstNonZero(vs)))
  {
    if |vs| > 1 {
      EvalSplit(defs, fuel, vars, args, vs);
      assert G.SameBasic(vs[0], vs[1]);
      SimCmpOr(defs, fuel, vars, args[1..], vs[1..]);
      EvalTwo(defs, fuel, vars, FoldOr(args[1..]), args[0]);
      assert Truth(Enc(vs[0])) == !G.IsZero(vs[0]);
    }
  }

  lemma {:induction false} SimIndex(defs: seq<Define>, fuel: nat, vars: seq<Binding>, args: seq<TExpr>, vs: seq<G.Value>)
    requires TEvalAll(defs, fuel, vars, args) == Ok(EncAll(vs))
    ensures OpHolds(defs, fuel, vars, G.Index, args, vs)
  {
    ApplyEvaluated(defs, fuel, vars, BIndex, args, EncAll(vs));
    hide TEval, TEvalAll;
  }

  lemma {:induction false} SimField(defs: seq<Define>, fuel: nat, vars: seq<Binding>, f: string, pointer: bool, args: seq<TExpr>, vs: seq<G.Value>)
    requires TEvalAll(defs, fuel, vars, args) == Ok(EncAll(vs))
    ensures OpHolds(defs, fuel, vars, G.Field(f, pointer), args, vs)
  {
    ApplyEvaluated(defs, fuel, vars, BField(f), args, EncAll(vs));
    hide TEval, TEvalAll;
    if |vs| == 1 && vs[0].Map? {
      EncEntry(vs[0].entries, f);
    }
  }

  /** A counted loop's list, with start and stop in the order of the translation. */
  lemma {:induction false} SimCounted(defs: seq<Define>, fuel: nat, vars: seq<Binding>, cmp: C.Cmp, post: C.Post, args: seq<TExpr>, vs: seq<G.Value>)
    requires TEvalAll(defs, fuel, vars, args) == Ok(EncAll(vs))
    ensures OpHolds(defs, fuel, vars, G.Counted(cmp, post), args, vs)
  {
    CountedIs(cmp, post, args, vs);
    if G.Counts(G.Counted(cmp, post), vs) {
      EvalPair(defs, fuel, vars, args, vs);
      RunsUntilStep(defs, fuel, vars, cmp, post, args[0], args[1], vs[0].n, vs[1].n);
      EncNums(C.Emitted(cmp, post, vs[0].n, vs[1].n));
    }
    hide TEval, TEvalAll, TranspileOp, G.Compute, C.Emitted, UntilStep, Run;
  }

  lemma {:induction false} CountedIs(cmp: C.Cmp, post: C.Post, args: seq<TExpr>, vs: seq<G.Value>)
    ensures |args| == 2 ==> TranspileOp(G.Counted(cmp, post), args) == UntilStep(cmp, post, args[0], args[1])
    ensures G.Compute(true, G.Counted(cmp, post), vs) ==
            if G.Counts(G.Counted(cmp, post), vs) then Ok(G.List(G.Nums(C.Emitted(cmp, post, vs[0].n, vs[1].n)))) else Stuck
  {
  }

  lemma {:induction false} RunsUntilStep(defs: seq<Define>, fuel: nat, vars: seq<Binding>, cmp: C.Cmp, post: C.Post, init: TExpr, bound: TExpr, a: int, b: int)
    requires TEval(defs, fuel, vars, init) == Ok(JNum(a)) && TEval(defs, fuel, vars, bound) == Ok(JNum(b))
    ensures TEval(defs, fuel, vars, UntilStep(cmp, post, init, bound)) == Ok(JList(JNums(C.Emitted(cmp, post, a, b))))
  {
    var step := if post.Sub? then 0 - post.k else C.Step(post);
    UntilStepIs(defs, fuel, vars, init, bound, a, b, step);
    UntilStepIs(defs, fuel, vars, bound, init, b, a, step);
    hide TEval, TEvalAll, C.UntilStep;
  }

  lemma {:induction false} UntilStepIs(defs: seq<Define>, fuel: nat, vars: seq<Binding>, start: TExpr, stop: TExpr, a: int, b: int, step: int)
    requires TEval(defs, fuel, vars, start) == Ok(JNum(a)) && TEval(defs, fuel, vars, stop) == Ok(JNum(b))
    ensures TEval(defs, fuel, vars, TApply(BUntilStep, [start, stop, TLit(JNum(step))])) == Ok(JList(JNums(C.UntilStep(a, b, step))))
  {
    EvalThree(defs, fuel, vars, start, stop, TLit(JNum(step)));
    ApplyEvaluated(defs, fuel, vars, BUntilStep, [start, stop, TLit(JNum(step))], [JNum(a), JNum(b), JNum(step)]);
    hide TEval, TEvalAll, C.UntilStep;
  }

  lemma {:induction false} EncNums(ns: seq<int>)
    ensures EncAll(G.Nums(ns)) == JNums(ns)
  {
  }

  lemma {:induction false} CountedFails(defs: seq<Define>, fuel: nat, vars: seq<Binding>, cmp: C.Cmp, post: C.Post, args: seq<TExpr>)
    requires !TEvalAll(defs, fuel, vars, args).Ok?
    ensures !TEval(defs, fuel, vars, TranspileOp(G.Counted(cmp, post), args)).Ok?
  {
    if |args| == 2 {
      assert args == [args[0], args[1]];
      EvalTwo(defs, fuel, vars, args[0], args[1]);
      var step := TLit(JNum(if post.Sub? then 0 - post.k else C.Step(post)));
      EvalThree(defs, fuel, vars, args[0], args[1], step);
      EvalThree(defs, fuel, vars, args[1], args[0], step);
    }
  }

  lemma {:induction false} SimDeref(defs: seq<Define>, fuel: nat, vars: seq<Binding>, args: seq<TExpr>, vs: seq<G.Value>)
    requires TEvalAll(defs, fuel, vars, args) == Ok(EncAll(vs))
    ensures OpHolds(defs, fuel, vars, G.Deref, args, vs)
  {
    if |vs| == 1 {
      EvalOne(defs, fuel, vars, args[0]);
      assert args == [args[0]];
    }
  }

  lemma {:induction false} SimMakeMap(defs: seq<Define>, fuel: nat, vars: seq<Binding>, keys: seq<string>, args: seq<TExpr>, vs: seq<G.Value>)
    requires TEvalAll(defs, fuel, vars, args) == Ok(EncAll(vs))
    ensures OpHolds(defs, fuel, vars, G.MakeMap(keys), args, vs)
  {
    ApplyEvaluated(defs, fuel, vars, BDict(keys), args, EncAll(vs));
    MakeMapIs(keys, args, vs);
    hide TEval, TEvalAll, EncAll, EncEntries, G.MapLiteral, DictOf, Run, TranspileOp, G.Compute;
    if |keys| == |vs| {
      EncMapLiteral(keys, vs);
    }
  }

  lemma {:induction false} MakeMapIs(keys: seq<string>, args: seq<TExpr>, vs: seq<G.Value>)
    ensures TranspileOp(G.MakeMap(keys), args) == TApply(BDict(keys), args)
    ensures G.Compute(true, G.MakeMap(keys), vs) == if |keys| == |vs| then Ok(G.Map(G.MapLiteral(keys, vs))) else Stuck
    ensures |keys| == |vs| ==> Run(BDict(keys), EncAll(vs)) == Ok(JDict(DictOf(keys, EncAll(vs))))
  {
    hide G.MapLiteral, DictOf, EncAll;
  }

  lemma {:induction false} SimLen(defs: seq<Define>, fuel: nat, vars: seq<Binding>, args: seq<TExpr>, vs: seq<G.Value>)
    requires TEvalAll(defs, fuel, vars, args) == Ok(EncAll(vs))
    ensures OpHolds(defs, fuel, vars, G.Len, args, vs)
  {
    ApplyEvaluated(defs, fuel, vars, BLen, args, EncAll(vs));
    hide TEval, TEvalAll;
  }

  /** Comparison and arithmetic. */
  predicate Binary(op: G.Op) {
    op.Add? || op.Sub? || op.Mul? || op.Less? || op.LessEq? || op.Concat? || op.Equal? || op.NotEqual?
  }

  lemma {:induction false} SimBinary(defs: seq<Define>, fuel: nat, vars: seq<Binding>, op: G.Op, args: seq<TExpr>, vs: seq<G.Value>)
    requires TEvalAll(defs, fuel, vars, args) == Ok(EncAll(vs))
    requires Binary(op)
    ensures OpHolds(defs, fuel, vars, op, args, vs)
  {
    if op.Equal? || op.NotEqual? {
      SimEquality(defs, fuel, vars, op, args, vs);
    } else if op.Add? || op.Sub? || op.Mul? {
      SimArithmetic(defs, fuel, vars, op, args, vs);
    } else {
      ApplyEvaluated(defs, fuel, vars, TranspileOp(op, args).f, args, EncAll(vs));
      hide TEval, TEvalAll;
    }
  }

  lemma {:induction false} SimArithmetic(defs: seq<Define>, fuel: nat, vars: seq<Binding>, op: G.Op, args: seq<TExpr>, vs: seq<G.Value>)
    requires TEvalAll(defs, fuel, vars, args) == Ok(EncAll(vs))
    requires op.Add? || op.Sub? || op.Mul?
    ensures OpHolds(defs, fuel, vars, op, args, vs)
  {
    ApplyEvaluated(defs, fuel, vars, TranspileOp(op, args).f, args, EncAll(vs));
    hide TEval, TEvalAll;
  }

  lemma {:induction false} SimEquality(defs: seq<Define>, fuel: nat, vars: seq<Binding>, op: G.Op, args: seq<TExpr>, vs: seq<G.Value>)
    requires TEvalAll(defs, fuel, vars, args) == Ok(EncAll(vs))
    requires op.Equal? || op.NotEqual?
    ensures OpHolds(defs, fuel, vars, op, args, vs)
  {
    ApplyEvaluated(defs, fuel, vars, TranspileOp(op, args).f, args, EncAll(vs));
    hide TEval, TEvalAll;
  }

  lemma {:induction false} SimOther(defs: seq<Define>, fuel: nat, vars: seq<Binding>, op: G.Op, args: seq<TExpr>, vs: seq<G.Value>)
    requires TEvalAll(defs, fuel, vars, args) == Ok(EncAll(vs))
    requires op.Not? || op.MakeList? || op.Fail?
    ensures OpHolds(defs, fuel, vars, op, args, vs)
  {
    var f := if op.Not? then BNot else if op.MakeList? then BList else BFail;
    ApplyEvaluated(defs, fuel, vars, f, args, EncAll(vs));
    OtherIs(op, args, vs);
    hide TEval, TEvalAll, Run, TranspileOp, G.Compute, Enc, EncAll;
  }

  lemma {:induction false} OtherIs(op: G.Op, args: seq<TExpr>, vs: seq<G.Value>)
    requires op.Not? || op.MakeList? || op.Fail?
    ensures var f := if op.Not? then BNot else if op.MakeList? then BList else BFail;
            && TranspileOp(op, args) == TApply(f, args)
            && match G.Compute(true, op, vs)
               case Ok(v) => Run(f, EncAll(vs)) == Ok(Enc(v))
               case Stuck => true
               case _ => !Run(f, EncAll(vs)).Ok?
  {
  }

  /** An operation on evaluated arguments. */
  lemma {:induction false} SimOp(defs: seq<Define>, fuel: nat, vars: seq<Binding>, op: G.Op, args: seq<TExpr>, vs: seq<G.Value>)
    requires TEvalAll(defs, fuel, vars, args) == Ok(EncAll(vs))
    ensures OpHolds(defs, fuel, vars, op, args, vs)
  {
    match op
    case Append => SimAppend(defs, fuel, vars, args, vs);
    case AppendSpread => SimAppendSpread(defs, fuel, vars, args, vs);
    case MapGet(zero) => SimMapGet(defs, fuel, vars, zero, args, vs);
    case IsNil => SimIsNil(defs, fuel, vars, op, args, vs);
    case NotNil => SimIsNil(defs, fuel, vars, op, args, vs);
    case CmpOr =>
      if vs != [] && forall i :: 0 <= i < |vs| ==> G.SameBasic(vs[0], vs[i]) { SimCmpOr(defs, fuel, vars, args, vs); }
    case Index => SimIndex(defs, fuel, vars, args, vs);
    case MapIndex => SimMapIndex(defs, fuel, vars, args, vs);
    case Field(f, pointer) => SimField(defs, fuel, vars, f, pointer, args, vs);
    case Counted(cmp, post) => SimCounted(defs, fuel, vars, cmp, post, args, vs);
    case Deref => SimDeref(defs, fuel, vars, args, vs);
    case MakeMap(keys) => SimMakeMap(defs, fuel, vars, keys, args, vs);
    case Len => SimLen(defs, fuel, vars, args, vs);
    case Not => SimOther(defs, fuel, vars, op, args, vs);
    case MakeList => SimOther(defs, fuel, vars, op, args, vs);
    case Fail => SimOther(defs, fuel, vars, op, args, vs);
    case _ => SimBinary(defs, fuel, vars, op, args, vs);
  }

  lemma {:induction false} FoldOrFails(defs: seq<Define>, fuel: nat, vars: seq<Binding>, args: seq<TExpr>)
    requires !TEvalAll(defs, fuel, vars, args).Ok?
    ensures !TEval(defs, fuel, vars, FoldOr(args)).Ok?
  {
    if |args| == 1 {
      EvalOne(defs, fuel, vars, args[0]);
      assert args == [args[0]];
    } else if |args| > 1 {
      EvalTwo(defs, fuel, vars, FoldOr(args[1..]), args[0]);
      if TEval(defs, fuel, vars, args[0]).Ok? {
        FoldOrFails(defs, fuel, vars, args[1..]);
      }
    }
  }

  lemma {:induction false} AppendFails(defs: seq<Define>, fuel: nat, vars: seq<Binding>, args: seq<TExpr>)
    requires !TEvalAll(defs, fuel, vars, args).Ok?
    ensures !TEval(defs, fuel, vars, TranspileOp(G.Append, args)).Ok?
  {
    if args != [] {
      EvalTwo(defs, fuel, vars, OrEmpty(args[0]), TApply(BList, args[1..]));
      if !TEval(defs, fuel, vars, args[0]).Ok? {
        OrEmptyFails(defs, fuel, vars, args[0]);
      }
    }
  }

  lemma {:induction false} SpreadFails(defs: seq<Define>, fuel: nat, vars: seq<Binding>, args: seq<TExpr>)
    requires !TEvalAll(defs, fuel, vars, args).Ok?
    ensures !TEval(defs, fuel, vars, TranspileOp(G.AppendSpread, args)).Ok?
  {
    if |args| == 2 {
      assert args == [args[0], args[1]];
      EvalTwo(defs, fuel, vars, args[0], args[1]);
      EvalTwo(defs, fuel, vars, OrEmpty(args[0]), OrEmpty(args[1]));
      if !TEval(defs, fuel, vars, args[0]).Ok? {
        OrEmptyFails(defs, fuel, vars, args[0]);
      } else {
        OrEmptyFails(defs, fuel, vars, args[1]);
      }
    }
  }

  /** An operation one of whose arguments has no value. */
  lemma {:induction false} OpFails(defs: seq<Define>, fuel: nat, vars: seq<Binding>, op: G.Op, args: seq<TExpr>)
    requires !TEvalAll(defs, fuel, vars, args).Ok?
    ensures !TEval(defs, fuel, vars, TranspileOp(op, args)).Ok?
  {
    match op
    case Append => AppendFails(defs, fuel, vars, args);
    case AppendSpread => SpreadFails(defs, fuel, vars, args);
    case MapGet(zero) => EvalThree(defs, fuel, vars, TApply(BIndex, args), TLit(Enc(zero)), TApply(BHasKey, args));
    case IsNil => EvalTwo(defs, fuel, vars, TApply(BToJson, args), TLit(Text([JNull])));
    case NotNil => EvalTwo(defs, fuel, vars, TApply(BToJson, args), TLit(Text([JNull])));
    case CmpOr => FoldOrFails(defs, fuel, vars, args);
    case Counted(cmp, post) => CountedFails(defs, fuel, vars, cmp, post, args);
    case Deref => if |args| == 1 { EvalOne(defs, fuel, vars, args[0]); assert args == [args[0]]; }
    case _ =>
  }
}
