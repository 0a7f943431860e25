/** How Go's scopes and the flat variable stack of a template correspond. */
module ScopeProof {
  import opened Wrappers
  import G = GoLang
  import opened HelmTemplate
  import opened Transpile
  import E = Emit

  /// ## The relation

  function Names(env: G.Scopes): set<string> {
    if env == [] then {} else env[|env| - 1].Keys + Names(env[..|env| - 1])
  }

  /** `seg` is the part of the stack that belongs to the scope `top`.  The last binding of each variable of
      `top` holds its value.  Other Go names may linger there, but none that an enclosing scope declares. */
  ghost predicate Seg(top: G.Scope, seg: seq<Binding>, outer: set<string>) {
    && (forall x :: x in top ==> UserName(x) && FindVar(seg, x) == Some(Enc(top[x])))
    && (forall i :: 0 <= i < |seg| && UserName(seg[i].name) ==> seg[i].name in top || seg[i].name !in outer)
  }

  ghost predicate NoFlag(seg: seq<Binding>) {
    forall i :: 0 <= i < |seg| ==> seg[i].name != E.FLAG
  }

  /** Scope by scope: `marks[i]` is where the bindings of scope `i` start.  The bottom scope also holds the
      return flag and the blank variable. */
  ghost predicate Rel(env: G.Scopes, vars: seq<Binding>, marks: seq<nat>)
    decreases |env|
  {
    && env != [] && |marks| == |env|
    && var n := |env| - 1;
    && marks[n] <= |vars|
    && Seg(env[n], vars[marks[n]..], Names(env[..n]))
    && if n == 0 then marks[0] == 0 && FindVar(vars, E.FLAG).Some? && FindVar(vars, G.BLANK).Some?
       else NoFlag(vars[marks[n]..]) && Rel(env[..n], vars[..marks[n]], marks[..n])
  }

  /// ## The variable stack

  lemma {:induction false} FindAppend(a: seq<Binding>, b: seq<Binding>, x: string)
    ensures FindVar(a + b, x) == if FindVar(b, x).Some? then FindVar(b, x) else FindVar(a, x)
  {
    if b == [] {
      assert a + b == a;
    } else {
      FindAppend(a, b[..|b| - 1], x);
      assert (a + b)[..|a + b| - 1] == a + b[..|b| - 1];
    }
  }

  lemma {:induction false} FindNone(vars: seq<Binding>, x: string)
    ensures FindVar(vars, x).None? <==> forall i :: 0 <= i < |vars| ==> vars[i].name != x
  {
    if vars != [] {
      var n := |vars| - 1;
      FindNone(vars[..n], x);
      if FindVar(vars[..n], x).None? && vars[n].name != x {
        forall i | 0 <= i < |vars| ensures vars[i].name != x {
          if i < n { assert vars[..n][i].name != x; }
        }
      }
    }
  }

  lemma {:induction false} FindPush(vars: seq<Binding>, x: string, v: Json, y: string)
    ensures FindVar(vars + [Binding(x, v)], y) == if y == x then Some(v) else FindVar(vars, y)
  {
    assert (vars + [Binding(x, v)])[..|vars|] == vars;
  }

  lemma {:induction false} SetAppend(a: seq<Binding>, b: seq<Binding>, x: string, v: Json)
    ensures SetVar(a + b, x, v)
         == if SetVar(b, x, v).Some? then Some(a + SetVar(b, x, v).value)
            else if SetVar(a, x, v).Some? then Some(SetVar(a, x, v).value + b)
            else None
  {
    if b == [] {
      assert a + b == a;
      if SetVar(a, x, v).Some? { assert SetVar(a, x, v).value + b == SetVar(a, x, v).value; }
    } else {
      var n := |b| - 1;
      var r := SetVar(b[..n], x, v);
      SetAppend(a, b[..n], x, v);
      assert (a + b)[..|a + b| - 1] == a + b[..n];
      assert b == b[..n] + [b[n]];
      assert (a + b)[|a + b| - 1] == b[n];
      if b[n].name == x {
        assert a + b[..n] + [Binding(x, v)] == a + (b[..n] + [Binding(x, v)]);
      } else if r.Some? {
        assert a + r.value + [b[n]] == a + (r.value + [b[n]]);
      } else if SetVar(a, x, v).Some? {
        assert SetVar(a, x, v).value + b[..n] + [b[n]] == SetVar(a, x, v).value + b;
      }
    }
  }

  lemma {:induction false} SetFind(vars: seq<Binding>, x: string, v: Json)
    ensures SetVar(vars, x, v).Some? <==> FindVar(vars, x).Some?
    ensures SetVar(vars, x, v).Some? ==> forall i :: 0 <= i < |vars| ==> SetVar(vars, x, v).value[i].name == vars[i].name
  {
    if vars != [] {
      SetFind(vars[..|vars| - 1], x, v);
    }
  }

  lemma {:induction false} FindAfterSet(vars: seq<Binding>, x: string, v: Json, y: string)
    requires SetVar(vars, x, v).Some?
    ensures FindVar(SetVar(vars, x, v).value, y) == if y == x then Some(v) else FindVar(vars, y)
  {
    var n := |vars| - 1;
    var vars' := SetVar(vars, x, v).value;
    if vars[n].name == x {
      assert vars'[..n] == vars[..n];
    } else {
      FindAfterSet(vars[..n], x, v, y);
      assert vars'[..n] == SetVar(vars[..n], x, v).value;
    }
  }

  /// ## Reading

  lemma {:induction false} LookupNames(env: G.Scopes, x: string)
    ensures G.Lookup(env, x).Some? <==> x in Names(env)
  {
    if env != [] {
      LookupNames(env[..|env| - 1], x);
    }
  }

  lemma {:induction false} RelLookup(env: G.Scopes, vars: seq<Binding>, marks: seq<nat>, x: string)
    requires Rel(env, vars, marks) && G.Lookup(env, x).Some?
    ensures UserName(x) && FindVar(vars, x) == Some(Enc(G.Lookup(env, x).value))
    decreases |env|
  {
    var n := |env| - 1;
    var seg := vars[marks[n]..];
    assert vars == vars[..marks[n]] + seg;
    FindAppend(vars[..marks[n]], seg, x);
    if x !in env[n] {
      RelLookup(env[..n], vars[..marks[n]], marks[..n], x);
      LookupNames(env[..n], x);
      FindNone(seg, x);
    }
  }

  lemma {:induction false} RelSpecial(env: G.Scopes, vars: seq<Binding>, marks: seq<nat>)
    requires Rel(env, vars, marks)
    ensures FindVar(vars, E.FLAG).Some? && FindVar(vars, G.BLANK).Some?
    decreases |env|
  {
    var n := |env| - 1;
    if n > 0 {
      assert vars == vars[..marks[n]] + vars[marks[n]..];
      RelSpecial(env[..n], vars[..marks[n]], marks[..n]);
      FindAppend(vars[..marks[n]], vars[marks[n]..], E.FLAG);
      FindAppend(vars[..marks[n]], vars[marks[n]..], G.BLANK);
    }
  }

  /// ## Opening and closing scopes

  lemma {:induction false} PushScope(env: G.Scopes, vars: seq<Binding>, marks: seq<nat>)
    requires Rel(env, vars, marks)
    ensures Rel(env + [map[]], vars, marks + [|vars|])
  {
    var env', marks' := env + [map[]], marks + [|vars|];
    assert env'[..|env|] == env && marks'[..|env|] == marks && vars[..|vars|] == vars;
    assert vars[|vars|..] == [];
  }

  /** Leaving a template scope. */
  lemma {:induction false} PopScope(env: G.Scopes, top: G.Scope, vars: seq<Binding>, marks: seq<nat>, m: nat)
    requires env != [] && Rel(env + [top], vars, marks + [m])
    ensures m <= |vars| && Rel(env, vars[..m], marks)
    ensures FindVar(vars[..m], E.FLAG) == FindVar(vars, E.FLAG)
  {
    var env', marks' := env + [top], marks + [m];
    assert |marks| == |env|;
    assert env'[..|env|] == env && marks'[..|env|] == marks;
    assert vars == vars[..m] + vars[m..];
    FindAppend(vars[..m], vars[m..], E.FLAG);
    FindNone(vars[m..], E.FLAG);
  }

  /** Leaving a Go block that opened no template scope: its variables linger, but hide nothing. */
  lemma {:induction false} MergeScope(env: G.Scopes, top: G.Scope, vars: seq<Binding>, marks: seq<nat>, m: nat)
    requires env != [] && Rel(env + [top], vars, marks + [m])
    requires top.Keys !! Names(env)
    ensures Rel(env, vars, marks)
  {
    var n := |env| - 1;
    var env', marks' := env + [top], marks + [m];
    assert |marks| == |env|;
    assert env'[..|env|] == env && marks'[..|env|] == marks;
    var low, seg := vars[..m][marks[n]..], vars[m..];
    assert vars == vars[..m] + seg;
    assert vars[marks[n]..] == low + seg;
    assert vars[..marks[n]] == vars[..m][..marks[n]];
    forall x | x in env[n]
      ensures UserName(x) && FindVar(low + seg, x) == Some(Enc(env[n][x]))
    {
      FindAppend(low, seg, x);
      FindNone(seg, x);
      assert x in Names(env);
    }
    assert Names(env[..n]) <= Names(env);
    if n == 0 {
      FindAppend(vars[..m], seg, E.FLAG);
      FindAppend(vars[..m], seg, G.BLANK);
    }
  }

  /// ## Declaring and assigning

  lemma {:induction false} RelParts(env: G.Scopes, vars: seq<Binding>, marks: seq<nat>)
    requires Rel(env, vars, marks)
    ensures env != [] && |marks| == |env|
    ensures var n := |env| - 1;
            && marks[n] <= |vars| && Seg(env[n], vars[marks[n]..], Names(env[..n]))
            && if n == 0 then marks[0] == 0 && FindVar(vars, E.FLAG).Some? && FindVar(vars, G.BLANK).Some?
               else NoFlag(vars[marks[n]..]) && Rel(env[..n], vars[..marks[n]], marks[..n])
  {
  }

  lemma {:induction false} RelBuild(below: G.Scopes, top: G.Scope, low: seq<Binding>, seg: seq<Binding>, marks: seq<nat>)
    requires |marks| == |below| + 1 && marks[|below|] == |low| && Seg(top, seg, Names(below))
    requires if below == [] then low == [] && FindVar(seg, E.FLAG).Some? && FindVar(seg, G.BLANK).Some?
             else NoFlag(seg) && Rel(below, low, marks[..|below|])
    ensures Rel(below + [top], low + seg, marks)
  {
    hide FindVar, Seg, NoFlag, Names;
    assert (below + [top])[..|below|] == below;
    assert (low + seg)[..|low|] == low && (low + seg)[|low|..] == seg;
    if below == [] { assert low + seg == seg; }
  }

  lemma {:induction false} SegPush(scope: G.Scope, seg: seq<Binding>, outer: set<string>, x: string, v: Json, top: G.Scope)
    requires Seg(scope, seg, outer) && x != E.FLAG
    requires if UserName(x) then x in top && top == scope[x := top[x]] && v == Enc(top[x]) else top == scope
    ensures Seg(top, seg + [Binding(x, v)], outer)
    ensures NoFlag(seg) ==> NoFlag(seg + [Binding(x, v)])
  {
    hide Enc, FindVar;
    forall y | y in top ensures UserName(y) && FindVar(seg + [Binding(x, v)], y) == Some(Enc(top[y])) {
      FindPush(seg, x, v, y);
    }
  }

  lemma {:induction false} RelPush(env: G.Scopes, vars: seq<Binding>, marks: seq<nat>, x: string, v: Json, top: G.Scope)
    requires Rel(env, vars, marks) && x != E.FLAG
    requires if UserName(x) then x in top && top == env[|env| - 1][x := top[x]] && v == Enc(top[x]) else top == env[|env| - 1]
    ensures Rel(env[..|env| - 1] + [top], vars + [Binding(x, v)], marks)
  {
    RelParts(env, vars, marks);
    var n := |env| - 1;
    var low, seg, more := vars[..marks[n]], vars[marks[n]..], [Binding(x, v)];
    SegPush(env[n], seg, Names(env[..n]), x, v, top);
    hide Rel, FindVar, Seg, NoFlag, Names, Enc;
    if n == 0 {
      assert low == [] && seg == vars;
      FindPush(seg, x, v, E.FLAG);
      FindPush(seg, x, v, G.BLANK);
    }
    RelBuild(env[..n], top, low, seg + more, marks);
    assert low + (seg + more) == vars + more;
  }

  /** Where the last binding of a Go variable is: in the part of the innermost scope that declares it. */
  lemma {:induction false} RelBinds(env: G.Scopes, vars: seq<Binding>, marks: seq<nat>, x: string)
    requires Rel(env, vars, marks) && x in Names(env)
    ensures var n := |env| - 1;
            && marks[n] <= |vars| && (FindVar(vars[marks[n]..], x).Some? <==> x in env[n])
            && (x !in env[n] ==> n > 0 && x in Names(env[..n]))
  {
    var n := |env| - 1;
    FindNone(vars[marks[n]..], x);
    if x !in env[n] {
      assert x in Names(env[..n]);
      LookupNames(env, x);
      RelLookup(env, vars, marks, x);
    }
  }

  /** Assigning to an existing variable, wherever it is. */
  lemma {:induction false} RelUpdate(env: G.Scopes, vars: seq<Binding>, marks: seq<nat>, x: string, v: G.Value)
    requires Rel(env, vars, marks) && G.Update(env, x, v).Some?
    ensures SetVar(vars, x, Enc(v)).Some?
    ensures Rel(G.Update(env, x, v).value, SetVar(vars, x, Enc(v)).value, marks)
    decreases |env|
  {
    var n := |env| - 1;
    UpdateNames(env, x, v);
    RelBinds(env, vars, marks, x);
    if x in env[n] {
      RelSetTop(env, vars, marks, x, Enc(v), env[n][x := v]);
    } else {
      RelUpdate(env[..n], vars[..marks[n]], marks[..n], x, v);
      UpdateNames(env[..n], x, v);
      SplitSet(vars, marks[n], x, Enc(v));
      RelReplaceLow(env, vars, marks, G.Update(env[..n], x, v).value, SetVar(vars[..marks[n]], x, Enc(v)).value);
    }
  }

  lemma {:induction false} SplitSet(vars: seq<Binding>, m: nat, x: string, v: Json)
    requires m <= |vars| && FindVar(vars[m..], x).None? && SetVar(vars[..m], x, v).Some?
    ensures SetVar(vars, x, v) == Some(SetVar(vars[..m], x, v).value + vars[m..])
  {
    assert vars == vars[..m] + vars[m..];
    SetAppend(vars[..m], vars[m..], x, v);
    SetFind(vars[m..], x, v);
  }

  /** The lower scopes change, the top one stays. */
  lemma {:induction false} RelReplaceLow(env: G.Scopes, vars: seq<Binding>, marks: seq<nat>, outer: G.Scopes, low: seq<Binding>)
    requires Rel(env, vars, marks) && |env| > 1
    requires var n := |env| - 1;
             Rel(outer, low, marks[..n]) && Names(outer) == Names(env[..n]) && |low| == marks[n]
    ensures Rel(outer + [env[|env| - 1]], low + vars[marks[|env| - 1]..], marks)
  {
    var n := |env| - 1;
    var m := marks[n];
    var env', vars' := outer + [env[n]], low + vars[m..];
    assert |outer| == n;
    assert env'[..n] == outer;
    assert vars'[..m] == low && vars'[m..] == vars[m..];
  }

  lemma {:induction false} UpdateNames(env: G.Scopes, x: string, v: G.Value)
    requires G.Update(env, x, v).Some?
    ensures Names(G.Update(env, x, v).value) == Names(env) && x in Names(env)
  {
    var n := |env| - 1;
    var env' := G.Update(env, x, v).value;
    if x in env[n] {
      assert env'[..n] == env[..n];
    } else {
      UpdateNames(env[..n], x, v);
      assert env'[..n] == G.Update(env[..n], x, v).value;
    }
  }

  /** The top segment after a write to a name that it binds. */
  lemma {:induction false} TopSet(seg: seq<Binding>, below: set<string>, scope: G.Scope, x: string, v: Json, top: G.Scope)
    requires Seg(scope, seg, below) && FindVar(seg, x).Some?
    requires top.Keys == scope.Keys
    requires forall y :: y in top ==> Enc(top[y]) == if y == x then v else Enc(scope[y])
    ensures SetVar(seg, x, v).Some? && |SetVar(seg, x, v).value| == |seg|
    ensures Seg(top, SetVar(seg, x, v).value, below)
    ensures NoFlag(seg) ==> NoFlag(SetVar(seg, x, v).value)
  {
    SetFind(seg, x, v);
    forall y | y in top ensures UserName(y) && FindVar(SetVar(seg, x, v).value, y) == Some(Enc(top[y])) {
      FindAfterSet(seg, x, v, y);
    }
  }

  /** Writing a name that the top segment binds. */
  lemma {:induction false} RelSetTop(env: G.Scopes, vars: seq<Binding>, marks: seq<nat>, x: string, v: Json, top: G.Scope)
    requires Rel(env, vars, marks)
    requires var n := |env| - 1; FindVar(vars[marks[n]..], x).Some?
    requires top.Keys == env[|env| - 1].Keys
    requires forall y :: y in top ==> Enc(top[y]) == if y == x then v else Enc(env[|env| - 1][y])
    ensures SetVar(vars, x, v).Some?
    ensures Rel(env[..|env| - 1] + [top], SetVar(vars, x, v).value, marks)
  {
    var n := |env| - 1;
    var m := marks[n];
    var low, seg := vars[..m], vars[m..];
    assert vars == low + seg;
    RelParts(env, vars, marks);
    hide Rel, SetVar, FindVar, Seg, NoFlag, Names;
    SetAppend(low, seg, x, v);
    TopSet(seg, Names(env[..n]), env[n], x, v, top);
    if n == 0 {
      assert low == [] && seg == vars;
      FindAfterSet(seg, x, v, E.FLAG);
      FindAfterSet(seg, x, v, G.BLANK);
    }
    RelBuild(env[..n], top, low, SetVar(seg, x, v).value, marks);
  }

  /** Writing the return flag or the blank variable. */
  lemma {:induction false} RelSetSpecial(env: G.Scopes, vars: seq<Binding>, marks: seq<nat>, x: string, v: Json)
    requires Rel(env, vars, marks) && !UserName(x) && FindVar(vars, x).Some?
    ensures SetVar(vars, x, v).Some? && Rel(env, SetVar(vars, x, v).value, marks)
    decreases |env|
  {
    RelParts(env, vars, marks);
    var n := |env| - 1;
    var m := marks[n];
    assert x !in env[n];
    hide Rel, Seg, SetVar, FindVar, NoFlag, Names, Enc;
    var low, seg := vars[..m], vars[m..];
    assert vars == low + seg;
    SetAppend(low, seg, x, v);
    FindAppend(low, seg, x);
    SetFind(seg, x, v);
    if n == 0 { assert seg == vars; }
    if FindVar(seg, x).Some? {
      RelSetTop(env, vars, marks, x, v, env[n]);
      assert env[..n] + [env[n]] == env;
    } else {
      RelSetSpecial(env[..n], low, marks[..n], x, v);
      RelSetLow(env, vars, marks, SetVar(low, x, v).value);
    }
  }

  /** Below the top segment, the stack may change as long as it stays related. */
  lemma {:induction false} RelSetLow(env: G.Scopes, vars: seq<Binding>, marks: seq<nat>, low: seq<Binding>)
    requires Rel(env, vars, marks) && |env| > 1
    requires var n := |env| - 1; |low| == marks[n] && Rel(env[..n], low, marks[..n])
    ensures Rel(env, low + vars[marks[|env| - 1]..], marks)
  {
    var m := marks[|env| - 1];
    var vars' := low + vars[m..];
    assert vars'[..m] == low && vars'[m..] == vars[m..];
  }

  /// ## Storing a value

  ghost predicate SameKeys(a: G.Scopes, b: G.Scopes) {
    |a| == |b| && forall i :: 0 <= i < |a| ==> a[i].Keys == b[i].Keys
  }

  /** `env'` is `env` after declaring at most `declared` in its innermost scope and assigning. */
  ghost predicate Grown(env: G.Scopes, env': G.Scopes, declared: set<string>) {
    && env != [] && |env'| == |env|
    && SameKeys(env'[..|env| - 1], env[..|env| - 1])
    && env'[|env| - 1].Keys <= env[|env| - 1].Keys + declared
  }

  lemma {:induction false} SameNames(a: G.Scopes, b: G.Scopes)
    requires SameKeys(a, b)
    ensures Names(a) == Names(b)
  {
    if a != [] {
      SameNames(a[..|a| - 1], b[..|b| - 1]);
    }
  }

  lemma {:induction false} GrownNames(env: G.Scopes, env': G.Scopes, declared: set<string>)
    requires Grown(env, env', declared)
    ensures Names(env') <= Names(env) + declared
  {
    SameNames(env'[..|env| - 1], env[..|env| - 1]);
  }

  lemma {:induction false} LookupAfterUpdate(env: G.Scopes, x: string, v: G.Value, y: string)
    requires G.Update(env, x, v).Some?
    ensures G.Lookup(G.Update(env, x, v).value, y) == if y == x then Some(v) else G.Lookup(env, y)
  {
    var n := |env| - 1;
    var env' := G.Update(env, x, v).value;
    if x in env[n] {
      assert env'[..n] == env[..n];
    } else {
      LookupAfterUpdate(env[..n], x, v, y);
      assert env'[..n] == G.Update(env[..n], x, v).value;
    }
  }

  lemma {:induction false} UpdateGrows(env: G.Scopes, x: string, v: G.Value)
    requires G.Update(env, x, v).Some?
    ensures SameKeys(G.Update(env, x, v).value, env)
  {
    var n := |env| - 1;
    if x !in env[n] {
      UpdateGrows(env[..n], x, v);
    }
  }

  /** A template assignment mirrors a Go one, and touches no other variable. */
  lemma {:induction false} SimStore(define: bool, env: G.Scopes, vars: seq<Binding>, marks: seq<nat>, x: string, v: G.Value)
    requires Rel(env, vars, marks) && GoodName(x)
    requires G.Store(define, env, x, v).Ok?
    ensures var t := Put(vars, x, define, Enc(v));
            var env' := G.Store(define, env, x, v).value;
            && t.Ok? && Rel(env', t.value, marks)
            && Grown(env, env', if define then {x} else {})
            && forall y :: y != x ==> FindVar(t.value, y) == FindVar(vars, y)
  {
    var env' := G.Store(define, env, x, v).value;
    var n := |env| - 1;
    assert x != E.FLAG;
    if define {
      var top := if x == G.BLANK then env[n] else env[n][x := v];
      RelPush(env, vars, marks, x, Enc(v), top);
      assert env' == env[..n] + [top];
      assert env'[..n] == env[..n];
      forall y ensures y != x ==> FindVar(vars + [Binding(x, Enc(v))], y) == FindVar(vars, y) {
        FindPush(vars, x, Enc(v), y);
      }
    } else {
      RelSpecial(env, vars, marks);
      if x == G.BLANK {
        RelSetSpecial(env, vars, marks, x, Enc(v));
      } else {
        RelUpdate(env, vars, marks, x, v);
        UpdateGrows(env, x, v);
      }
      forall y ensures y != x ==> FindVar(SetVar(vars, x, Enc(v)).value, y) == FindVar(vars, y) {
        FindAfterSet(vars, x, Enc(v), y);
      }
    }
  }
}
