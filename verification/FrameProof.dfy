/** How the scopes of a Go program correspond to the scopes of its hoisted form. */
module FrameProof {
  import opened Wrappers
  import opened GoLang
  import opened Hoist
  import T = Transpile

  /// ## New names tell their number

  lemma {:induction false} DigitsDigits(n: nat)
    ensures forall i :: 0 <= i < |T.Digits(n)| ==> '0' <= T.Digits(n)[i] <= '9'
  {
    if n >= 10 {
      DigitsDigits(n / 10);
    }
  }

  lemma {:induction false} DigitsInjective(m: nat, n: nat)
    requires T.Digits(m) == T.Digits(n)
    ensures m == n
  {
    var d, e := T.Digits(m), T.Digits(n);
    assert d[|d| - 1] == ('0' as int + m % 10) as char;
    assert e[|e| - 1] == ('0' as int + n % 10) as char;
    assert m % 10 == n % 10;
    if m >= 10 && n >= 10 {
      assert T.Digits(m / 10) == d[..|d| - 1] && T.Digits(n / 10) == e[..|e| - 1];
      DigitsInjective(m / 10, n / 10);
    }
  }

  lemma {:induction false} AfterSeparator(x: string, k: nat, i: nat)
    requires |x| < i < |Gen(x, k)|
    ensures Gen(x, k)[i] != '_'
  {
    DigitsDigits(k);
    assert Gen(x, k)[i] == T.Digits(k)[i - |x| - 1];
  }

  lemma {:induction false} GenInjective(x: string, j: nat, y: string, k: nat)
    requires Gen(x, j) == Gen(y, k)
    ensures x == y && j == k
  {
    var g := Gen(x, j);
    assert g[|x|] == '_' && Gen(y, k)[|y|] == '_';
    if |x| < |y| {
      AfterSeparator(x, j, |y|);
    } else if |y| < |x| {
      AfterSeparator(y, k, |x|);
    } else {
      assert g[|x| + 1..] == T.Digits(j) && g[|y| + 1..] == T.Digits(k);
      DigitsInjective(j, k);
      assert g[..|x|] == x && g[..|y|] == y;
    }
  }

  /** The number in a new name. */
  ghost function NumberOf(name: string): nat {
    if exists x, k: nat :: name == Gen(x, k) then
      var x, k: nat :| name == Gen(x, k);
      k
    else 0
  }

  lemma {:induction false} GenIndex(x: string, k: nat)
    ensures NumberOf(Gen(x, k)) == k
  {
    var name := Gen(x, k);
    var y, j: nat :| name == Gen(y, j) && NumberOf(name) == j;
    GenInjective(x, k, y, j);
  }

  /// ## The relation

  /** New names that are in use in some frame. */
  function InUse(frames: seq<Frame>): set<string> {
    if frames == [] then {}
    else
      var rest := InUse(frames[..|frames| - 1]);
      match frames[|frames| - 1]
      case BlockFrame(_) => rest
      case IfFrame(renames) => rest + renames.Values
  }

  ghost predicate Injective(m: map<string, string>) {
    forall x, y :: x in m && y in m && m[x] == m[y] ==> x == y
  }

  /** A block of the program is the same block of its hoisted form, with new names beside its own. */
  ghost predicate BlockHolds(names: set<string>, scope: Scope, hoisted: Scope, given: set<string>) {
    && names == scope.Keys
    && (forall x :: x in scope ==> x !in given && x in hoisted && hoisted[x] == scope[x])
    && (forall y :: y in hoisted && y !in scope ==> y in given)
  }

  /** The scope of an initialiser lives, renamed, in the enclosing block of the hoisted form. */
  ghost predicate InitHolds(renames: map<string, string>, scope: Scope, hoisted: Scope, given: set<string>) {
    && renames.Keys == scope.Keys && Injective(renames)
    && forall x :: x in renames ==> renames[x] in given && renames[x] in hoisted && hoisted[renames[x]] == scope[x]
  }

  ghost predicate Holds(env: Scopes, frames: seq<Frame>, henv: Scopes, given: set<string>)
    decreases |env|
  {
    && |env| == |frames|
    && if env == [] then henv == []
       else
         var n := |env| - 1;
         && henv != []
         && match frames[n]
            case BlockFrame(names) =>
              && BlockHolds(names, env[n], henv[|henv| - 1], given)
              && henv[|henv| - 1].Keys !! InUse(frames[..n])
              && Holds(env[..n], frames[..n], henv[..|henv| - 1], given)
            case IfFrame(renames) =>
              && InitHolds(renames, env[n], henv[|henv| - 1], given)
              && renames.Values !! InUse(frames[..n])
              && Holds(env[..n], frames[..n], henv, given)
  }

  /// ## Reading

  /** A visible variable either keeps its name or has a new one that is in use. */
  lemma {:induction false} RenameKind(env: Scopes, frames: seq<Frame>, henv: Scopes, given: set<string>, x: string)
    requires Holds(env, frames, henv, given) && Lookup(env, x).Some?
    ensures var y := Rename(frames, x);
            (y in InUse(frames) && y in given) || (y == x && x !in given)
    decreases |env|
  {
    var n := |env| - 1;
    if x !in env[n] {
      match frames[n]
      case BlockFrame(_) => RenameKind(env[..n], frames[..n], henv[..|henv| - 1], given, x);
      case IfFrame(_) => RenameKind(env[..n], frames[..n], henv, given, x);
    }
  }

  lemma {:induction false} SameValue(env: Scopes, frames: seq<Frame>, henv: Scopes, given: set<string>, x: string)
    requires Holds(env, frames, henv, given) && Lookup(env, x).Some?
    ensures Lookup(henv, Rename(frames, x)) == Lookup(env, x)
    decreases |env|
  {
    var n := |env| - 1;
    if x !in env[n] {
      match frames[n]
      case BlockFrame(_) =>
        RenameKind(env[..n], frames[..n], henv[..|henv| - 1], given, x);
        SameValue(env[..n], frames[..n], henv[..|henv| - 1], given, x);
      case IfFrame(_) =>
        SameValue(env[..n], frames[..n], henv, given, x);
    }
  }

  /// ## Writing

  /** Writing a new name that is not in use yet, or no longer of interest, in the innermost block. */
  lemma {:induction false} SetFresh(env: Scopes, frames: seq<Frame>, henv: Scopes, given: set<string>, y: string, v: Value)
    requires Holds(env, frames, henv, given) && henv != []
    requires y in given && y !in InUse(frames)
    ensures var m := |henv| - 1;
            Holds(env, frames, henv[..m] + [henv[m][y := v]], given)
    decreases |env|
  {
    var n, m := |env| - 1, |henv| - 1;
    var henv' := henv[..m] + [henv[m][y := v]];
    if env != [] {
      match frames[n]
      case BlockFrame(_) =>
        assert henv'[..m] == henv[..m];
      case IfFrame(renames) =>
        SetFresh(env[..n], frames[..n], henv, given, y, v);
        forall x | x in renames ensures henv'[m][renames[x]] == env[n][x] {
          assert renames[x] in renames.Values;
        }
    }
  }

  lemma {:induction false} UpdateElsewhere(env: Scopes, y: string, v: Value, z: string)
    requires Update(env, y, v).Some? && z != y
    ensures var env', n := Update(env, y, v).value, |env| - 1;
            && (z in env'[n] <==> z in env[n])
            && (z in env[n] ==> env'[n][z] == env[n][z])
  {
  }

  lemma {:induction false} SameUpdate(env: Scopes, frames: seq<Frame>, henv: Scopes, given: set<string>, x: string, v: Value)
    requires Holds(env, frames, henv, given) && Update(env, x, v).Some?
    ensures Update(henv, Rename(frames, x), v).Some?
    ensures Holds(Update(env, x, v).value, frames, Update(henv, Rename(frames, x), v).value, given)
    decreases |env|, 1
  {
    match frames[|env| - 1]
    case BlockFrame(names) => SameBlockUpdate(env, frames, henv, given, x, v);
    case IfFrame(renames) => SameInitUpdate(env, frames, henv, given, x, v);
  }

  lemma {:induction false} SameBlockUpdate(env: Scopes, frames: seq<Frame>, henv: Scopes, given: set<string>, x: string, v: Value)
    requires Holds(env, frames, henv, given) && Update(env, x, v).Some? && frames[|env| - 1].BlockFrame?
    ensures Update(henv, Rename(frames, x), v).Some?
    ensures Holds(Update(env, x, v).value, frames, Update(henv, Rename(frames, x), v).value, given)
    decreases |env|, 0
  {
    var n, m := |env| - 1, |henv| - 1;
    var y := Rename(frames, x);
    var env' := Update(env, x, v).value;
    if x in env[n] {
      assert env'[..n] == env[..n];
      var henv' := henv[..m] + [henv[m][x := v]];
      assert henv'[..m] == henv[..m];
    } else {
      LookupUpdate(env[..n], x, v);
      RenameKind(env[..n], frames[..n], henv[..m], given, x);
      SameUpdate(env[..n], frames[..n], henv[..m], given, x, v);
      assert env'[..n] == Update(env[..n], x, v).value;
      var henv' := Update(henv[..m], y, v).value + [henv[m]];
      assert henv'[..m] == Update(henv[..m], y, v).value;
    }
  }

  lemma {:induction false} SameInitUpdate(env: Scopes, frames: seq<Frame>, henv: Scopes, given: set<string>, x: string, v: Value)
    requires Holds(env, frames, henv, given) && Update(env, x, v).Some? && frames[|env| - 1].IfFrame?
    ensures Update(henv, Rename(frames, x), v).Some?
    ensures Holds(Update(env, x, v).value, frames, Update(henv, Rename(frames, x), v).value, given)
    decreases |env|, 0
  {
    var n, m := |env| - 1, |henv| - 1;
    var y := Rename(frames, x);
    var renames := frames[n].renames;
    var env' := Update(env, x, v).value;
    if x in env[n] {
      var henv' := henv[..m] + [henv[m][y := v]];
      assert y in renames.Values;
      SetFresh(env[..n], frames[..n], henv, given, y, v);
      assert env'[..n] == env[..n];
    } else {
      LookupUpdate(env[..n], x, v);
      RenameKind(env[..n], frames[..n], henv, given, x);
      SameUpdate(env[..n], frames[..n], henv, given, x, v);
      assert env'[..n] == Update(env[..n], x, v).value;
      var henv' := Update(henv, y, v).value;
      forall z | z in renames ensures renames[z] in henv'[m] && henv'[m][renames[z]] == env[n][z] {
        assert renames[z] in renames.Values;
        UpdateElsewhere(henv, y, v, renames[z]);
      }
    }
  }

  lemma {:induction false} LookupUpdate(env: Scopes, x: string, v: Value)
    ensures Update(env, x, v).Some? <==> Lookup(env, x).Some?
  {
    if env != [] {
      LookupUpdate(env[..|env| - 1], x, v);
    }
  }

  /** `frames` with the names that the innermost block declares in `env`. */
  function Current(frames: seq<Frame>, env: Scopes): seq<Frame>
    requires |frames| == |env| && env != []
  {
    frames[..|frames| - 1] + [BlockFrame(env[|env| - 1].Keys)]
  }

  /** Declaring a variable of the program. */
  lemma {:induction false} SameDeclare(env: Scopes, frames: seq<Frame>, henv: Scopes, given: set<string>, x: string, v: Value)
    requires Holds(env, frames, henv, given) && InBlock(frames) && x !in given
    ensures Holds(Declare(env, x, v), Current(frames, Declare(env, x, v)), Declare(henv, x, v), given)
  {
    var n, m := |env| - 1, |henv| - 1;
    var env', henv' := Declare(env, x, v), Declare(henv, x, v);
    var frames' := Current(frames, env');
    assert env'[..n] == env[..n] && henv'[..m] == henv[..m] && frames'[..n] == frames[..n];
    InUseFresh(env[..n], frames[..n], henv[..m], given);
  }

  lemma {:induction false} InUseFresh(env: Scopes, frames: seq<Frame>, henv: Scopes, given: set<string>)
    requires Holds(env, frames, henv, given)
    ensures InUse(frames) <= given
    ensures forall y :: y in InUse(frames) ==> exists i :: 0 <= i < |henv| && y in henv[i]
    decreases |env|
  {
    if env != [] {
      var n, m := |env| - 1, |henv| - 1;
      match frames[n]
      case BlockFrame(_) =>
        InUseFresh(env[..n], frames[..n], henv[..m], given);
        forall y | y in InUse(frames) ensures exists i :: 0 <= i < |henv| && y in henv[i] {
          var i :| 0 <= i < m && y in henv[..m][i];
          assert y in henv[i];
        }
      case IfFrame(renames) =>
        InUseFresh(env[..n], frames[..n], henv, given);
        forall y | y in renames.Values ensures y in henv[m] {
        }
    }
  }

  /// ## Opening and closing

  lemma {:induction false} PushBlock(env: Scopes, frames: seq<Frame>, henv: Scopes, given: set<string>)
    requires Holds(env, frames, henv, given)
    ensures Holds(env + [map[]], frames + [BlockFrame({})], henv + [map[]], given)
  {
    var n, m := |env|, |henv|;
    assert (env + [map[]])[..n] == env && (frames + [BlockFrame({})])[..n] == frames && (henv + [map[]])[..m] == henv;
  }

  lemma {:induction false} PopBlock(env: Scopes, frames: seq<Frame>, henv: Scopes, given: set<string>)
    requires Holds(env, frames, henv, given) && InBlock(frames)
    ensures henv != []
    ensures Holds(env[..|env| - 1], frames[..|frames| - 1], henv[..|henv| - 1], given)
  {
  }

  lemma {:induction false} PopInit(env: Scopes, frames: seq<Frame>, henv: Scopes, given: set<string>)
    requires Holds(env, frames, henv, given) && frames != [] && frames[|frames| - 1].IfFrame?
    ensures Holds(env[..|env| - 1], frames[..|frames| - 1], henv, given)
  {
  }

  lemma {:induction false} PushInit(env: Scopes, frames: seq<Frame>, henv: Scopes, given: set<string>, scope: Scope, renames: map<string, string>)
    requires Holds(env, frames, henv, given) && henv != []
    requires InitHolds(renames, scope, henv[|henv| - 1], given) && renames.Values !! InUse(frames)
    ensures Holds(env + [scope], frames + [IfFrame(renames)], henv, given)
  {
    assert (env + [scope])[..|env|] == env && (frames + [IfFrame(renames)])[..|env|] == frames;
  }
}
