/** The order of published versions, and the greatest stable one. */
module Versions {
  import opened Wrappers
  import G = GoLang
  import opened Strings

  /// ## Parsing

  /** The numeric fields as digits, and the rest: what the two regular expressions capture. */
  datatype Parts = Parts(major: string, minor: string, patch: string, suffix: string)

  predicate Digit(c: char) {
    '0' <= c <= '9'
  }

  predicate AllDigits(s: string) {
    s != [] && forall i :: 0 <= i < |s| ==> Digit(s[i])
  }

  function LeadingDigits(s: string): (n: nat)
    ensures n <= |s|
    ensures forall i :: 0 <= i < n ==> Digit(s[i])
    ensures n < |s| ==> !Digit(s[n])
  {
    if s == [] || !Digit(s[0]) then 0 else 1 + LeadingDigits(s[1..])
  }

  /** A run of digits and the dot after it. */
  function Field(s: string): (r: Option<(string, string)>)
    ensures r.Some? ==> AllDigits(r.value.0) && s == r.value.0 + "." + r.value.1
  {
    var n := LeadingDigits(s);
    if n == 0 || n == |s| || s[n] != '.' then None
    else
      assert s == s[..n] + s[n..] && s[n..] == "." + s[n + 1..];
      Some((s[..n], s[n + 1..]))
  }

  /** `^(\d+)\.(\d+)\.(\d+)(.*)$` */
  function Parse(v: string): (r: Option<Parts>)
    ensures r.Some? ==> AllDigits(r.value.major) && AllDigits(r.value.minor) && AllDigits(r.value.patch)
    ensures r.Some? ==> v == r.value.major + "." + r.value.minor + "." + r.value.patch + r.value.suffix
  {
    match Field(v)
    case None => None
    case Some(first) =>
      match Field(first.1)
      case None => None
      case Some(second) =>
        var n := LeadingDigits(second.1);
        if n == 0 || '\n' in second.1[n..] then None
        else
          Dotted(v, first.0, first.1, second.0, second.1, n);
          Some(Parts(first.0, second.0, second.1[..n], second.1[n..]))
  }

  lemma {:induction false} Dotted(v: string, major: string, afterMajor: string, minor: string, afterMinor: string, n: nat)
    requires v == major + "." + afterMajor && afterMajor == minor + "." + afterMinor && n <= |afterMinor|
    ensures v == major + "." + minor + "." + afterMinor[..n] + afterMinor[n..]
  {
    assert afterMinor == afterMinor[..n] + afterMinor[n..];
  }

  function Show(p: Parts): string {
    p.major + "." + p.minor + "." + p.patch + p.suffix
  }

  predicate GoodParts(p: Parts) {
    && AllDigits(p.major) && AllDigits(p.minor) && AllDigits(p.patch)
    && (p.suffix != "" ==> !Digit(p.suffix[0])) && '\n' !in p.suffix
  }

  lemma {:induction false} LeadingOf(digits: string, rest: string)
    requires forall i :: 0 <= i < |digits| ==> Digit(digits[i])
    requires rest != "" ==> !Digit(rest[0])
    ensures LeadingDigits(digits + rest) == |digits|
  {
    if digits == "" {
      assert digits + rest == rest;
    } else {
      assert (digits + rest)[1..] == digits[1..] + rest;
      LeadingOf(digits[1..], rest);
    }
  }

  lemma {:induction false} FieldOf(digits: string, rest: string)
    requires AllDigits(digits)
    ensures Field(digits + "." + rest) == Some((digits, rest))
  {
    var s := digits + "." + rest;
    assert s == digits + ("." + rest);
    LeadingOf(digits, "." + rest);
    assert s[|digits|] == '.' && s[..|digits|] == digits && s[|digits| + 1..] == rest;
  }

  /** Parsing reads back what was shown, and every version that parses shows as itself. */
  lemma {:induction false} ParseShow(p: Parts)
    requires GoodParts(p)
    ensures Parse(Show(p)) == Some(p)
  {
    var third := p.patch + p.suffix;
    var second := p.minor + "." + third;
    assert Show(p) == p.major + "." + second;
    FieldOf(p.major, second);
    FieldOf(p.minor, third);
    LeadingOf(p.patch, p.suffix);
    assert third[..|p.patch|] == p.patch && third[|p.patch|..] == p.suffix;
  }

  lemma {:induction false} ShowParse(v: string)
    requires Parse(v).Some?
    ensures GoodParts(Parse(v).value) && Show(Parse(v).value) == v
  {
    var second := Field(v).value.1;
    var third := Field(second).value.1;
    assert v == Parse(v).value.major + "." + (Parse(v).value.minor + "." + third);
  }

  /** A string is a version with these fields exactly when the fields are good and it is written from them. */
  lemma {:induction false} ParseIff(v: string, p: Parts)
    ensures Parse(v) == Some(p) <==> GoodParts(p) && v == Show(p)
  {
    if Parse(v) == Some(p) { ShowParse(v); }
    if GoodParts(p) && v == Show(p) { ParseShow(p); }
  }

  function Number(digits: string): nat
    requires forall i :: 0 <= i < |digits| ==> Digit(digits[i])
  {
    if digits == [] then 0
    else
      var last := digits[|digits| - 1];
      assert Digit(last);
      Number(digits[..|digits| - 1]) * 10 + (last as int - '0' as int)
  }

  const MAX_INT := 0x7fff_ffff_ffff_ffff

  /** strconv.Atoi returns the greatest int along with its range error, which the callers drop. */
  function Atoi(digits: string): (n: nat)
    requires AllDigits(digits)
    ensures n <= MAX_INT
  {
    if Number(digits) <= MAX_INT then Number(digits) else MAX_INT
  }

  datatype Triple = Triple(major: nat, minor: nat, patch: nat)

  function Numbers(p: Parts): Triple
    requires AllDigits(p.major) && AllDigits(p.minor) && AllDigits(p.patch)
  {
    Triple(Atoi(p.major), Atoi(p.minor), Atoi(p.patch))
  }

  predicate Below(a: Triple, b: Triple) {
    a.major < b.major || (a.major == b.major && (a.minor < b.minor || (a.minor == b.minor && a.patch < b.patch)))
  }

  predicate LessVersion(a: string, b: string) {
    match (Parse(a), Parse(b))
    case (Some(p), Some(q)) =>
      if Numbers(p) != Numbers(q) then Below(Numbers(p), Numbers(q))
      else if (p.suffix == "") != (q.suffix == "") then p.suffix != ""
      else G.Before(p.suffix, q.suffix)
    case _ => G.Before(a, b)
  }

  /** X.Y.Z without a remainder. */
  predicate Stable(v: string) {
    Parse(v).Some? && Parse(v).value.suffix == ""
  }

  /** Versions that parse are ordered by the first of their three numbers that differs.  With the same numbers, one
      without remainder comes after those with one, and remainders go byte by byte. */
  lemma {:induction false} LessIff(p: Parts, q: Parts)
    requires GoodParts(p) && GoodParts(q)
    ensures var a := [Atoi(p.major), Atoi(p.minor), Atoi(p.patch)];
            var b := [Atoi(q.major), Atoi(q.minor), Atoi(q.patch)];
            LessVersion(Show(p), Show(q)) <==>
              || (exists i :: 0 <= i < 3 && a[i] < b[i] && a[..i] == b[..i])
              || (a == b && p.suffix != "" && (q.suffix == "" || G.Before(p.suffix, q.suffix)))
  {
    var a := [Atoi(p.major), Atoi(p.minor), Atoi(p.patch)];
    var b := [Atoi(q.major), Atoi(q.minor), Atoi(q.patch)];
    ParseShow(p);
    ParseShow(q);
    BeforeIrreflexive(p.suffix);
    FirstDiffers(a, b);
    assert a == b <==> Numbers(p) == Numbers(q);
    hide Parse, Show, Atoi;
  }

  lemma {:induction false} FirstDiffers(a: seq<nat>, b: seq<nat>)
    requires |a| == |b| == 3
    ensures (exists i :: 0 <= i < 3 && a[i] < b[i] && a[..i] == b[..i])
            <==> Below(Triple(a[0], a[1], a[2]), Triple(b[0], b[1], b[2]))
  {
    assert a[..0] == b[..0];
    assert a[..1] == b[..1] <==> a[0] == b[0];
    assert a[..2] == b[..2] <==> a[0] == b[0] && a[1] == b[1];
  }

  /** One version that does not parse makes the comparison go byte by byte. */
  lemma {:induction false} UnparsedIff(a: string, b: string)
    requires forall p :: GoodParts(p) ==> Show(p) != a || forall q :: GoodParts(q) ==> Show(q) != b
    ensures LessVersion(a, b) <==> G.Before(a, b)
  {
    if Parse(a).Some? && Parse(b).Some? {
      ShowParse(a);
      ShowParse(b);
      assert false;
    }
  }

  /** Without leading zeros, the number with more digits is the greater, and with as many digits they decide. */
  lemma {:induction false} NumberOrder(a: string, b: string)
    requires AllDigits(a) && AllDigits(b) && (|a| > 1 ==> a[0] != '0') && (|b| > 1 ==> b[0] != '0')
    ensures Number(a) < Number(b) <==> |a| < |b| || (|a| == |b| && G.Before(a, b))
  {
    if |a| < |b| {
      NumberLength(a, b);
    } else if |b| < |a| {
      NumberLength(b, a);
    } else {
      NumberDigits(a, b);
    }
  }

  lemma {:induction false} NumberLength(a: string, b: string)
    requires AllDigits(a) && AllDigits(b) && |a| < |b| && b[0] != '0'
    ensures Number(a) < Number(b)
  {
    if |a| == 1 {
      assert a[..0] == [];
      PositiveNumber(b[..|b| - 1]);
    } else {
      NumberLength(a[..|a| - 1], b[..|b| - 1]);
    }
  }

  lemma {:induction false} NumberDigits(a: string, b: string)
    requires |a| == |b| && forall i :: 0 <= i < |a| ==> Digit(a[i]) && Digit(b[i])
    ensures Number(a) < Number(b) <==> G.Before(a, b)
    ensures Number(a) == Number(b) <==> a == b
  {
    if a != [] {
      var i, j := a[..|a| - 1], b[..|b| - 1];
      assert a == i + [a[|a| - 1]] && b == j + [b[|b| - 1]];
      NumberDigits(i, j);
      BeforeLast(i, a[|a| - 1], j, b[|b| - 1]);
    }
  }

  lemma {:induction false} BeforeLast(i: string, c: char, j: string, d: char)
    requires |i| == |j|
    ensures G.Before(i + [c], j + [d]) <==> G.Before(i, j) || (i == j && c < d)
  {
    if i == [] {
      assert [] + [c] == [c] && [] + [d] == [d] && [c][1..] == [] && [d][1..] == [];
    } else {
      assert (i + [c])[1..] == i[1..] + [c] && (j + [d])[1..] == j[1..] + [d];
      assert i == [i[0]] + i[1..] && j == [j[0]] + j[1..];
      BeforeLast(i[1..], c, j[1..], d);
    }
  }

  /** A version is stable exactly when it is three numbers and the dots between them. */
  lemma {:induction false} StableIff(v: string)
    ensures Stable(v) <==> exists major, minor, patch :: AllDigits(major) && AllDigits(minor) && AllDigits(patch)
                                                         && v == major + "." + minor + "." + patch
  {
    if Stable(v) {
      var p := Parse(v).value;
      assert v == p.major + "." + p.minor + "." + p.patch;
    }
    if major, minor, patch :| AllDigits(major) && AllDigits(minor) && AllDigits(patch) && v == major + "." + minor + "." + patch {
      ParseShow(Parts(major, minor, patch, ""));
      assert v == Show(Parts(major, minor, patch, ""));
    }
  }

  /// ## A strict total order

  /** A number written without leading zeros that fits an int. */
  predicate CanonicalNumber(digits: string) {
    AllDigits(digits) && (|digits| > 1 ==> digits[0] != '0') && Number(digits) <= MAX_INT
  }

  predicate Canonical(v: string) {
    match Parse(v)
    case None => false
    case Some(p) => CanonicalNumber(p.major) && CanonicalNumber(p.minor) && CanonicalNumber(p.patch)
  }

  lemma {:induction false} PositiveNumber(a: string)
    requires AllDigits(a) && a[0] != '0'
    ensures Number(a) > 0
  {
    if |a| > 1 { PositiveNumber(a[..|a| - 1]); }
    else { assert a[..0] == []; }
  }

  /** Without leading zeros, the number determines its digits. */
  lemma {:induction false} NumberInjective(a: string, b: string)
    requires AllDigits(a) && AllDigits(b) && (|a| > 1 ==> a[0] != '0') && (|b| > 1 ==> b[0] != '0')
    requires Number(a) == Number(b)
    ensures a == b
  {
    var i, j := a[..|a| - 1], b[..|b| - 1];
    assert a == i + [a[|a| - 1]] && b == j + [b[|b| - 1]];
    SameLastDigit(Number(i), Number(j), a[|a| - 1] as int - '0' as int, b[|b| - 1] as int - '0' as int);
    assert a[|a| - 1] == b[|b| - 1];
    if i != [] { PositiveNumber(i); }
    if j != [] { PositiveNumber(j); }
    if i != [] && j != [] { NumberInjective(i, j); }
  }

  lemma {:induction false} SameLastDigit(m: nat, n: nat, c: nat, d: nat)
    requires c < 10 && d < 10 && m * 10 + c == n * 10 + d
    ensures m == n && c == d
  {
  }

  lemma {:induction false} LessIrreflexive(a: string)
    ensures !LessVersion(a, a)
  {
    BeforeIrreflexive(a);
    if Parse(a).Some? { BeforeIrreflexive(Parse(a).value.suffix); }
  }

  lemma {:induction false} LessTransitive(a: string, b: string, c: string)
    requires Parse(a).Some? && Parse(b).Some? && Parse(c).Some?
    requires LessVersion(a, b) && LessVersion(b, c)
    ensures LessVersion(a, c)
  {
    var p, q, r := Parse(a).value, Parse(b).value, Parse(c).value;
    if Numbers(p) == Numbers(q) && Numbers(q) == Numbers(r) {
      if p.suffix != "" && q.suffix != "" && r.suffix != "" { BeforeTransitive(p.suffix, q.suffix, r.suffix); }
    }
  }

  lemma {:induction false} LessTotal(a: string, b: string)
    requires Canonical(a) && Canonical(b)
    ensures LessVersion(a, b) || LessVersion(b, a) || a == b
  {
    var p, q := Parse(a).value, Parse(b).value;
    if Numbers(p) == Numbers(q) {
      BeforeTotal(p.suffix, q.suffix);
      NumberInjective(p.major, q.major);
      NumberInjective(p.minor, q.minor);
      NumberInjective(p.patch, q.patch);
    }
  }

  lemma {:induction false} LessAsymmetric(a: string, b: string)
    requires Parse(a).Some? && Parse(b).Some? && LessVersion(a, b)
    ensures !LessVersion(b, a)
  {
    if LessVersion(b, a) {
      LessTransitive(a, b, a);
      LessIrreflexive(a);
    }
  }

  /** Versions that parse are incomparable exactly when they have the same numbers and the same remainder. */
  lemma {:induction false} Incomparable(a: string, b: string)
    requires Parse(a).Some? && Parse(b).Some?
    ensures !LessVersion(a, b) && !LessVersion(b, a) <==>
            Numbers(Parse(a).value) == Numbers(Parse(b).value) && Parse(a).value.suffix == Parse(b).value.suffix
  {
    BeforeTotal(Parse(a).value.suffix, Parse(b).value.suffix);
    BeforeIrreflexive(Parse(a).value.suffix);
  }

  const ONE := Parts("1", "0", "0", "")
  const ONE_PADDED := Parts("1", "00", "0", "")
  const NINE := Parts("9", "0", "0", "")
  const TEN := Parts("10", "0", "0", "")

  /** With leading zeros two different versions can be incomparable. */
  lemma {:induction false} PaddedIncomparable()
    ensures !LessVersion(Show(ONE), Show(ONE_PADDED)) && !LessVersion(Show(ONE_PADDED), Show(ONE))
  {
    ParseShow(ONE);
    ParseShow(ONE_PADDED);
    SmallNumbers();
    assert Numbers(ONE) == Numbers(ONE_PADDED);
    Incomparable(Show(ONE), Show(ONE_PADDED));
  }

  /** Mixing in a version that does not parse breaks transitivity. */
  lemma {:induction false} UnparsedCycle()
    ensures LessVersion(Show(NINE), Show(TEN)) && LessVersion(Show(TEN), "5") && LessVersion("5", Show(NINE))
  {
    NineTen();
    hide LessVersion;
    LessWithUnparsed(Show(TEN), "5");
    LessWithUnparsed("5", Show(NINE));
  }

  lemma {:induction false} NineTen()
    ensures LessVersion(Show(NINE), Show(TEN))
  {
    ParseShow(NINE);
    ParseShow(TEN);
    SmallNumbers();
  }

  lemma {:induction false} LessWithUnparsed(a: string, b: string)
    requires |a| > 0 && |b| > 0 && (LeadingDigits(a) == |a| || LeadingDigits(b) == |b|)
    requires a[0] < b[0] || (a[0] == b[0] && |a| == 1 && |b| > 1)
    ensures LessVersion(a, b)
  {
  }

  lemma {:induction false} SmallNumbers()
    ensures Number("0") == 0 && Number("1") == 1 && Number("9") == 9 && Number("00") == 0 && Number("10") == 10
  {
    assert "0"[..0] == "" && "1"[..0] == "" && "9"[..0] == "" && "00"[..1] == "0" && "10"[..1] == "1";
  }

  /// ## Sorting

  predicate Ascending(vs: seq<string>) {
    forall i, j :: 0 <= i < j < |vs| ==> LessVersion(vs[i], vs[j])
  }

  predicate AllCanonical(vs: seq<string>) {
    forall i :: 0 <= i < |vs| ==> Canonical(vs[i])
  }

  /** There is one ascending order of a set of canonical versions. */
  lemma {:induction false} OneOrder(a: seq<string>, b: seq<string>)
    requires AllCanonical(a) && Ascending(a) && Ascending(b) && (forall v :: v in a <==> v in b)
    ensures a == b
  {
    hide LessVersion, Canonical;
    assert b != [] ==> b[0] in b;
    if a != [] {
      SameFirst(a, b);
      assert a == [a[0]] + a[1..] && b == [b[0]] + b[1..];
      LessIrreflexive(a[0]);
      assert a[0] !in a[1..] && b[0] !in b[1..];
      assert forall v :: v in a[1..] <==> v in a && v != a[0];
      assert forall v :: v in b[1..] <==> v in b && v != b[0];
      OneOrder(a[1..], b[1..]);
    }
  }

  lemma {:induction false} SameFirst(a: seq<string>, b: seq<string>)
    requires AllCanonical(a) && a != [] && Ascending(a) && Ascending(b) && (forall v :: v in a <==> v in b)
    ensures b != [] && a[0] == b[0]
  {
    hide LessVersion, Parse;
    assert a[0] in b && b[0] in a;
    var i :| 0 <= i < |a| && a[i] == b[0];
    var j :| 0 <= j < |b| && b[j] == a[0];
    if i > 0 && j > 0 { LessAsymmetric(a[0], a[i]); }
  }

  /** sort.Slice with `lessVersion`. */
  method Sort(vs: seq<string>) returns (sorted: seq<string>)
    ensures multiset(sorted) == multiset(vs)
    ensures AllCanonical(vs) && (forall i, j :: 0 <= i < j < |vs| ==> vs[i] != vs[j]) ==> Ascending(sorted)
  {
    sorted := [];
    for i := 0 to |vs|
      invariant multiset(sorted) == multiset(vs[..i])
      invariant AllCanonical(vs) && (forall i, j :: 0 <= i < j < |vs| ==> vs[i] != vs[j]) ==> AllCanonical(sorted) && Ascending(sorted)
    {
      assert vs[..i + 1] == vs[..i] + [vs[i]];
      assert forall v :: v in sorted <==> v in multiset(sorted);
      assert forall v :: v in vs[..i] <==> v in multiset(vs[..i]);
      sorted := Insert(sorted, vs[i]);
    }
    assert vs[..|vs|] == vs;
  }

  method Insert(vs: seq<string>, v: string) returns (r: seq<string>)
    ensures multiset(r) == multiset(vs) + multiset{v}
    ensures AllCanonical(vs) && Canonical(v) && Ascending(vs) && v !in vs ==> AllCanonical(r) && Ascending(r)
  {
    hide LessVersion, Canonical;
    var k := 0;
    while k < |vs| && LessVersion(vs[k], v)
      invariant k <= |vs| && forall i :: 0 <= i < k ==> LessVersion(vs[i], v)
    {
      k := k + 1;
    }
    r := vs[..k] + [v] + vs[k..];
    assert vs == vs[..k] + vs[k..];
    if AllCanonical(vs) && Canonical(v) && Ascending(vs) && v !in vs {
      InsertAscending(vs, v, k);
    }
  }

  lemma {:induction false} InsertAscending(vs: seq<string>, v: string, k: nat)
    requires AllCanonical(vs) && Canonical(v) && Ascending(vs) && v !in vs && k <= |vs|
    requires forall i :: 0 <= i < k ==> LessVersion(vs[i], v)
    requires k < |vs| ==> !LessVersion(vs[k], v)
    ensures var r := vs[..k] + [v] + vs[k..]; AllCanonical(r) && Ascending(r)
  {
    hide LessVersion, Parse;
    var r := vs[..k] + [v] + vs[k..];
    forall j | k <= j < |vs| ensures LessVersion(v, vs[j]) {
      LessTotal(v, vs[k]);
      if j > k { LessTransitive(v, vs[k], vs[j]); }
    }
    forall i, j | 0 <= i < j < |r| ensures LessVersion(r[i], r[j]) {
      if i < k {
        assert r[i] == vs[i];
        if j > k { assert r[j] == vs[j - 1]; }
      } else {
        assert r[j] == vs[j - 1];
        if i > k { assert r[i] == vs[i - 1]; }
      }
    }
  }

  /// ## The greatest stable version

  /** `best` is a stable version of `vs` and none is greater; `""` when none is stable. */
  predicate Greatest(best: string, vs: set<string>) {
    if best == "" then forall v :: v in vs ==> !Stable(v)
    else
      && best in vs && Stable(best)
      && forall v :: v in vs && Stable(v) ==> !LessVersion(best, v)
  }

  /** The keys of a map come in any order. */
  method MaxStable(vs: set<string>) returns (best: string)
    ensures Greatest(best, vs)
  {
    hide Parse, LessVersion;
    best := "";
    var tuple := Triple(0, 0, 0);
    var left := vs;
    while left != {}
      invariant left <= vs && Greatest(best, vs - left)
      invariant best != "" ==> Stable(best) && tuple == Numbers(Parse(best).value)
      decreases |left|
    {
      var v :| v in left;
      assert vs - (left - {v}) == (vs - left) + {v};
      left := left - {v};
      if Stable(v) {
        var t := Numbers(Parse(v).value);
        if best != "" { StableOrder(best, v); }
        LessIrreflexive(v);
        if best == "" || Below(tuple, t) {
          NothingGreater(best, v, vs - left - {v});
          best, tuple := v, t;
        }
      }
    }
    assert vs - {} == vs;
  }

  /** Stable versions are ordered by their numbers alone. */
  lemma {:induction false} StableOrder(a: string, b: string)
    requires Stable(a) && Stable(b)
    ensures LessVersion(a, b) <==> Below(Numbers(Parse(a).value), Numbers(Parse(b).value))
  {
    BeforeIrreflexive("");
  }

  lemma {:induction false} NothingGreater(best: string, v: string, vs: set<string>)
    requires Greatest(best, vs) && Stable(v) && (best != "" ==> LessVersion(best, v))
    ensures forall w :: w in vs && Stable(w) ==> !LessVersion(v, w)
  {
    forall w | w in vs && Stable(w) ensures !LessVersion(v, w) {
      if LessVersion(v, w) { LessTransitive(best, v, w); }
    }
  }

  /** On canonical versions the greatest stable one is the last stable one of the order. */
  lemma {:induction false} GreatestIsLast(best: string, vs: set<string>, v: string)
    requires Greatest(best, vs) && v in vs && forall w :: w in vs ==> Canonical(w)
    ensures (v == best && best != "") <==> (Stable(v) && forall w :: w in vs && Stable(w) ==> !LessVersion(v, w))
  {
    if best != "" && Stable(v) {
      if v != best { LessTotal(v, best); }
    }
  }
}
