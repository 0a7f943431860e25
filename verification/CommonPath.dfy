/** The longest path prefix that a license bundle's import paths share. */
module CommonPath {
  import G = GoLang
  import opened Strings

  /** Sorted by byte order, equal strings allowed. */
  predicate NotAfter(a: string, b: string) {
    a == b || G.Before(a, b)
  }

  predicate Sorted(s: seq<string>) {
    forall i, j :: 0 <= i < j < |s| ==> NotAfter(s[i], s[j])
  }

  /// ## sort.Strings

  method Insert(s: seq<string>, v: string) returns (r: seq<string>)
    requires Sorted(s)
    ensures Sorted(r) && multiset(r) == multiset(s) + multiset{v}
  {
    var k := 0;
    while k < |s| && NotAfter(s[k], v)
      invariant k <= |s| && forall i :: 0 <= i < k ==> NotAfter(s[i], v)
    {
      k := k + 1;
    }
    r := s[..k] + [v] + s[k..];
    assert s == s[..k] + s[k..];
    forall i | k <= i < |s| ensures NotAfter(v, s[i]) {
      BeforeTotal(s[k], v);
      if i > k && v != s[k] && s[k] != s[i] { BeforeTransitive(v, s[k], s[i]); }
    }
  }

  method SortStrings(a: array<string>)
    modifies a
    ensures Sorted(a[..]) && multiset(a[..]) == multiset(old(a[..]))
  {
    var s: seq<string> := [];
    for i := 0 to a.Length
      invariant Sorted(s) && multiset(s) == multiset(a[..i])
      invariant a[..] == old(a[..])
    {
      assert a[..i + 1] == a[..i] + [a[i]];
      s := Insert(s, a[i]);
    }
    assert a[..a.Length] == a[..];
    assert |s| == |multiset(s)| == |multiset(a[..])| == a.Length;
    forall i | 0 <= i < a.Length {
      a[i] := s[i];
    }
    assert a[..] == s;
  }

  /// ## What is shared

  /** `p` is `q` or ends in it where a path component ends.  The empty path starts every path. */
  predicate Leads(p: string, q: string) {
    p == "" || p == q || (|p| < |q| && p <= q && q[|p|] == '/')
  }

  ghost predicate LeadsAll(p: string, paths: seq<string>) {
    forall q :: q in paths ==> Leads(p, q)
  }

  /** What comes right after the prefix `p` in `q`. */
  predicate Follows(p: string, q: string, c: char) {
    p < q && q[|p|] == c
  }

  /** The one family of inputs that the early return gets wrong: a path that starts all the others, one of which goes
      on with a slash, one with a byte that sorts before the slash, and none with a byte that sorts after it. */
  ghost predicate Trap(paths: seq<string>) {
    exists p :: p in paths && p != "" && Trapped(p, paths)
  }

  ghost predicate Trapped(p: string, paths: seq<string>) {
    && (forall q :: q in paths ==> p <= q && (p < q ==> q[|p|] <= '/'))
    && (exists q :: q in paths && Follows(p, q, '/'))
    && (exists q :: q in paths && p < q && q[|p|] < '/')
  }

  /** The early return's result leads only two of these three. */
  lemma {:induction false} TrapExample()
    ensures Trap(["a", "a-b", "a/c"])
    ensures forall p :: LeadsAll(p, ["a", "a-b", "a/c"]) <==> p == ""
  {
    var paths := ["a", "a-b", "a/c"];
    assert Follows("a", paths[2], '/') && "a" < paths[1] && paths[1][1] < '/';
    assert Trapped("a", paths);
    forall p | LeadsAll(p, paths) ensures p == "" {
      assert Leads(p, paths[0]) && Leads(p, paths[1]);
      assert paths[1][1] == '-';
    }
  }

  /** Whatever the first and the last of the sorted paths share, all share. */
  lemma {:induction false} SharedByAll(first: string, x: string, last: string, p: string)
    requires NotAfter(first, x) && NotAfter(x, last) && p <= first && p <= last
    ensures p <= x
  {
    if p != "" && first != x && x != last {
      assert first[0] == p[0] == last[0];
      assert x[0] == p[0];
      SharedByAll(first[1..], x[1..], last[1..], p[1..]);
      assert x == [x[0]] + x[1..] && p == [p[0]] + p[1..];
    }
  }

  /** Right after a shared prefix, byte order shows. */
  lemma {:induction false} NextByte(x: string, y: string, p: string)
    requires NotAfter(x, y) && p <= x && p <= y
    ensures p < x ==> p < y && x[|p|] <= y[|p|]
  {
    if p == "" {
      if x != y && x != "" { assert y != ""; }
    } else if x != y {
      assert x[0] == p[0] == y[0];
      NextByte(x[1..], y[1..], p[1..]);
    }
  }

  lemma {:induction false} SameMembers(a: seq<string>, b: seq<string>)
    requires multiset(a) == multiset(b)
    ensures forall q :: q in a <==> q in b
  {
    forall q ensures q in a <==> q in b {
      assert q in a <==> q in multiset(a);
      assert q in b <==> q in multiset(b);
    }
  }

  /// ## The algorithm

  method SharedBytes(first: string, last: string) returns (n: nat)
    ensures n <= |first| && n <= |last| && first[..n] == last[..n]
    ensures n < |first| && n < |last| ==> first[n] != last[n]
  {
    n := 0;
    while n < |first| && n < |last| && first[n] == last[n]
      invariant n <= |first| && n <= |last| && first[..n] == last[..n]
    {
      n := n + 1;
    }
  }

  method LastSlash(s: string) returns (i: int)
    ensures -1 <= i < |s|
    ensures i >= 0 ==> s[i] == '/'
    ensures forall j :: i < j < |s| ==> s[j] != '/'
  {
    i := |s| - 1;
    while i >= 0 && s[i] != '/'
      invariant -1 <= i < |s|
      invariant forall j :: i < j < |s| ==> s[j] != '/'
    {
      i := i - 1;
    }
  }

  /** No longer path leads all of them; the result leads all of them exactly when they are no trap.  The argument
      is sorted in place. */
  method LongestCommonPath(paths: array<string>) returns (r: string)
    modifies paths
    ensures multiset(paths[..]) == multiset(old(paths[..]))
    ensures paths.Length == 0 ==> r == ""
    ensures paths.Length > 0 ==> forall q :: q in old(paths[..]) ==> r <= q
    ensures paths.Length > 0 ==> LeadsAll(r, old(paths[..])) <==> !Trap(old(paths[..]))
    ensures paths.Length > 0 ==> forall p :: LeadsAll(p, old(paths[..])) ==> |p| <= |r|
  {
    if paths.Length == 0 { return ""; }
    if paths.Length == 1 {
      r := paths[0];
      assert paths[..] == [r];
      OnePath(r);
      return;
    }
    ghost var before := paths[..];
    SortStrings(paths);
    SameMembers(before, paths[..]);
    ghost var sorted := paths[..];
    SameTrap(before, sorted);
    var first, last := paths[0], paths[paths.Length - 1];
    var n := SharedBytes(first, last);
    if n == |first| && (n == |last| || last[n] == '/') {
      Early(sorted);
      return first;
    }
    var common := first[..n];
    var i := LastSlash(common);
    r := if i >= 0 then common[..i] else "";
    Late(sorted, n, r);
  }

  lemma {:induction false} OnePath(r: string)
    ensures LeadsAll(r, [r]) && !Trap([r]) && forall p :: LeadsAll(p, [r]) ==> |p| <= |r|
  {
    forall p | LeadsAll(p, [r]) ensures |p| <= |r| {
      assert Leads(p, r);
    }
  }

  lemma {:induction false} SameTrap(a: seq<string>, b: seq<string>)
    requires forall q :: q in a <==> q in b
    ensures Trap(a) <==> Trap(b)
    ensures forall p :: LeadsAll(p, a) <==> LeadsAll(p, b)
  {
    forall p ensures Trapped(p, a) <==> Trapped(p, b) {
    }
  }

  /** Between the first and the last path, all share what these two share, and go on with no greater byte. */
  lemma {:induction false} Between(s: seq<string>, p: string, q: string)
    requires Sorted(s) && q in s && p <= s[0] && p <= s[|s| - 1]
    ensures p <= q && (p < q ==> p < s[|s| - 1] && q[|p|] <= s[|s| - 1][|p|])
  {
    var i :| 0 <= i < |s| && s[i] == q;
    var last := s[|s| - 1];
    assert NotAfter(s[0], q) && NotAfter(q, last);
    SharedByAll(s[0], q, last, p);
    NextByte(q, last, p);
  }

  /** The early return: the first path starts the last one, which ends there or goes on with a slash. */
  lemma {:induction false} Early(s: seq<string>)
    requires |s| > 1 && Sorted(s)
    requires var first, last := s[0], s[|s| - 1]; first <= last && (first < last ==> last[|first|] == '/')
    ensures forall q :: q in s ==> s[0] <= q
    ensures LeadsAll(s[0], s) <==> !Trap(s)
    ensures forall p :: LeadsAll(p, s) ==> |p| <= |s[0]|
  {
    hide G.Before, Sorted;
    var first, last := s[0], s[|s| - 1];
    forall q | q in s ensures first <= q && (first < q ==> first < last && q[|first|] <= '/') {
      Between(s, first, q);
    }
    forall p | LeadsAll(p, s) ensures |p| <= |first| {
      assert first in s;
    }
    if first != "" && !LeadsAll(first, s) { EarlyTrap(s); }
    if Trap(s) { TrapMeansFirst(s); }
  }

  lemma {:induction false} EarlyTrap(s: seq<string>)
    requires |s| > 1 && s[0] != "" && !LeadsAll(s[0], s)
    requires forall q :: q in s ==> s[0] <= q && (s[0] < q ==> s[0] < s[|s| - 1] && q[|s[0]|] <= '/')
    requires s[0] < s[|s| - 1] ==> s[|s| - 1][|s[0]|] == '/'
    ensures Trap(s)
  {
    var first, last := s[0], s[|s| - 1];
    var q :| q in s && !Leads(first, q);
    assert first in s && last in s;
    assert first < last;
    assert Follows(first, last, '/');
    assert first < q && q[|first|] < '/';
    assert Trapped(first, s);
  }

  lemma {:induction false} TrapMeansFirst(s: seq<string>)
    requires |s| > 1 && Sorted(s) && Trap(s)
    requires var first, last := s[0], s[|s| - 1]; first <= last && (first < last ==> last[|first|] == '/')
    ensures !LeadsAll(s[0], s)
  {
    var first := s[0];
    var p :| p in s && p != "" && Trapped(p, s);
    assert first in s;
    var i :| 0 <= i < |s| && s[i] == p;
    assert NotAfter(first, p) && p <= first;
    PrefixNotBefore(p, first);
    assert p == first;
    var q :| q in s && p < q && q[|p|] < '/';
    assert !Leads(first, q);
  }

  lemma {:induction false} PrefixNotBefore(p: string, q: string)
    requires p <= q
    ensures !G.Before(q, p)
  {
    if p != "" && q[0] == p[0] { PrefixNotBefore(p[1..], q[1..]); }
  }

  /** The other return: the bytes up to the last slash of what the first and the last path share. */
  lemma {:induction false} Late(s: seq<string>, n: nat, r: string)
    requires |s| > 1 && Sorted(s)
    requires n <= |s[0]| && n <= |s[|s| - 1]| && s[0][..n] == s[|s| - 1][..n]
    requires n < |s[0]| && n < |s[|s| - 1]| ==> s[0][n] != s[|s| - 1][n]
    requires !(n == |s[0]| && (n == |s[|s| - 1]| || s[|s| - 1][n] == '/'))
    requires |r| <= n && r == s[0][..|r|] && forall j :: |r| < j < n ==> s[0][j] != '/'
    requires if r == "" && (n == 0 || s[0][0] != '/') then forall j :: 0 <= j < n ==> s[0][j] != '/' else |r| < n && s[0][|r|] == '/'
    ensures forall q :: q in s ==> r <= q
    ensures LeadsAll(r, s) && !Trap(s)
    ensures forall p :: LeadsAll(p, s) ==> |p| <= |r|
  {
    hide G.Before, Sorted;
    var first, last, common := s[0], s[|s| - 1], s[0][..n];
    assert first in s && last in s;
    forall q | q in s ensures r <= q && Leads(r, q) {
      Between(s, common, q);
      if r != "" { assert common[|r|] == q[|r|]; }
    }
    assert NotAfter(first, last) by { assert Sorted(s); FirstNotAfter(s, last); }
    forall p | LeadsAll(p, s) ensures |p| <= |r| {
      assert Leads(p, first) && Leads(p, last);
      LongerFails(first, last, n, p, r);
    }
    if Trap(s) { TrapIsEarly(s); }
  }

  lemma {:induction false} FirstNotAfter(s: seq<string>, q: string)
    requires Sorted(s) && q in s
    ensures NotAfter(s[0], q)
  {
  }

  /** A trap takes the early return. */
  lemma {:induction false} TrapIsEarly(s: seq<string>)
    requires |s| > 1 && Sorted(s) && Trap(s)
    ensures var first, last := s[0], s[|s| - 1]; first < last && last[|first|] == '/'
  {
    hide G.Before, Sorted;
    var p :| p in s && p != "" && Trapped(p, s);
    var q :| q in s && Follows(p, q, '/');
    assert s[0] in s && s[|s| - 1] in s;
    FirstNotAfter(s, p);
    PrefixNotBefore(p, s[0]);
    assert s[0] == p;
    Between(s, p, q);
  }

  lemma {:induction false} LongerFails(first: string, last: string, n: nat, p: string, r: string)
    requires n <= |first| && n <= |last| && first[..n] == last[..n]
    requires n < |first| && n < |last| ==> first[n] != last[n]
    requires !(n == |first| && (n == |last| || last[n] == '/'))
    requires NotAfter(first, last)
    requires forall j :: |r| < j < n ==> first[j] != '/'
    requires Leads(p, first) && Leads(p, last)
    ensures |p| <= |r|
  {
    assert p <= first && p <= last;
    assert forall k :: 0 <= k < |p| ==> first[k] == p[k] && last[k] == p[k];
    assert p != "" && p != first ==> first[|p|] == '/';
    assert p != "" && p != last ==> last[|p|] == '/';
    assert forall k :: 0 <= k < n ==> first[k] == first[..n][k] && last[k] == last[..n][k];
    PrefixNotBefore(p, first);
  }

  /// ## The licenses that apply to a package

  /** A classified license file and its directory, `""` for the module root. */
  datatype License = License(dir: string, kind: string)

  function LicensesAt(lics: seq<License>, dir: string): (hits: seq<License>)
    ensures forall l :: l in hits <==> l in lics && l.dir == dir
  {
    if lics == [] then []
    else
      var front, last := LicensesAt(lics[..|lics| - 1], dir), lics[|lics| - 1];
      if last.dir == dir then front + [last] else front
  }

  /** No license lies between the directory and the package. */
  ghost predicate NoneCloser(lics: seq<License>, dir: string, pkg: string) {
    forall l :: l in lics && Leads(l.dir, pkg) ==> |l.dir| <= |dir|
  }

  lemma {:induction false} SameLead(p: string, q: string, pkg: string)
    requires Leads(p, pkg) && Leads(q, pkg)
    ensures |p| == |q| ==> p == q
  {
    if |p| == |q| && p != "" { assert p == pkg[..|p|] && q == pkg[..|p|]; }
  }

  /** The parent directory is the next longest that leads to the package. */
  lemma {:induction false} ParentNext(dir: string, parent: string, pkg: string, p: string)
    requires Leads(dir, pkg) && dir != "" && Leads(p, pkg) && |p| < |dir|
    requires parent <= dir && (parent != "" ==> |parent| < |dir| && dir[|parent|] == '/')
    requires forall j :: |parent| < j < |dir| ==> dir[j] != '/'
    ensures Leads(parent, pkg) && |p| <= |parent|
  {
    if parent != "" { assert pkg[|parent|] == dir[|parent|]; }
    if p != "" { assert dir[|p|] == pkg[|p|] == '/'; }
  }

  /** nearestLicenses: all the licenses of the closest directory above the package that has any. */
  method NearestLicenses(lics: seq<License>, pkg: string) returns (hits: seq<License>)
    ensures hits == [] <==> forall l :: l in lics ==> !Leads(l.dir, pkg)
    ensures hits != [] ==> hits == LicensesAt(lics, hits[0].dir) && Leads(hits[0].dir, pkg) && NoneCloser(lics, hits[0].dir, pkg)
  {
    var dir := pkg;
    while true
      invariant Leads(dir, pkg) && NoneCloser(lics, dir, pkg)
      decreases |dir|
    {
      hits := [];
      for i := 0 to |lics|
        invariant hits == LicensesAt(lics[..i], dir)
      {
        assert lics[..i + 1][..i] == lics[..i];
        if lics[i].dir == dir { hits := hits + [lics[i]]; }
      }
      assert lics[..|lics|] == lics;
      if hits != [] {
        assert hits[0] in lics;
        return;
      }
      if dir == "" { return; }
      var i := LastSlash(dir);
      var parent := if i < 0 then "" else dir[..i];
      ParentNext(dir, parent, pkg, "");
      forall l | l in lics && Leads(l.dir, pkg) ensures |l.dir| <= |parent| {
        SameLead(l.dir, dir, pkg);
        assert l !in LicensesAt(lics, dir);
        ParentNext(dir, parent, pkg, l.dir);
      }
      dir := parent;
    }
  }
}
