/** Setting a path in nested maps, and merging one nested map into another. */
module NestedMaps {
  import opened Wrappers

  datatype Value = Leaf(s: string) | Map(entries: map<string, Value>)

  type Tree = map<string, Value>

  /** The value at a path; the empty path is the map itself. */
  function Get(v: Value, path: seq<string>): Option<Value>
    decreases |path|
  {
    if path == [] then Some(v)
    else if v.Map? && path[0] in v.entries then Get(v.entries[path[0]], path[1..])
    else None
  }

  /// ## Merging

  /** Both maps: key by key.  Otherwise the source replaces the destination. */
  function Merge(d: Value, s: Value): (r: Value)
    ensures d.Map? && s.Map? ==> r.Map?
    decreases s
  {
    if d.Map? && s.Map? then
      Map(map k | k in d.entries.Keys + s.entries.Keys ::
            if k !in s.entries then d.entries[k]
            else if k !in d.entries then s.entries[k]
            else Merge(d.entries[k], s.entries[k]))
    else s
  }

  /** The value that a key of the source gets. */
  function Merged(d: Tree, s: Tree, k: string): Value
    requires k in s
  {
    if k in d then Merge(d[k], s[k]) else s[k]
  }

  /** The destination with the keys in `done` merged. */
  ghost predicate MergedSoFar(d: Tree, s: Tree, r: Tree, done: set<string>)
    requires done <= s.Keys
  {
    r.Keys == d.Keys + done && forall k :: k in r ==> r[k] == if k in done then Merged(d, s, k) else d[k]
  }

  lemma {:induction false} MergedStep(d: Tree, s: Tree, r: Tree, done: set<string>, k: string)
    requires done <= s.Keys && k in s && k !in done && MergedSoFar(d, s, r, done)
    ensures (k in r <==> k in d) && (k in d ==> r[k] == d[k])
    ensures MergedSoFar(d, s, r[k := Merged(d, s, k)], done + {k})
  {
  }

  /** Maps under the key merge; else the source's value takes the key. */
  lemma {:induction false} MergedCases(d: Tree, s: Tree, k: string)
    requires k in s
    ensures Merged(d, s, k) == if k in d && d[k].Map? && s[k].Map? then Merge(Map(d[k].entries), Map(s[k].entries)) else s[k]
  {
  }

  lemma {:induction false} MergedAll(d: Tree, s: Tree, r: Tree)
    requires MergedSoFar(d, s, r, s.Keys)
    ensures Map(r) == Merge(Map(d), Map(s))
  {
    var all := Merge(Map(d), Map(s)).entries;
    assert all.Keys == d.Keys + s.Keys;
    assert forall k :: k in r ==> r[k] == all[k];
    assert r == all;
  }

  /** mergeMaps: the keys of the source come in any order. */
  method MergeMaps(dst: Tree, src: Tree) returns (r: Tree)
    ensures Map(r) == Merge(Map(dst), Map(src))
    decreases Map(src)
  {
    r := dst;
    var left := src.Keys;
    hide Merge, MergedSoFar, Merged;
    assert src.Keys - src.Keys == {} && MergedSoFar(dst, src, dst, {}) by { NothingMerged(dst, src); }
    while left != {}
      invariant left <= src.Keys
      invariant MergedSoFar(dst, src, r, src.Keys - left)
      decreases |left|
    {
      var k :| k in left;
      MergedStep(dst, src, r, src.Keys - left, k);
      MergedCases(dst, src, k);
      assert src.Keys - (left - {k}) == src.Keys - left + {k};
      left := left - {k};
      var v := src[k];
      if k !in r {
        r := r[k := v];
      } else if r[k].Map? && v.Map? {
        var sub := MergeMaps(r[k].entries, v.entries);
        r := r[k := Map(sub)];
      } else {
        r := r[k := v];
      }
    }
    assert src.Keys - {} == src.Keys;
    MergedAll(dst, src, r);
  }

  lemma {:induction false} NothingMerged(d: Tree, s: Tree)
    ensures MergedSoFar(d, s, d, {})
  {
  }

  /** Merging the same source again changes nothing. */
  lemma {:induction false} MergeTwice(d: Value, s: Value)
    ensures Merge(Merge(d, s), s) == Merge(d, s)
    decreases s
  {
    if s.Map? {
      var once := Merge(d, s);
      forall k | k in s.entries ensures Merge(once.entries[k], s.entries[k]) == once.entries[k] {
        if d.Map? && k in d.entries { MergeTwice(d.entries[k], s.entries[k]); } else { MergeSelf(s.entries[k]); }
      }
      assert Merge(once, s).entries == once.entries;
    }
  }

  lemma {:induction false} MergeSelf(s: Value)
    ensures Merge(s, s) == s
    decreases s
  {
    if s.Map? {
      forall k | k in s.entries ensures Merge(s.entries[k], s.entries[k]) == s.entries[k] { MergeSelf(s.entries[k]); }
      assert Merge(s, s).entries == s.entries;
    }
  }

  /** What is found at a path after a merge: what a merge of the two finds makes, as long as the source leads there
      through maps that the destination has as well. */
  lemma {:induction false} MergeGet(d: Value, s: Value, path: seq<string>)
    ensures Get(Merge(d, s), path) ==
            match (Get(d, path), Get(s, path))
            case (Some(a), Some(b)) => Some(Merge(a, b))
            case (None, Some(b)) => Some(b)
            case (Some(a), None) => if Covers(s, path) then None else Some(a)
            case (None, None) => None
    decreases |path|
  {
    if path != [] && d.Map? && s.Map? && path[0] in d.entries && path[0] in s.entries {
      MergeGet(d.entries[path[0]], s.entries[path[0]], path[1..]);
    }
  }

  /** The source has a value that is no map on the way to `path`, which hides what the destination has below. */
  predicate Covers(s: Value, path: seq<string>)
    decreases |path|
  {
    if path == [] then false
    else if s.Leaf? then true
    else path[0] in s.entries && Covers(s.entries[path[0]], path[1..])
  }

  /** Every value of the source that is no map is in the result. */
  lemma {:induction false} LeavesSurvive(d: Value, s: Value, path: seq<string>, x: string)
    requires Get(s, path) == Some(Leaf(x))
    ensures Get(Merge(d, s), path) == Some(Leaf(x))
  {
    MergeGet(d, s, path);
  }

  /// ## Setting a path

  /** The value that a key gets: a merge with what is there, or the new value. */
  function Put(m: Tree, key: string, value: Value): Tree {
    m[key := if key in m then Merge(m[key], value) else value]
  }

  function SubOf(m: Tree, key: string): Tree {
    if key in m && m[key].Map? then m[key].entries else map[]
  }

  /** The map with `path` set, or None when the path leads through a value that is no map. */
  function SetSpec(m: Tree, path: seq<string>, value: Value): Option<Tree>
    decreases |path|
  {
    if path == [] then if value.Map? then Some(Merge(Map(m), value).entries) else None
    else if |path| == 1 then Some(Put(m, path[0], value))
    else if path[0] in m && m[path[0]].Leaf? then None
    else
      match SetSpec(SubOf(m, path[0]), path[1..], value)
      case None => None
      case Some(sub) => Some(m[path[0] := Map(sub)])
  }

  /** The map with another map at `path`: what a write through a reference to the inner map does. */
  function Replace(m: Tree, path: seq<string>, sub: Tree): Tree
    decreases |path|
  {
    if path == [] then sub else m[path[0] := Map(Replace(SubOf(m, path[0]), path[1..], sub))]
  }

  lemma {:induction false} ReplaceTwice(m: Tree, path: seq<string>, a: Tree, b: Tree)
    ensures Replace(Replace(m, path, a), path, b) == Replace(m, path, b)
    decreases |path|
  {
    if path != [] { ReplaceTwice(SubOf(m, path[0]), path[1..], a, b); }
  }

  /** One key further. */
  lemma {:induction false} ReplaceSnoc(m: Tree, path: seq<string>, curr: Tree, key: string, sub: Tree)
    requires Replace(m, path, curr) == m
    ensures Replace(m, path + [key], sub) == Replace(m, path, curr[key := Map(sub)])
    decreases |path|
  {
    if path == [] {
      assert path + [key] == [key] && [key][1..] == [];
      assert curr == m;
    } else {
      assert (path + [key])[0] == path[0] && (path + [key])[1..] == path[1..] + [key];
      var inner := SubOf(m, path[0]);
      assert m[path[0]] == Map(Replace(inner, path[1..], curr)) by {
        assert m == m[path[0] := Map(Replace(inner, path[1..], curr))];
      }
      ReplaceSnoc(inner, path[1..], curr, key, sub);
    }
  }

  /** setPath.  A failure leaves the map as it was: maps are only created where nothing could fail any more. */
  method SetPath(m: Tree, path: seq<string>, value: Value) returns (ok: bool, r: Tree)
    ensures ok <==> SetSpec(m, path, value).Some?
    ensures r == if ok then SetSpec(m, path, value).value else m
  {
    r := m;
    if path == [] {
      if value.Leaf? { return false, r; }
      r := MergeMaps(m, value.entries);
      return true, r;
    }
    var curr := m;
    for i := 0 to |path| - 1
      invariant Replace(r, path[..i], curr) == r
      invariant r == m || curr == map[]
      invariant SetSpec(m, path, value) ==
                match SetSpec(curr, path[i..], value)
                case None => None
                case Some(sub) => Some(Replace(r, path[..i], sub))
    {
      var key := path[i];
      assert path[i..][0] == key && path[i..][1..] == path[i + 1..] && path[..i + 1] == path[..i] + [key];
      ghost var before, old', outer := r, SetSpec(curr, path[i..], value), curr;
      if key !in curr {
        curr := curr[key := Map(map[])];
        r := Replace(r, path[..i], curr);
        ReplaceTwice(before, path[..i], curr, curr);
      }
      if curr[key].Leaf? { return false, r; }
      var next := curr[key].entries;
      Advance(before, r, path[..i], outer, curr, key, path[i + 1..], value);
      curr := next;
    }
    var last := path[|path| - 1];
    assert path[|path| - 1..] == [last];
    LastKey(curr, last, value);
    hide Merge, Put, SetSpec, Replace;
    if last in curr && curr[last].Map? && value.Map? {
      var merged := MergeMaps(curr[last].entries, value.entries);
      curr := curr[last := Map(merged)];
    } else {
      curr := curr[last := value];
    }
    r := Replace(r, path[..|path| - 1], curr);
    ok := true;
  }

  lemma {:induction false} LastKey(m: Tree, key: string, value: Value)
    ensures SetSpec(m, [key], value) == Some(Put(m, key, value))
    ensures Put(m, key, value) == m[key := if key in m && m[key].Map? && value.Map? then Merge(m[key], value) else value]
  {
  }

  /** One step of the walk, with the map for `key` created if need be. */
  lemma {:induction false} Advance(before: Tree, r: Tree, prefix: seq<string>, outer: Tree, curr: Tree, key: string, rest: seq<string>, value: Value)
    requires Replace(before, prefix, outer) == before && rest != []
    requires curr == if key in outer then outer else outer[key := Map(map[])]
    requires r == if key in outer then before else Replace(before, prefix, curr)
    requires curr[key].Map?
    ensures Replace(r, prefix + [key], curr[key].entries) == r
    ensures var spec := SetSpec(outer, [key] + rest, value);
            match SetSpec(curr[key].entries, rest, value)
            case None => spec == None
            case Some(sub) => spec.Some? && Replace(before, prefix, spec.value) == Replace(r, prefix + [key], sub)
  {
    ReplaceTwice(before, prefix, curr, curr);
    assert Replace(r, prefix, curr) == r;
    var next := curr[key].entries;
    assert curr[key := Map(next)] == curr;
    ReplaceSnoc(r, prefix, curr, key, next);
    assert ([key] + rest)[1..] == rest && SubOf(outer, key) == next;
    match SetSpec(next, rest, value)
    case None =>
    case Some(sub) =>
      ReplaceSnoc(r, prefix, curr, key, sub);
      assert curr[key := Map(sub)] == outer[key := Map(sub)];
      ReplaceTwice(before, prefix, curr, outer[key := Map(sub)]);
  }

  /// ## What a set path means

  /** It fails exactly when a value on the way is no map, or a value that is no map is to be merged into the root. */
  lemma {:induction false} FailsIff(m: Tree, path: seq<string>, value: Value)
    ensures SetSpec(m, path, value) == None <==>
            (path == [] && value.Leaf?) || exists i :: 0 < i < |path| && Blocked(m, path[..i])
    decreases |path|
  {
    if |path| > 1 {
      var key, rest := path[0], path[1..];
      assert path[..1] == [key] && [key][1..] == [];
      FailsIff(SubOf(m, key), rest, value);
      forall i | 0 < i <= |path| ensures BlockedStep(m, path, i) { BlockedOn(m, path, i); }
      if i :| 0 < i < |rest| && Blocked(SubOf(m, key), rest[..i]) {
        assert BlockedStep(m, path, i + 1);
      }
      if i :| 0 < i < |path| && Blocked(m, path[..i]) {
        assert BlockedStep(m, path, i);
        if i > 1 { assert 0 < i - 1 < |rest|; }
      }
      assert BlockedStep(m, path, 1);
    }
  }

  /** The way to `path[..i]` ends in a value that is no map: at the first key, or below it. */
  predicate BlockedStep(m: Tree, path: seq<string>, i: nat)
    requires 0 < i <= |path|
  {
    Blocked(m, path[..i]) <==>
      path[0] in m && if i == 1 then m[path[0]].Leaf? else Blocked(SubOf(m, path[0]), path[1..][..i - 1])
  }

  lemma {:induction false} BlockedOn(m: Tree, path: seq<string>, i: nat)
    requires 0 < i <= |path|
    ensures BlockedStep(m, path, i)
  {
    var key := path[0];
    assert path[..i][0] == key && path[..i][1..] == path[1..][..i - 1];
    assert Get(Map(m), path[..i]) == if key in m then Get(m[key], path[..i][1..]) else None;
    if i == 1 { assert path[..i][1..] == [] && path[..1] == path[..i]; }
    if key in m && i > 1 {
      if m[key].Leaf? {
        assert path[..i][1..] != [];
        assert Get(m[key], path[..i][1..]) == None;
        assert Get(Map(map[]), path[1..][..i - 1]) == None;
      } else {
        assert Map(SubOf(m, key)) == m[key];
      }
    }
  }

  predicate Blocked(m: Tree, path: seq<string>) {
    Get(Map(m), path).Some? && Get(Map(m), path).value.Leaf?
  }

  /** A set path reads back as the value, or as its merge with the map that was there. */
  lemma {:induction false} ReadsBack(m: Tree, path: seq<string>, value: Value)
    requires SetSpec(m, path, value).Some?
    ensures Get(Map(SetSpec(m, path, value).value), path) ==
            match Get(Map(m), path)
            case None => Some(value)
            case Some(there) => Some(Merge(there, value))
    decreases |path|
  {
    if |path| == 1 {
      assert path == [path[0]] && path[1..] == [];
    } else if |path| > 1 {
      ReadsBack(SubOf(m, path[0]), path[1..], value);
      if path[0] !in m { assert Get(Map(map[]), path[1..]) == None; }
    }
  }

  predicate Related(p: seq<string>, q: seq<string>) {
    p <= q || q <= p
  }

  /** Paths that neither start nor continue the set path keep their values. */
  lemma {:induction false} OthersKept(m: Tree, path: seq<string>, value: Value, other: seq<string>)
    requires SetSpec(m, path, value).Some? && !Related(path, other)
    ensures Get(Map(SetSpec(m, path, value).value), other) == Get(Map(m), other)
    decreases |path|
  {
    if |path| > 1 && other[0] == path[0] {
      assert path == [path[0]] + path[1..] && other == [other[0]] + other[1..];
      OthersKept(SubOf(m, path[0]), path[1..], value, other[1..]);
      if path[0] !in m { assert Get(Map(map[]), other[1..]) == None; }
    }
  }
}
