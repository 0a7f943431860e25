/** The files that the console's TLS settings refer to, and the volume that projects them. */
module ConsoleMounts {
  import opened Wrappers
  import opened Strings
  import C = CommonPath
  import G = GoLang

  datatype Kind = Secret | ConfigMap

  /** A key of a secret or of a config map. */
  datatype Selector = Selector(name: string, key: string)

  /** Where a value comes from. */
  datatype Source = Source(configMap: Option<Selector>, secret: Option<Selector>)

  datatype Request = Request(kind: Kind, name: string, key: string)

  /** A projected file: the key and the path that it gets under the mount directory. */
  datatype Item = Item(kind: Kind, name: string, key: string, path: string)

  function Folder(kind: Kind): string {
    if kind.Secret? then "secrets" else "configmaps"
  }

  function PathOf(q: Request): string {
    Folder(q.kind) + "/" + q.name + "/" + q.key
  }

  function ItemOf(q: Request): Item {
    Item(q.kind, q.name, q.key, PathOf(q))
  }

  predicate Empty(s: Selector) {
    s.key == "" && s.name == ""
  }

  /** What MaybeAdd asks for: the config map goes first. */
  function Asked(s: Source): Option<Request> {
    match s.configMap
    case Some(c) => if Empty(c) then None else Some(Request(ConfigMap, c.name, c.key))
    case None => AskedSecret(s)
  }

  function AskedSecret(s: Source): Option<Request> {
    match s.secret
    case Some(c) => if Empty(c) then None else Some(Request(Secret, c.name, c.key))
    case None => None
  }

  /** The file that each kind of source stands for: the config map's when there is one, else the secret's; none for
      an empty reference, even when a secret stands beside it. */
  lemma {:induction false} FileOfSource(s: Source, dir: string)
    ensures File(dir, Asked(s)) ==
            if s.configMap.Some? then
              if s.configMap.value == Selector("", "") then None
              else Some(dir + "/configmaps/" + s.configMap.value.name + "/" + s.configMap.value.key)
            else if s.secret.Some? && s.secret.value != Selector("", "") then
              Some(dir + "/secrets/" + s.secret.value.name + "/" + s.secret.value.key)
            else None
    ensures File(dir, AskedSecret(s)) ==
            if s.secret.Some? && s.secret.value != Selector("", "") then
              Some(dir + "/secrets/" + s.secret.value.name + "/" + s.secret.value.key)
            else None
    ensures Asked(s).Some? ==> (Asked(s).value.kind.ConfigMap? <==> s.configMap.Some?)
    ensures AskedSecret(s).Some? ==> AskedSecret(s).value.kind.Secret?
  {
    if Asked(s).Some? { SamePath(dir, Asked(s).value); }
    if AskedSecret(s).Some? { SamePath(dir, AskedSecret(s).value); }
  }

  method SortedKeys(keys: set<string>) returns (sorted: seq<string>)
    ensures C.Sorted(sorted)
    ensures forall k :: k in sorted <==> k in keys
    ensures forall i, j :: 0 <= i < j < |sorted| ==> sorted[i] != sorted[j]
  {
    sorted := [];
    var left := keys;
    while left != {}
      invariant left <= keys && C.Sorted(sorted) && multiset(sorted) == multiset(keys - left)
      decreases |left|
    {
      var k :| k in left;
      assert keys - (left - {k}) == keys - left + {k};
      left := left - {k};
      sorted := C.Insert(sorted, k);
    }
    assert keys - {} == keys;
    OncePerKey(sorted, keys);
  }

  lemma {:induction false} OncePerKey(s: seq<string>, keys: set<string>)
    requires multiset(s) == multiset(keys)
    ensures forall k :: k in s <==> k in keys
    ensures forall i, j :: 0 <= i < j < |s| ==> s[i] != s[j]
  {
    forall k ensures k in s <==> k in keys { assert k in s <==> k in multiset(s); }
    forall i, j | 0 <= i < j < |s| ensures s[i] != s[j] {
      assert s == s[..i] + [s[i]] + s[i + 1..j] + [s[j]] + s[j + 1..];
      assert multiset(s) == multiset(s[..i]) + multiset{s[i]} + multiset(s[i + 1..j]) + multiset{s[j]} + multiset(s[j + 1..]);
      assert multiset(keys)[s[i]] <= 1;
    }
  }

  /// ## What is projected

  function Origin(i: Item): Request {
    Request(i.kind, i.name, i.key)
  }

  /** One item for each request, none twice. */
  ghost predicate Lists(items: seq<Item>, requests: set<Request>) {
    && (forall q :: q in requests ==> ItemOf(q) in items)
    && (forall i :: 0 <= i < |items| ==> Origin(items[i]) in requests && items[i] == ItemOf(Origin(items[i])))
    && (forall i, j :: 0 <= i < j < |items| ==> items[i] != items[j])
  }

  /** Secrets before config maps, then by name, then by key. */
  predicate Earlier(a: Item, b: Item) {
    || (a.kind.Secret? && b.kind.ConfigMap?)
    || (a.kind == b.kind && (G.Before(a.name, b.name) || (a.name == b.name && G.Before(a.key, b.key))))
  }

  predicate InOrder(items: seq<Item>) {
    forall i, j :: 0 <= i < j < |items| ==> Earlier(items[i], items[j])
  }

  lemma {:induction false} SortedBefore(s: seq<string>, i: nat, x: string)
    requires C.Sorted(s) && i < |s| && (forall j, k :: 0 <= j < k < |s| ==> s[j] != s[k]) && x in s[..i]
    ensures G.Before(x, s[i])
  {
    var j :| 0 <= j < i && s[..i][j] == x;
    assert C.NotAfter(s[j], s[i]);
  }

  /** The next key of a name comes after all that are listed. */
  lemma {:induction false} OrderMore(items: seq<Item>, done: set<Request>, kind: Kind, names: seq<string>, i: nat, keys: seq<string>, j: nat)
    requires InOrder(items) && Lists(items, done) && i < |names| && j < |keys|
    requires C.Sorted(names) && (forall a, b :: 0 <= a < b < |names| ==> names[a] != names[b])
    requires C.Sorted(keys) && (forall a, b :: 0 <= a < b < |keys| ==> keys[a] != keys[b])
    requires forall q :: q in done ==> q.kind == kind && (q.name in names[..i] || (q.name == names[i] && q.key in keys[..j]))
    ensures InOrder(items + [ItemOf(Request(kind, names[i], keys[j]))])
  {
    hide PathOf, C.Sorted;
    var item := ItemOf(Request(kind, names[i], keys[j]));
    forall x | 0 <= x < |items| ensures Earlier(items[x], item) {
      var q := Origin(items[x]);
      assert q in done;
      if q.name in names[..i] { SortedBefore(names, i, q.name); } else { SortedBefore(keys, j, q.key); }
    }
  }

  lemma {:induction false} ListsMore(items: seq<Item>, requests: set<Request>, q: Request)
    requires Lists(items, requests) && q !in requests
    ensures Lists(items + [ItemOf(q)], requests + {q})
  {
    assert Origin(ItemOf(q)) == q;
    assert forall i :: 0 <= i < |items| ==> Origin(items[i]) != q;
  }

  lemma {:induction false} ListsBoth(a: seq<Item>, b: seq<Item>, secrets: map<string, set<string>>, configMaps: map<string, set<string>>)
    requires Lists(a, Held(Secret, secrets)) && Lists(b, Held(ConfigMap, configMaps))
    ensures Lists(a + b, Held(Secret, secrets) + Held(ConfigMap, configMaps))
    ensures InOrder(a) && InOrder(b) ==> InOrder(a + b)
  {
    assert forall i :: 0 <= i < |a| ==> a[i].kind.Secret?;
    assert forall i :: 0 <= i < |b| ==> b[i].kind.ConfigMap?;
  }

  predicate Slashless(s: string) {
    '/' !in s
  }

  /** Requests with slash-free names have different paths. */
  lemma {:induction false} PathInjective(p: Request, q: Request)
    requires Slashless(p.name) && Slashless(q.name) && PathOf(p) == PathOf(q)
    ensures p == q
  {
    SplitPath(p);
    SplitPath(q);
    var a, b := Split(PathOf(p), '/'), Split(PathOf(q), '/');
    assert a[0] == Folder(p.kind) && a[1] == p.name && a[2..] == Split(p.key, '/');
    assert b[0] == Folder(q.kind) && b[1] == q.name && b[2..] == Split(q.key, '/');
    JoinSplit(p.key, '/');
    JoinSplit(q.key, '/');
    assert Folder(p.kind)[0] == Folder(q.kind)[0];
  }

  lemma {:induction false} SplitPath(q: Request)
    requires Slashless(q.name)
    ensures Split(PathOf(q), '/') == [Folder(q.kind), q.name] + Split(q.key, '/')
  {
    SplitFirst(q.name, '/', q.key);
    SplitFirst(Folder(q.kind), '/', q.name + "/" + q.key);
    assert PathOf(q) == Folder(q.kind) + ['/'] + (q.name + ['/'] + q.key);
    assert [Folder(q.kind)] + ([q.name] + Split(q.key, '/')) == [Folder(q.kind), q.name] + Split(q.key, '/');
  }

  /** Exactly one projected file lies at the path. */
  ghost predicate ProjectedOnce(items: seq<Item>, dir: string, path: string) {
    exists i :: 0 <= i < |items| && OnlyAt(items, dir, path, i)
  }

  ghost predicate OnlyAt(items: seq<Item>, dir: string, path: string, i: int) {
    forall j :: 0 <= j < |items| ==> (dir + "/" + items[j].path == path <==> j == i)
  }

  lemma {:induction false} RequestedOnce(items: seq<Item>, requests: set<Request>, dir: string, q: Request)
    requires Lists(items, requests) && q in requests && forall r :: r in requests ==> Slashless(r.name)
    ensures ProjectedOnce(items, dir, dir + "/" + PathOf(q))
  {
    assert ItemOf(q) in items;
    var i :| 0 <= i < |items| && items[i] == ItemOf(q);
    forall j | 0 <= j < |items| ensures dir + "/" + items[j].path == dir + "/" + PathOf(q) <==> j == i {
      var r := Origin(items[j]);
      if dir + "/" + items[j].path == dir + "/" + PathOf(q) {
        var n := |dir| + 1;
        assert PathOf(r) == (dir + "/" + PathOf(r))[n..] == (dir + "/" + PathOf(q))[n..] == PathOf(q);
        PathInjective(r, q);
      }
    }
    assert OnlyAt(items, dir, dir + "/" + PathOf(q), i);
  }

  /** Two requests get one path exactly when they are of one kind and name and key read the same with a slash between
      them: with slashes in a name they need not be equal. */
  lemma {:induction false} SlashCollides(p: Request, q: Request)
    ensures PathOf(p) == PathOf(q) <==> p.kind == q.kind && p.name + "/" + p.key == q.name + "/" + q.key
    ensures var a, b := Request(Secret, "a/b", "c"), Request(Secret, "a", "b/c"); a != b && PathOf(a) == PathOf(b)
  {
    var f, g := Folder(p.kind), Folder(q.kind);
    var s, t := p.name + "/" + p.key, q.name + "/" + q.key;
    assert PathOf(p) == f + "/" + s && PathOf(q) == g + "/" + t;
    if PathOf(p) == PathOf(q) {
      assert PathOf(p)[0] == f[0] && PathOf(q)[0] == g[0];
      assert s == PathOf(p)[|f| + 1..] && t == PathOf(q)[|g| + 1..];
    }
    var a, b := Request(Secret, "a/b", "c"), Request(Secret, "a", "b/c");
    assert PathOf(a) == "secrets/a/b/c" && PathOf(b) == "secrets/a/b/c";
    assert a.key == "c" && |b.key| == 3;
  }

  lemma {:induction false} NothingListed()
    ensures Lists([], {}) && InOrder([])
  {
  }

  lemma {:induction false} ItemPath(q: Request)
    ensures ItemOf(q) == Item(q.kind, q.name, q.key, Folder(q.kind) + "/" + q.name + "/" + q.key)
  {
  }

  /** The items of the secrets, or of the config maps, by sorted name and key. */
  method Items(kind: Kind, m: map<string, set<string>>) returns (items: seq<Item>)
    ensures Lists(items, Held(kind, m)) && InOrder(items)
  {
    hide C.Sorted, Lists, InOrder, PathOf;
    items := [];
    assert Lists(items, {}) && InOrder(items) by { NothingListed(); }
    var names := SortedKeys(m.Keys);
    ghost var done: set<Request> := {};
    for i := 0 to |names|
      invariant Lists(items, done) && InOrder(items)
      invariant forall q :: q in done <==> q.kind == kind && q.name in names[..i] && q.key in m[q.name]
    {
      assert names[..i + 1] == names[..i] + [names[i]];
      var n := names[i];
      assert n in names && n !in names[..i];
      var keys := SortedKeys(m[n]);
      ghost var before := done;
      for j := 0 to |keys|
        invariant Lists(items, done) && InOrder(items)
        invariant forall q :: q in done <==> q in before || (q.kind == kind && q.name == n && q.key in keys[..j])
      {
        assert keys[..j + 1] == keys[..j] + [keys[j]] && keys[j] !in keys[..j];
        var q := Request(kind, n, keys[j]);
        ListsMore(items, done, q);
        OrderMore(items, done, kind, names, i, keys, j);
        assert ItemOf(q) == Item(kind, n, keys[j], Folder(kind) + "/" + n + "/" + keys[j]) by { ItemPath(q); }
        items := items + [Item(kind, n, keys[j], Folder(kind) + "/" + n + "/" + keys[j])];
        done := done + {q};
      }
      assert keys[..|keys|] == keys;
    }
    assert names[..|names|] == names;
    assert done == Held(kind, m);
  }

  /** The volume and its contents: secrets and config maps by name, each with its keys. */
  class Volumes {
    const name: string
    const dir: string
    var secrets: map<string, set<string>>
    var configMaps: map<string, set<string>>

    constructor (name: string, dir: string)
      ensures this.name == name && this.dir == dir && Valid() && Requests() == {}
    {
      this.name, this.dir, secrets, configMaps := name, dir, map[], map[];
    }

    ghost predicate Valid()
      reads this
    {
      NoneEmpty(secrets) && NoneEmpty(configMaps)
    }

    /** What was asked for so far. */
    ghost function Requests(): set<Request>
      reads this
    {
      Held(Secret, secrets) + Held(ConfigMap, configMaps)
    }

    /** A file of `kind` is added unless the reference is empty; the path that it will have is returned. */
    method MaybeAdd(s: Source) returns (path: Option<string>)
      requires Valid()
      modifies this
      ensures Valid()
      ensures Requests() == old(Requests()) + match Asked(s) case Some(q) => {q} case None => {}
      ensures path == match Asked(s) case Some(q) => Some(dir + "/" + PathOf(q)) case None => None
    {
      if s.configMap.Some? {
        path := MaybeAddConfigMap(s.configMap.value);
      } else if s.secret.Some? {
        path := MaybeAddSecret(Source(None, Some(Selector(s.secret.value.name, s.secret.value.key))));
      } else {
        path := None;
      }
    }

    method MaybeAddConfigMap(c: Selector) returns (path: Option<string>)
      requires Valid()
      modifies this
      ensures Valid()
      ensures Requests() == old(Requests()) + if Empty(c) then {} else {Request(ConfigMap, c.name, c.key)}
      ensures path == if Empty(c) then None else Some(dir + "/" + PathOf(Request(ConfigMap, c.name, c.key)))
    {
      if Empty(c) { return None; }
      HeldMore(ConfigMap, configMaps, c);
      if c.name !in configMaps { configMaps := configMaps[c.name := {}]; }
      configMaps := configMaps[c.name := configMaps[c.name] + {c.key}];
      path := Some(dir + "/configmaps/" + c.name + "/" + c.key);
      SamePath(dir, Request(ConfigMap, c.name, c.key));
    }

    method MaybeAddSecret(s: Source) returns (path: Option<string>)
      requires Valid()
      modifies this
      ensures Valid()
      ensures Requests() == old(Requests()) + match AskedSecret(s) case Some(q) => {q} case None => {}
      ensures path == match AskedSecret(s) case Some(q) => Some(dir + "/" + PathOf(q)) case None => None
    {
      if s.secret.None? || Empty(s.secret.value) { return None; }
      var c := s.secret.value;
      HeldMore(Secret, secrets, c);
      if c.name !in secrets { secrets := secrets[c.name := {}]; }
      secrets := secrets[c.name := secrets[c.name] + {c.key}];
      path := Some(dir + "/secrets/" + c.name + "/" + c.key);
      SamePath(dir, Request(Secret, c.name, c.key));
    }

    /** The mount directory, when something is mounted. */
    method VolumeMounts() returns (mount: Option<string>)
      requires Valid()
      ensures mount == if Requests() == {} then None else Some(dir)
    {
      HeldEmpty(Secret, secrets);
      HeldEmpty(ConfigMap, configMaps);
      mount := if secrets == map[] && configMaps == map[] then None else Some(dir);
    }

    /** The projected files, when there are any: one for each request, none twice. */
    method Projected() returns (items: Option<seq<Item>>)
      requires Valid()
      ensures items.None? <==> Requests() == {}
      ensures items.Some? ==> Lists(items.value, Requests()) && InOrder(items.value)
    {
      HeldEmpty(Secret, secrets);
      HeldEmpty(ConfigMap, configMaps);
      if secrets == map[] && configMaps == map[] { return None; }
      var first := Items(Secret, secrets);
      var second := Items(ConfigMap, configMaps);
      ListsBoth(first, second, secrets, configMaps);
      items := Some(first + second);
    }
  }

  ghost function Held(kind: Kind, m: map<string, set<string>>): set<Request> {
    set n, k | n in m && k in m[n] :: Request(kind, n, k)
  }

  predicate NoneEmpty(m: map<string, set<string>>) {
    forall n :: n in m ==> m[n] != {}
  }

  lemma {:induction false} HeldMore(kind: Kind, m: map<string, set<string>>, c: Selector)
    ensures var m' := m[c.name := (if c.name in m then m[c.name] else {}) + {c.key}];
            Held(kind, m') == Held(kind, m) + {Request(kind, c.name, c.key)}
  {
    var m' := m[c.name := (if c.name in m then m[c.name] else {}) + {c.key}];
    assert c.key in m'[c.name];
  }

  lemma {:induction false} HeldEmpty(kind: Kind, m: map<string, set<string>>)
    requires NoneEmpty(m)
    ensures Held(kind, m) == {} <==> m == map[]
  {
    if n :| n in m {
      var k :| k in m[n];
      assert Request(kind, n, k) in Held(kind, m);
    }
  }

  lemma {:induction false} SamePath(dir: string, q: Request)
    ensures dir + "/" + Folder(q.kind) + "/" + q.name + "/" + q.key == dir + "/" + PathOf(q)
    ensures q.kind.Secret? ==> dir + "/secrets/" + q.name + "/" + q.key == dir + "/" + PathOf(q)
    ensures q.kind.ConfigMap? ==> dir + "/configmaps/" + q.name + "/" + q.key == dir + "/" + PathOf(q)
  {
  }

  /// ## Whole configurations

  ghost predicate AskedFor(sources: seq<Source>, q: Request) {
    exists i :: 0 <= i < |sources| && Asked(sources[i]) == Some(q)
  }

  lemma {:induction false} AskedNone(sources: seq<Source>)
    ensures forall q :: !AskedFor(sources[..0], q)
  {
  }

  lemma {:induction false} AskedMore(sources: seq<Source>, i: nat)
    requires i < |sources|
    ensures forall q :: AskedFor(sources[..i + 1], q) <==> AskedFor(sources[..i], q) || Asked(sources[i]) == Some(q)
  {
    hide Asked;
    forall q ensures AskedFor(sources[..i + 1], q) <==> AskedFor(sources[..i], q) || Asked(sources[i]) == Some(q) {
      assert sources[..i + 1][i] == sources[i];
      assert forall j :: 0 <= j < i ==> sources[..i + 1][j] == sources[..i][j];
    }
  }

  method AddEach(v: Volumes, sources: seq<Source>) returns (paths: seq<Option<string>>)
    requires v.Valid() && v.Requests() == {}
    modifies v
    ensures v.Valid() && |paths| == |sources|
    ensures forall i :: 0 <= i < |paths| ==> paths[i] == File(v.dir, Asked(sources[i]))
    ensures forall q :: q in v.Requests() <==> AskedFor(sources, q)
  {
    hide Asked, AskedFor;
    AskedNone(sources);
    paths := [];
    for i := 0 to |sources|
      invariant v.Valid() && |paths| == i
      invariant forall j :: 0 <= j < i ==> paths[j] == File(v.dir, Asked(sources[j]))
      invariant forall q :: q in v.Requests() <==> AskedFor(sources[..i], q)
    {
      ghost var before := v.Requests();
      var path := v.MaybeAdd(sources[i]);
      paths := paths + [path];
      AskedMore(sources, i);
    }
    assert sources[..|sources|] == sources;
  }

  /** After any references were added, each path that was returned is that of exactly one projected file, each projected
      file was asked for, and the directory is mounted exactly when files are projected. */
  method AddAll(v: Volumes, sources: seq<Source>) returns (paths: seq<Option<string>>, items: Option<seq<Item>>, mount: Option<string>)
    requires v.Valid() && v.Requests() == {}
    requires forall q :: AskedFor(sources, q) ==> Slashless(q.name)
    modifies v
    ensures |paths| == |sources|
    ensures forall i :: 0 <= i < |paths| ==> paths[i] == File(v.dir, Asked(sources[i]))
    ensures forall i :: 0 <= i < |paths| && paths[i].Some? ==> items.Some? && ProjectedOnce(items.value, v.dir, paths[i].value)
    ensures items.Some? ==> forall i :: i in items.value ==> AskedFor(sources, Origin(i)) && i == ItemOf(Origin(i))
    ensures items.Some? ==> InOrder(items.value)
    ensures mount == if items.Some? then Some(v.dir) else None
  {
    hide Lists, Asked, ItemOf, PathOf;
    paths := AddEach(v, sources);
    mount := v.VolumeMounts();
    items := v.Projected();
    forall i | 0 <= i < |paths| && paths[i].Some? ensures items.Some? && ProjectedOnce(items.value, v.dir, paths[i].value) {
      var q := Asked(sources[i]).value;
      assert AskedFor(sources, q);
      assert q in v.Requests();
      RequestedOnce(items.value, v.Requests(), v.dir, q);
    }
    if items.Some? { OnlyRequested(items.value, v.Requests()); }
  }

  lemma {:induction false} OnlyRequested(items: seq<Item>, requests: set<Request>)
    requires Lists(items, requests)
    ensures forall i :: i in items ==> Origin(i) in requests && i == ItemOf(Origin(i))
  {
  }

  datatype Tls = Tls(ca: Option<Source>, cert: Option<Source>, key: Option<Source>)

  datatype Files = Files(ca: Option<string>, cert: Option<string>, key: Option<string>)

  /** configureTLS: a CA may come from a config map, a certificate and its key only from secrets. */
  method ConfigureTls(v: Volumes, tls: Tls) returns (files: Files)
    requires v.Valid()
    modifies v
    ensures v.Valid()
    ensures var ca := if tls.ca.Some? then Asked(tls.ca.value) else None;
            var cert := if tls.cert.Some? then AskedSecret(tls.cert.value) else None;
            var key := if tls.key.Some? then AskedSecret(tls.key.value) else None;
            && files == Files(File(v.dir, ca), File(v.dir, cert), File(v.dir, key))
            && v.Requests() == old(v.Requests()) + Just(ca) + Just(cert) + Just(key)
  {
    var ca, cert, key: Option<string> := None, None, None;
    if tls.ca.Some? { ca := v.MaybeAdd(tls.ca.value); }
    if tls.cert.Some? { cert := v.MaybeAddSecret(tls.cert.value); }
    if tls.key.Some? { key := v.MaybeAddSecret(tls.key.value); }
    files := Files(ca, cert, key);
  }

  function File(dir: string, q: Option<Request>): Option<string> {
    match q case Some(r) => Some(dir + "/" + PathOf(r)) case None => None
  }

  function Just(q: Option<Request>): set<Request> {
    match q case Some(r) => {r} case None => {}
  }
}
