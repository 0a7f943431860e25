/** Building the manifest from what the store holds. */
module Manifests {
  import opened Wrappers
  import opened Strings
  import opened ObjectStore
  import opened Publisher
  import opened Versions

  /** One published artifact, as its tags describe it. */
  datatype Info = Info(goos: string, goarch: string, sha: string, path: string)

  function InfoOf(view: map<string, Tags>, k: string): Info
    requires k in view
  {
    Info(Tag(view[k], GOOS), Tag(view[k], GOARCH), Tag(view[k], SHA), k)
  }

  /** The objects that a plugin's manifest lists. */
  predicate Relevant(view: map<string, Tags>, plugin: string, name: string, k: string) {
    k in view && ArchivePrefix(plugin) <= k && Tag(view[k], NAME) == name && Tag(view[k], VERSION) != ""
  }

  predicate Lists(view: map<string, Tags>, plugin: string, name: string, v: string, k: string) {
    Relevant(view, plugin, name, k) && Tag(view[k], VERSION) == v
  }

  ghost predicate HasVersion(view: map<string, Tags>, plugin: string, name: string, v: string) {
    exists k :: Lists(view, plugin, name, v, k)
  }

  function PlatformKey(i: Info): string {
    i.goos + "-" + i.goarch
  }

  function ArtifactOf(host: string, i: Info): Artifact {
    Artifact("https://" + host + "/" + i.path, i.sha)
  }

  /// ## What a manifest must be

  /** The artifacts of a version: one for each object of that version, under its platform. */
  ghost predicate ArtifactsMatch(artifacts: map<string, Artifact>, view: map<string, Tags>, plugin: string, name: string, host: string, v: string) {
    && (forall k :: Lists(view, plugin, name, v, k) ==>
          var p := PlatformTag(view[k]);
          p in artifacts && artifacts[p] == Artifact("https://" + host + "/" + k, Tag(view[k], "redpanda/binary_sha256")))
    && (forall p :: p in artifacts ==> exists k :: Lists(view, plugin, name, v, k) && PlatformTag(view[k]) == p)
  }

  function PlatformTag(tags: Tags): string {
    Tag(tags, "redpanda/goos") + "-" + Tag(tags, "redpanda/goarch")
  }

  function VersionsOf(m: seq<Archive>): seq<string> {
    seq(|m|, i requires 0 <= i < |m| => m[i].version)
  }

  /** The last stable version of the manifest, if any, is its latest. */
  ghost predicate LatestRight(m: seq<Archive>, i: nat)
    requires i < |m|
  {
    m[i].isLatest <==> Stable(m[i].version) && forall j :: i < j < |m| ==> !Stable(m[j].version)
  }

  ghost predicate IsManifest(m: seq<Archive>, view: map<string, Tags>, plugin: string, name: string, host: string) {
    && (forall v :: v in VersionsOf(m) <==> HasVersion(view, plugin, name, v))
    && Ascending(VersionsOf(m))
    && (forall i :: 0 <= i < |m| ==> ArtifactsMatch(m[i].artifacts, view, plugin, name, host, m[i].version))
    && (forall i :: 0 <= i < |m| ==> LatestRight(m, i))
  }

  /** Stores that the publisher filled: each listed object lies where its tags say. */
  ghost predicate WellTagged(view: map<string, Tags>, plugin: string, name: string) {
    forall k :: Relevant(view, plugin, name, k) ==> WellPlaced(k, view[k], plugin, name)
  }

  predicate WellPlaced(k: string, tags: Tags, plugin: string, name: string) {
    var p := Platform(Tag(tags, GOOS), Tag(tags, GOARCH));
    '-' !in p.goos && '-' !in p.goarch && k == Key(Release(plugin, name, Tag(tags, VERSION)), p)
  }

  ghost predicate CanonicalVersions(view: map<string, Tags>, plugin: string, name: string) {
    forall v :: HasVersion(view, plugin, name, v) ==> Canonical(v)
  }

  /** A version has one object for each platform. */
  lemma {:induction false} OneForPlatform(view: map<string, Tags>, plugin: string, name: string, v: string, k: string, l: string)
    requires WellTagged(view, plugin, name) && Lists(view, plugin, name, v, k) && Lists(view, plugin, name, v, l)
    requires PlatformTag(view[k]) == PlatformTag(view[l])
    ensures k == l
  {
    assert WellPlaced(k, view[k], plugin, name) && WellPlaced(l, view[l], plugin, name);
    ShowInjective(Platform(Tag(view[k], GOOS), Tag(view[k], GOARCH)), Platform(Tag(view[l], GOOS), Tag(view[l], GOARCH)));
  }

  /** The manifest is determined by the tags in the store: the order of a listing or of a Go map has no say. */
  lemma {:induction false} OneManifest(m: seq<Archive>, n: seq<Archive>, view: map<string, Tags>, plugin: string, name: string, host: string)
    requires IsManifest(m, view, plugin, name, host) && IsManifest(n, view, plugin, name, host)
    requires CanonicalVersions(view, plugin, name)
    ensures m == n
  {
    hide Stable, Canonical, Lists, LessVersion;
    OneOrder(VersionsOf(m), VersionsOf(n));
    assert |m| == |VersionsOf(m)| == |VersionsOf(n)| == |n|;
    forall i | 0 <= i < |m| ensures m[i] == n[i] {
      assert VersionsOf(m)[i] == VersionsOf(n)[i];
      OneArtifacts(m[i].artifacts, n[i].artifacts, view, plugin, name, host, m[i].version);
      assert LatestRight(m, i) && LatestRight(n, i);
      assert forall j :: 0 <= j < |m| ==> VersionsOf(m)[j] == m[j].version && VersionsOf(n)[j] == n[j].version;
    }
  }

  lemma {:induction false} OneArtifacts(a: map<string, Artifact>, b: map<string, Artifact>, view: map<string, Tags>, plugin: string, name: string, host: string, v: string)
    requires ArtifactsMatch(a, view, plugin, name, host, v) && ArtifactsMatch(b, view, plugin, name, host, v)
    ensures a == b
  {
    forall p ensures p in a <==> p in b {
    }
    forall p | p in a ensures a[p] == b[p] {
      var k :| Lists(view, plugin, name, v, k) && PlatformTag(view[k]) == p;
    }
  }

  /** At most one archive is the latest; it is stable, and no stable version comes after it. */
  lemma {:induction false} OneLatest(m: seq<Archive>, view: map<string, Tags>, plugin: string, name: string, host: string, i: nat, j: nat)
    requires IsManifest(m, view, plugin, name, host) && i < |m| && j < |m| && m[i].isLatest && m[j].isLatest
    ensures i == j && Stable(m[i].version)
  {
    assert LatestRight(m, i) && LatestRight(m, j);
  }

  /// ## Grouping by version

  /** What the first loop has collected once the keys in `seen` were read. */
  ghost predicate Grouped(groups: map<string, seq<Info>>, view: map<string, Tags>, plugin: string, name: string, seen: seq<string>) {
    && (forall v :: v in groups ==> groups[v] != [] && forall i :: i in groups[v] ==>
          i.path in seen && Lists(view, plugin, name, v, i.path) && i == InfoOf(view, i.path))
    && (forall k :: k in seen && Relevant(view, plugin, name, k) ==>
          Tag(view[k], VERSION) in groups && InfoOf(view, k) in groups[Tag(view[k], VERSION)])
  }

  function With(groups: map<string, seq<Info>>, v: string, i: Info): map<string, seq<Info>> {
    groups[v := (if v in groups then groups[v] else []) + [i]]
  }

  lemma {:induction false} GroupedStep(groups: map<string, seq<Info>>, view: map<string, Tags>, plugin: string, name: string, seen: seq<string>, k: string)
    requires Grouped(groups, view, plugin, name, seen)
    ensures Relevant(view, plugin, name, k) ==>
              Grouped(With(groups, Tag(view[k], VERSION), InfoOf(view, k)), view, plugin, name, seen + [k])
    ensures !Relevant(view, plugin, name, k) ==> Grouped(groups, view, plugin, name, seen + [k])
  {
    if Relevant(view, plugin, name, k) {
      var v, i := Tag(view[k], VERSION), InfoOf(view, k);
      var groups' := With(groups, v, i);
      forall w | w in groups'
        ensures groups'[w] != [] && forall j: Info :: j in groups'[w] ==>
                  j.path in seen + [k] && Lists(view, plugin, name, w, j.path) && j == InfoOf(view, j.path)
      {
        if w == v {
          assert forall j :: j in groups'[v] <==> j == i || (v in groups && j in groups[v]);
        }
      }
      forall l | l in seen + [k] && Relevant(view, plugin, name, l)
        ensures Tag(view[l], VERSION) in groups' && InfoOf(view, l) in groups'[Tag(view[l], VERSION)]
      {
        if l != k { assert l in seen; }
      }
    }
  }

  method Group(store: Store, keys: seq<string>, plugin: string, name: string) returns (r: Result<map<string, seq<Info>>, ()>)
    requires forall k :: k in keys ==> ArchivePrefix(plugin) <= k
    modifies store`faults
    ensures old(store.Reliable()) ==> r.Success? && store.Reliable()
    ensures r.Success? ==> Grouped(r.value, store.View(), plugin, name, keys)
  {
    var groups: map<string, seq<Info>> := map[];
    for i := 0 to |keys|
      invariant old(store.Reliable()) ==> store.Reliable()
      invariant Grouped(groups, store.View(), plugin, name, keys[..i])
    {
      assert keys[..i + 1] == keys[..i] + [keys[i]];
      var k := keys[i];
      assert k in keys;
      var head := store.Head(k);
      if head.Failure? { return Failure(()); }
      GroupedStep(groups, store.View(), plugin, name, keys[..i], k);
      if head.value.Some? {
        var tags := head.value.value;
        if Tag(tags, NAME) == name && Tag(tags, VERSION) != "" {
          groups := With(groups, Tag(tags, VERSION), Info(Tag(tags, GOOS), Tag(tags, GOARCH), Tag(tags, SHA), k));
        }
      }
    }
    assert keys[..|keys|] == keys;
    r := Success(groups);
  }

  lemma {:induction false} GroupedAll(groups: map<string, seq<Info>>, view: map<string, Tags>, plugin: string, name: string, keys: seq<string>)
    requires Grouped(groups, view, plugin, name, keys)
    requires forall k :: k in keys <==> k in view && ArchivePrefix(plugin) <= k
    ensures forall v :: v in groups <==> HasVersion(view, plugin, name, v)
  {
    forall v | v in groups ensures HasVersion(view, plugin, name, v) {
      assert Lists(view, plugin, name, v, groups[v][0].path);
    }
    forall v | HasVersion(view, plugin, name, v) ensures v in groups {
      var k :| Lists(view, plugin, name, v, k);
    }
  }

  /// ## Building

  /** The keys of the map, in Go's arbitrary order. */
  method Keys(groups: map<string, seq<Info>>) returns (versions: seq<string>)
    ensures forall v :: v in versions <==> v in groups
    ensures forall i, j :: 0 <= i < j < |versions| ==> versions[i] != versions[j]
  {
    versions := [];
    var left := groups.Keys;
    while left != {}
      invariant left <= groups.Keys
      invariant forall v :: v in versions <==> v in groups.Keys - left
      invariant forall i, j :: 0 <= i < j < |versions| ==> versions[i] != versions[j]
      decreases |left|
    {
      var v :| v in left;
      assert v !in versions;
      left := left - {v};
      versions := versions + [v];
    }
  }

  /** Every artifact comes from one of the infos, and every info's platform has one. */
  ghost predicate FromInfos(artifacts: map<string, Artifact>, infos: seq<Info>, host: string) {
    && (forall p :: p in artifacts ==> exists i :: i in infos && PlatformKey(i) == p && artifacts[p] == ArtifactOf(host, i))
    && (forall i :: i in infos ==> PlatformKey(i) in artifacts)
  }

  method Artifacts(infos: seq<Info>, host: string) returns (artifacts: map<string, Artifact>)
    ensures FromInfos(artifacts, infos, host)
  {
    artifacts := map[];
    for n := 0 to |infos|
      invariant forall p :: p in artifacts ==> exists i :: i in infos && PlatformKey(i) == p && artifacts[p] == ArtifactOf(host, i)
      invariant forall i :: i in infos[..n] ==> PlatformKey(i) in artifacts
    {
      assert infos[..n + 1] == infos[..n] + [infos[n]];
      artifacts := artifacts[PlatformKey(infos[n]) := ArtifactOf(host, infos[n])];
    }
    assert infos[..|infos|] == infos;
  }

  lemma {:induction false} ArtifactsRight(artifacts: map<string, Artifact>, groups: map<string, seq<Info>>, view: map<string, Tags>,
                       plugin: string, name: string, host: string, keys: seq<string>, v: string)
    requires Grouped(groups, view, plugin, name, keys) && v in groups && WellTagged(view, plugin, name)
    requires forall k :: k in keys <==> k in view && ArchivePrefix(plugin) <= k
    requires FromInfos(artifacts, groups[v], host)
    ensures ArtifactsMatch(artifacts, view, plugin, name, host, v)
  {
    forall k | Lists(view, plugin, name, v, k)
      ensures var p := PlatformTag(view[k]);
              p in artifacts && artifacts[p] == Artifact("https://" + host + "/" + k, Tag(view[k], "redpanda/binary_sha256"))
    {
      var p := PlatformKey(InfoOf(view, k));
      assert InfoOf(view, k) in groups[v];
      var i :| i in groups[v] && PlatformKey(i) == p && artifacts[p] == ArtifactOf(host, i);
      OneForPlatform(view, plugin, name, v, k, i.path);
    }
    forall p | p in artifacts ensures exists k :: Lists(view, plugin, name, v, k) && PlatformTag(view[k]) == p {
      var i :| i in groups[v] && PlatformKey(i) == p && artifacts[p] == ArtifactOf(host, i);
      assert Lists(view, plugin, name, v, i.path);
    }
  }

  /** The loop that writes the archives out, one for each version. */
  method Assemble(groups: map<string, seq<Info>>, versions: seq<string>, best: string, host: string) returns (m: seq<Archive>)
    requires forall v :: v in versions ==> v in groups
    ensures VersionsOf(m) == versions
    ensures forall i :: 0 <= i < |m| ==> m[i].isLatest == (m[i].version == best && best != "")
    ensures forall i :: 0 <= i < |m| ==> m[i].version in groups && FromInfos(m[i].artifacts, groups[m[i].version], host)
  {
    m := [];
    for i := 0 to |versions|
      invariant |m| == i && forall j :: 0 <= j < i ==> m[j].version == versions[j]
      invariant forall j :: 0 <= j < i ==> m[j].isLatest == (m[j].version == best && best != "")
      invariant forall j :: 0 <= j < i ==> m[j].version in groups && FromInfos(m[j].artifacts, groups[m[j].version], host)
    {
      var v := versions[i];
      assert v in versions;
      var artifacts := Artifacts(groups[v], host);
      m := m + [Archive(v, v == best && best != "", artifacts)];
    }
  }

  /** buildManifest, with a store that may fail at any request. */
  method BuildManifest(store: Store, plugin: string, name: string, host: string) returns (r: Result<seq<Archive>, ()>)
    modifies store`faults
    ensures old(store.Reliable()) ==> r.Success? && store.Reliable()
    ensures r.Success? && WellTagged(store.View(), plugin, name) && CanonicalVersions(store.View(), plugin, name) ==>
              IsManifest(r.value, store.View(), plugin, name, host)
  {
    hide Canonical, Stable, LessVersion, Relevant, Lists, InfoOf, PlatformKey, PlatformTag, ArtifactOf, Parse, Grouped, Greatest, FromInfos;
    var listed := store.List(ArchivePrefix(plugin));
    if listed.Failure? { return Failure(()); }
    var grouped := Group(store, listed.value, plugin, name);
    if grouped.Failure? { return Failure(()); }
    var groups := grouped.value;
    GroupedAll(groups, store.View(), plugin, name, listed.value);
    var best := MaxStable(groups.Keys);
    var unsorted := Keys(groups);
    var versions := Sort(unsorted);
    assert forall v :: v in versions <==> v in multiset(versions);
    assert forall v :: v in unsorted <==> v in multiset(unsorted);
    var m := Assemble(groups, versions, best, host);
    if WellTagged(store.View(), plugin, name) && CanonicalVersions(store.View(), plugin, name) {
      assert AllCanonical(unsorted);
      ManifestRight(m, groups, store.View(), plugin, name, host, listed.value, best);
    }
    r := Success(m);
  }

  lemma {:induction false} ManifestRight(m: seq<Archive>, groups: map<string, seq<Info>>, view: map<string, Tags>,
                      plugin: string, name: string, host: string, keys: seq<string>, best: string)
    requires WellTagged(view, plugin, name) && CanonicalVersions(view, plugin, name)
    requires Grouped(groups, view, plugin, name, keys) && Greatest(best, groups.Keys)
    requires forall k :: k in keys <==> k in view && ArchivePrefix(plugin) <= k
    requires Ascending(VersionsOf(m)) && forall v :: v in VersionsOf(m) <==> v in groups
    requires forall v :: v in groups <==> HasVersion(view, plugin, name, v)
    requires forall i :: 0 <= i < |m| ==> m[i].isLatest == (m[i].version == best && best != "")
    requires forall i :: 0 <= i < |m| ==> m[i].version in groups && FromInfos(m[i].artifacts, groups[m[i].version], host)
    ensures IsManifest(m, view, plugin, name, host)
  {
    hide Canonical, Stable, LessVersion, Relevant, Lists, InfoOf, Grouped, Greatest, FromInfos, WellTagged;
    forall i | 0 <= i < |m| ensures ArtifactsMatch(m[i].artifacts, view, plugin, name, host, m[i].version) {
      ArtifactsRight(m[i].artifacts, groups, view, plugin, name, host, keys, m[i].version);
    }
    LatestIsLast(m, best, groups.Keys);
  }

  lemma {:induction false} LatestIsLast(m: seq<Archive>, best: string, vs: set<string>)
    requires Greatest(best, vs) && Ascending(VersionsOf(m)) && forall v :: v in VersionsOf(m) <==> v in vs
    requires forall v :: v in vs ==> Canonical(v)
    requires forall i :: 0 <= i < |m| ==> m[i].isLatest == (m[i].version == best && best != "")
    ensures forall i :: 0 <= i < |m| ==> LatestRight(m, i)
  {
    hide Stable, LessVersion, Greatest, Parse;
    var versions := VersionsOf(m);
    forall i | 0 <= i < |m| ensures LatestRight(m, i) {
      var v := m[i].version;
      assert versions[i] == v;
      GreatestIsLast(best, vs, v);
      if m[i].isLatest {
        forall j | i < j < |m| ensures !Stable(m[j].version) { assert versions[j] == m[j].version; }
      } else if Stable(v) {
        var w :| w in vs && Stable(w) && LessVersion(v, w);
        assert w in versions;
        var j :| 0 <= j < |versions| && versions[j] == w;
        NotBefore(versions, i, j);
        assert m[j].version == w;
      }
    }
  }

  lemma {:induction false} NotBefore(vs: seq<string>, i: nat, j: nat)
    requires i < |vs| && j < |vs| && Ascending(vs) && AllCanonical(vs) && LessVersion(vs[i], vs[j])
    ensures i < j
  {
    hide LessVersion;
    LessIrreflexive(vs[i]);
    if j < i {
      assert LessVersion(vs[j], vs[i]);
      LessAsymmetric(vs[i], vs[j]);
    }
  }
}
