/** A whole run of the publisher, runs one after the other, and the dry run. */
module PublishRun {
  import opened Wrappers
  import opened ObjectStore
  import opened Publisher
  import opened Manifests
  import V = Versions

  /** The arguments of a run; `version` has its leading `v` already stripped. */
  datatype Request = Request(files: seq<File>, plugin: string, version: string, host: string, platforms: seq<string>)

  function NameOf(plugin: string): string {
    "redpanda-" + plugin
  }

  function ReleaseOf(q: Request): Release {
    Release(q.plugin, NameOf(q.plugin), q.version)
  }

  function ManifestKey(plugin: string): string {
    plugin + "/manifest.json"
  }

  /// ## What runs keep

  /** Archives lie where their tags say and were tagged with the digest of the bytes they hold. */
  predicate Honest(k: string, o: Object) {
    o.body.TarGz? ==> Tag(o.tags, SHA) == Sha256Hex(o.body.raw)
  }

  ghost predicate AllHonest(objects: map<string, Object>) {
    forall k :: k in objects ==> Honest(k, objects[k])
  }

  /** The manifest object of that key holds these archives. */
  predicate Holds(objects: map<string, Object>, key: string, m: seq<Archive>) {
    key in objects && objects[key] == Object(Manifest(m), map[])
  }

  /** What was stored is still there, but for what is under the named keys. */
  ghost predicate OthersKept(before: map<string, Object>, after: map<string, Object>, keys: set<string>) {
    forall k :: k in before && k !in keys ==> k in after && after[k] == before[k]
  }

  /** Every plugin's objects are well placed. */
  ghost predicate Filed(view: map<string, Tags>) {
    forall plugin :: WellTagged(view, plugin, NameOf(plugin))
  }

  predicate ArchiveKey(k: string) {
    HasSuffix(k, ".tar.gz")
  }

  lemma {:induction false} KeysApart(plugin: string, r: Release, p: Platform)
    ensures ArchiveKey(Key(r, p)) && !ArchiveKey(ManifestKey(plugin))
  {
    var k := ManifestKey(plugin);
    assert k[|k| - 1] == 'n';
    assert k[|k| - |".tar.gz"|..][|".tar.gz"| - 1] == 'n';
  }

  lemma {:induction false} NamesApart(p: string, q: string)
    requires NameOf(p) == NameOf(q)
    ensures p == q
  {
    assert p == NameOf(p)[|"redpanda-"|..] && q == NameOf(q)[|"redpanda-"|..];
  }

  lemma {:induction false} UploadKeepsFiled(view: map<string, Tags>, after: map<string, Tags>, q: Request, bins: seq<File>)
    requires Filed(view) && Extends(view, after, ReleaseOf(q), bins)
    ensures Filed(after)
  {
    forall plugin ensures WellTagged(after, plugin, NameOf(plugin)) {
      forall k | Relevant(after, plugin, NameOf(plugin), k) ensures WellPlaced(k, after[k], plugin, NameOf(plugin)) {
        if k in view {
          assert WellTagged(view, plugin, NameOf(plugin));
          assert Relevant(view, plugin, NameOf(plugin), k);
        } else {
          assert Added(k, after[k], ReleaseOf(q), bins);
          var f :| f in bins && k == KeyOf(ReleaseOf(q), f) && after[k] == TagsFor(ReleaseOf(q), f);
          AddedPlaced(k, q, f, plugin);
        }
      }
    }
  }

  lemma {:induction false} AddedPlaced(k: string, q: Request, f: File, plugin: string)
    requires k == KeyOf(ReleaseOf(q), f) && Tag(TagsFor(ReleaseOf(q), f), NAME) == NameOf(plugin)
    ensures WellPlaced(k, TagsFor(ReleaseOf(q), f), plugin, NameOf(plugin))
  {
    NamesApart(q.plugin, plugin);
    ParsedGood(f);
    var tags := TagsFor(ReleaseOf(q), f);
    assert Platform(Tag(tags, GOOS), Tag(tags, GOARCH)) == PlatformOf(f);
  }

  lemma {:induction false} UntaggedKeepsFiled(view: map<string, Tags>, key: string)
    requires Filed(view)
    ensures Filed(view[key := map[]])
  {
    var view' := view[key := map[]];
    forall plugin ensures WellTagged(view', plugin, NameOf(plugin)) {
      assert WellTagged(view, plugin, NameOf(plugin));
      forall k | Relevant(view', plugin, NameOf(plugin), k) ensures WellPlaced(k, view'[k], plugin, NameOf(plugin))
      {
        assert Relevant(view, plugin, NameOf(plugin), k);
      }
    }
  }

  /** Plugin and version have no slash of their own, so keys show where one ends. */
  predicate Plain(q: Request) {
    '/' !in q.plugin && '/' !in q.version
  }

  /** What lies among a plugin's archives is tagged as one, with a version without a slash. */
  ghost predicate Tidy(view: map<string, Tags>) {
    forall plugin, k :: '/' !in plugin && k in view && plugin + "/archives/" <= k ==> Listed(view[k], plugin)
  }

  predicate Listed(tags: Tags, plugin: string) {
    Tag(tags, NAME) == NameOf(plugin) && Tag(tags, VERSION) != "" && '/' !in Tag(tags, VERSION)
  }

  lemma {:induction false} UploadKeepsTidy(view: map<string, Tags>, after: map<string, Tags>, q: Request, bins: seq<File>)
    requires Tidy(view) && Plain(q) && q.version != "" && Extends(view, after, ReleaseOf(q), bins)
    ensures Tidy(after)
  {
    hide KeyOf, TagsFor, Listed, Plain;
    forall plugin, k | '/' !in plugin && k in after && plugin + "/archives/" <= k ensures Listed(after[k], plugin) {
      if k !in view {
        assert Added(k, after[k], ReleaseOf(q), bins);
        var f :| f in bins && k == KeyOf(ReleaseOf(q), f) && after[k] == TagsFor(ReleaseOf(q), f);
        AddedListed(k, q, f, plugin);
      }
    }
  }

  lemma {:induction false} AddedListed(k: string, q: Request, f: File, plugin: string)
    requires Plain(q) && q.version != "" && '/' !in plugin && plugin + "/archives/" <= k && k == KeyOf(ReleaseOf(q), f)
    ensures Listed(TagsFor(ReleaseOf(q), f), plugin)
  {
    var rest := "/archives/" + (q.version + "/" + (NameOf(q.plugin) + "-" + Show(PlatformOf(f)) + ".tar.gz"));
    assert k == q.plugin + rest;
    UnderOne(plugin, q.plugin, rest, k);
  }

  lemma {:induction false} ManifestKeepsTidy(view: map<string, Tags>, plugin: string)
    requires Tidy(view) && '/' !in plugin
    ensures Tidy(view[ManifestKey(plugin) := map[]])
  {
    var key := ManifestKey(plugin);
    var after := view[key := map[]];
    forall other, k | '/' !in other && k in after && other + "/archives/" <= k ensures Listed(after[k], other) {
      if k == key { NoArchive(other, plugin); }
    }
  }

  lemma {:induction false} NoArchive(other: string, plugin: string)
    requires '/' !in other && '/' !in plugin
    ensures !(other + "/archives/" <= ManifestKey(plugin))
  {
    var key := ManifestKey(plugin);
    assert key[|plugin| + 1] == 'm' && (plugin + "/archives/")[|plugin| + 1] == 'a';
    if other + "/archives/" <= key { UnderOne(other, plugin, "/manifest.json", key); }
  }

  /** A key starts with one plugin only. */
  lemma {:induction false} UnderOne(a: string, b: string, rest: string, k: string)
    requires '/' !in a && '/' !in b && rest != "" && rest[0] == '/'
    requires a + "/archives/" <= k && k == b + rest
    ensures a == b
  {
    var after := k[|a + "/archives/"|..];
    assert k == a + "/" + ("archives/" + after) by { assert k == (a + "/archives/") + after; }
    assert k == b + "/" + rest[1..];
    FirstCut(a, "archives/" + after, b, rest[1..], '/');
  }

  lemma {:induction false} UploadKeepsHonest(before: map<string, Object>, after: map<string, Object>, r: Release, bins: seq<File>)
    requires AllHonest(before) && OnlyAdds(before, after, r, bins)
    ensures AllHonest(after)
  {
    forall k | k in after ensures Honest(k, after[k]) {
      if k !in before { assert AddedObject(k, after[k], r, bins); }
    }
  }

  /** Archives once stored are still there, with their bytes and tags. */
  ghost predicate ArchivesKept(before: map<string, Object>, after: map<string, Object>) {
    forall k :: k in before && ArchiveKey(k) ==> k in after && after[k] == before[k]
  }

  ghost predicate Complete(q: Request) {
    && FirstUnnamed(Binaries(q.files)).None?
    && forall p :: p in q.platforms ==> Have(Binaries(q.files), p)
  }

  /** Platform `p` of the release is published, from the bytes of one of the local binaries. */
  ghost predicate PublishedFor(objects: map<string, Object>, q: Request, p: string) {
    exists f :: f in q.files && IsBinary(f) && Show(PlatformOf(f)) == p
             && KeyOf(ReleaseOf(q), f) in objects && Tag(objects[KeyOf(ReleaseOf(q), f)].tags, SHA) == Sha256Hex(f.raw)
  }

  /// ## A run

  lemma {:induction false} AfterUpload(before: map<string, Tags>, view: map<string, Tags>, stored: map<string, Object>, objects: map<string, Object>,
                    dry: bool, q: Request)
    requires Extends(before, view, ReleaseOf(q), Binaries(q.files))
    requires if dry then objects == stored else OnlyAdds(stored, objects, ReleaseOf(q), Binaries(q.files))
    ensures Filed(before) ==> Filed(view)
    ensures AllHonest(stored) ==> AllHonest(objects)
    ensures ArchivesKept(stored, objects) && OthersKept(stored, objects, {})
    ensures forall k :: k in objects && k !in stored ==> AddedObject(k, objects[k], ReleaseOf(q), Binaries(q.files))
    ensures Plain(q) && q.version != "" && Tidy(before) ==> Tidy(view)
  {
    if Plain(q) && q.version != "" && Tidy(before) { UploadKeepsTidy(before, view, q, Binaries(q.files)); }
    if Filed(before) { UploadKeepsFiled(before, view, q, Binaries(q.files)); }
    if AllHonest(stored) && !dry { UploadKeepsHonest(stored, objects, ReleaseOf(q), Binaries(q.files)); }
  }

  /** With every expected platform there and every binary published, every expected platform is published. */
  lemma {:induction false} PlatformsPublished(objects: map<string, Object>, q: Request)
    requires Complete(q) && forall f :: f in Binaries(q.files) ==> Published(TagsOf(objects), ReleaseOf(q), f)
    ensures forall p :: p in q.platforms ==> PublishedFor(objects, q, p)
  {
    forall p | p in q.platforms ensures PublishedFor(objects, q, p) {
      var bins := Binaries(q.files);
      var i :| 0 <= i < |bins| && Show(PlatformOf(bins[i])) == p;
      assert bins[i] in bins && Published(TagsOf(objects), ReleaseOf(q), bins[i]);
    }
  }

  lemma {:induction false} PublishedStill(before: map<string, Object>, after: map<string, Object>, q: Request)
    requires ArchivesKept(before, after) && forall p :: p in q.platforms ==> PublishedFor(before, q, p)
    ensures forall p :: p in q.platforms ==> PublishedFor(after, q, p)
  {
    forall p | p in q.platforms ensures PublishedFor(after, q, p) {
      assert PublishedFor(before, q, p);
      var f :| f in q.files && IsBinary(f) && Show(PlatformOf(f)) == p
               && KeyOf(ReleaseOf(q), f) in before && Tag(before[KeyOf(ReleaseOf(q), f)].tags, SHA) == Sha256Hex(f.raw);
      KeysApart(q.plugin, ReleaseOf(q), PlatformOf(f));
      assert KeyOf(ReleaseOf(q), f) in after;
    }
  }

  ghost predicate Listable(view: map<string, Tags>, plugin: string) {
    WellTagged(view, plugin, NameOf(plugin)) && CanonicalVersions(view, plugin, NameOf(plugin))
  }

  /** The outcome of a run without store errors, and the tags it leaves. */
  ghost predicate Follows(view: map<string, Tags>, q: Request, r: Result<seq<Archive>, Error>, end: map<string, Tags>) {
    if q.version == "" then r == Failure(NoVersion) && end == view
    else if q.platforms == [] then r == Failure(NoPlatforms) && end == view
    else
      match UploadSpec(view, ReleaseOf(q), q.files, q.platforms)
      case Failure(e) => r == Failure(e)
      case Success(after) =>
        && r.Success? && end == after[ManifestKey(q.plugin) := map[]]
        && (Listable(after, q.plugin) ==> IsManifest(r.value, after, q.plugin, NameOf(q.plugin), q.host))
  }

  /** `run`, with a store that may fail at any request. */
  method Run(store: Store, q: Request) returns (r: Result<seq<Archive>, Error>)
    modifies store
    ensures ArchivesKept(old(store.objects), store.objects)
    ensures Filed(old(store.View())) ==> Filed(store.View())
    ensures AllHonest(old(store.objects)) ==> AllHonest(store.objects)
    ensures store.dry ==> store.objects == old(store.objects)
    ensures !Complete(q) ==> r.Failure? && store.objects == old(store.objects)
    ensures r.Success? && !store.dry ==> forall p :: p in q.platforms ==> PublishedFor(store.objects, q, p)
    ensures r.Success? && !store.dry ==> Holds(store.objects, q.plugin + "/manifest.json", r.value)
    ensures OthersKept(old(store.objects), store.objects, {q.plugin + "/manifest.json"})
    ensures forall k :: k in store.objects && k !in old(store.objects) && k != q.plugin + "/manifest.json" ==>
              AddedObject(k, store.objects[k], ReleaseOf(q), Binaries(q.files))
    ensures Plain(q) && Tidy(old(store.View())) ==> Tidy(store.View())
    ensures old(store.Reliable()) ==> store.Reliable() && Follows(old(store.View()), q, r, store.View())
  {
    hide KeyOf, TagsFor, Sha256Hex, PublishedFor, IsManifest, WellTagged, CanonicalVersions, UploadSpec, Binaries, Honest, Have, FirstUnnamed, AddedObject, Tidy, Plain;
    if q.version == "" { return Failure(NoVersion); }
    if q.platforms == [] { return Failure(NoPlatforms); }
    MissingNone(Binaries(q.files), q.platforms);
    ghost var before, stored := store.View(), store.objects;
    var uploaded := Upload(store, q.files, ReleaseOf(q), q.platforms);
    ghost var view, objects := store.View(), store.objects;
    AfterUpload(before, view, stored, objects, store.dry, q);
    if uploaded.Failure? { return Failure(uploaded.error); }
    var built := BuildManifest(store, q.plugin, NameOf(q.plugin), q.host);
    if built.Failure? { return Failure(StoreFailed); }
    var ok := store.Put(ManifestKey(q.plugin), Manifest(built.value), map[]);
    AfterManifest(view, objects, store.objects, q, built.value);
    if !ok { return Failure(StoreFailed); }
    if !store.dry {
      PlatformsPublished(objects, q);
      PublishedStill(objects, store.objects, q);
    }
    r := Success(built.value);
  }

  lemma {:induction false} AfterManifest(view: map<string, Tags>, before: map<string, Object>, after: map<string, Object>, q: Request, m: seq<Archive>)
    requires after == before || after == before[ManifestKey(q.plugin) := Object(Manifest(m), map[])]
    ensures Filed(view) ==> Filed(view[ManifestKey(q.plugin) := map[]])
    ensures AllHonest(before) ==> AllHonest(after)
    ensures ArchivesKept(before, after)
    ensures Plain(q) && Tidy(view) ==> Tidy(view[ManifestKey(q.plugin) := map[]])
  {
    if Plain(q) && Tidy(view) { ManifestKeepsTidy(view, q.plugin); }
    if Filed(view) { UntaggedKeepsFiled(view, ManifestKey(q.plugin)); }
    KeysApart(q.plugin, ReleaseOf(q), Platform("", ""));
  }

  /// ## Runs one after the other

  /** Whatever is published, by whatever runs and with whatever store errors between, archives stay as they were. */
  method RunAll(store: Store, qs: seq<Request>) returns (results: seq<Result<seq<Archive>, Error>>)
    modifies store
    ensures ArchivesKept(old(store.objects), store.objects)
    ensures Filed(old(store.View())) ==> Filed(store.View())
    ensures AllHonest(old(store.objects)) ==> AllHonest(store.objects)
    ensures |results| == |qs|
    ensures !store.dry ==> forall i :: 0 <= i < |qs| && results[i].Success? ==>
              forall p :: p in qs[i].platforms ==> PublishedFor(store.objects, qs[i], p)
    ensures !store.dry ==> forall i :: LastOf(qs, results, i) ==> Holds(store.objects, qs[i].plugin + "/manifest.json", results[i].value)
    ensures OthersKept(old(store.objects), store.objects, set q | q in qs :: q.plugin + "/manifest.json")
    ensures (forall q :: q in qs ==> Plain(q)) && Tidy(old(store.View())) ==> Tidy(store.View())
  {
    hide Filed, AllHonest, PublishedFor, Complete, Follows, Tidy, Plain, AddedObject;
    results := [];
    for i := 0 to |qs|
      invariant |results| == i
      invariant ArchivesKept(old(store.objects), store.objects)
      invariant Filed(old(store.View())) ==> Filed(store.View())
      invariant AllHonest(old(store.objects)) ==> AllHonest(store.objects)
      invariant !store.dry ==> forall j :: 0 <= j < i && results[j].Success? ==>
                  forall p :: p in qs[j].platforms ==> PublishedFor(store.objects, qs[j], p)
      invariant !store.dry ==> forall j :: LastOf(qs[..i], results, j) ==>
                  Holds(store.objects, qs[j].plugin + "/manifest.json", results[j].value)
      invariant OthersKept(old(store.objects), store.objects, set q | q in qs :: q.plugin + "/manifest.json")
      invariant (forall q :: q in qs ==> Plain(q)) && Tidy(old(store.View())) ==> Tidy(store.View())
    {
      ghost var before := store.objects;
      var r := Run(store, qs[i]);
      assert qs[i] in qs;
      KeptMore(qs, i, old(store.objects), before, store.objects);
      if !store.dry {
        LastMore(qs, i, results, r, before, store.objects);
        forall j | 0 <= j < i && results[j].Success?
          ensures forall p :: p in qs[j].platforms ==> PublishedFor(store.objects, qs[j], p)
        {
          PublishedStill(before, store.objects, qs[j]);
        }
      }
      results := results + [r];
    }
    assert qs[..|qs|] == qs;
  }

  /** The last successful run of its plugin, with no later run of it. */
  ghost predicate LastOf(qs: seq<Request>, results: seq<Result<seq<Archive>, Error>>, i: int) {
    && 0 <= i < |qs| <= |results| && results[i].Success?
    && forall j :: i < j < |qs| ==> qs[j].plugin != qs[i].plugin
  }

  lemma {:induction false} KeptMore(qs: seq<Request>, i: nat, start: map<string, Object>, before: map<string, Object>, after: map<string, Object>)
    requires i < |qs| && OthersKept(before, after, {qs[i].plugin + "/manifest.json"})
    requires OthersKept(start, before, set q | q in qs :: q.plugin + "/manifest.json")
    ensures OthersKept(start, after, set q | q in qs :: q.plugin + "/manifest.json")
  {
    var keys := set q | q in qs :: q.plugin + "/manifest.json";
    assert qs[i] in qs && qs[i].plugin + "/manifest.json" in keys;
  }

  lemma {:induction false} LastMore(qs: seq<Request>, i: nat, results: seq<Result<seq<Archive>, Error>>, r: Result<seq<Archive>, Error>,
                   before: map<string, Object>, after: map<string, Object>)
    requires i < |qs| && |results| == i && OthersKept(before, after, {qs[i].plugin + "/manifest.json"})
    requires r.Success? ==> Holds(after, qs[i].plugin + "/manifest.json", r.value)
    requires forall j :: LastOf(qs[..i], results, j) ==> Holds(before, qs[j].plugin + "/manifest.json", results[j].value)
    ensures forall j :: LastOf(qs[..i + 1], results + [r], j) ==>
              Holds(after, qs[j].plugin + "/manifest.json", (results + [r])[j].value)
  {
    forall j | LastOf(qs[..i + 1], results + [r], j)
      ensures Holds(after, qs[j].plugin + "/manifest.json", (results + [r])[j].value)
    {
      if j < i {
        assert qs[..i + 1][i] == qs[i];
        forall l | j < l < i ensures qs[l].plugin != qs[j].plugin { assert qs[..i + 1][l] == qs[l]; }
        assert LastOf(qs[..i], results, j);
        if qs[j].plugin + "/manifest.json" == qs[i].plugin + "/manifest.json" { ManifestKeysApart(qs[j].plugin, qs[i].plugin); }
      }
    }
  }

  lemma {:induction false} ManifestKeysApart(a: string, b: string)
    requires a + "/manifest.json" == b + "/manifest.json"
    ensures a == b
  {
    assert a == (a + "/manifest.json")[..|a|] && b == (b + "/manifest.json")[..|b|];
  }

  /// ## The dry run

  lemma {:induction false} AddedCanonical(view: map<string, Tags>, q: Request)
    requires Filed(view) && CanonicalVersions(view, q.plugin, NameOf(q.plugin)) && V.Canonical(q.version)
    requires UploadFrom(view, ReleaseOf(q), Binaries(q.files)).Success?
    ensures Listable(UploadFrom(view, ReleaseOf(q), Binaries(q.files)).value, q.plugin)
  {
    hide V.Canonical;
    var bins := Binaries(q.files);
    UploadIff(view, ReleaseOf(q), bins);
    var after := UploadFrom(view, ReleaseOf(q), bins).value;
    UploadKeepsFiled(view, after, q, bins);
    var name := NameOf(q.plugin);
    forall v | HasVersion(after, q.plugin, name, v) ensures V.Canonical(v) {
      var k :| Lists(after, q.plugin, name, v, k);
      if k in view {
        assert Lists(view, q.plugin, name, v, k);
      } else {
        assert Added(k, after[k], ReleaseOf(q), bins);
      }
    }
  }

  /// ## A new version

  /** Nothing of this version is published: no object among the plugin's archives has it in its tags. */
  ghost predicate NewVersion(view: map<string, Tags>, q: Request) {
    forall k :: k in view && q.plugin + "/archives/" <= k ==> Tag(view[k], "redpanda/version") != q.version
  }

  /** No two local binaries of one platform differ. */
  ghost predicate BinariesAgree(q: Request) {
    forall f, g :: f in Binaries(q.files) && g in Binaries(q.files) && PlatformOf(f) == PlatformOf(g) ==> f.raw == g.raw
  }

  /** A version that the publisher has not published anything of is accepted, whatever versions it has published
      before, exactly when all platforms are there and the binaries agree with each other. */
  lemma {:induction false} NewVersionAccepted(view: map<string, Tags>, q: Request, r: Result<seq<Archive>, Error>, end: map<string, Tags>)
    requires Filed(view) && Tidy(view) && Plain(q) && q.version != "" && q.platforms != []
    requires NewVersion(view, q) && Follows(view, q, r, end)
    ensures r.Success? <==> Complete(q) && BinariesAgree(q)
  {
    var bins := Binaries(q.files);
    hide Filed, Tidy, Plain, Binaries, KeyOf, Sha256Hex, PlatformOf, IsManifest, Listable;
    MissingNone(bins, q.platforms);
    UploadIff(view, ReleaseOf(q), bins);
    forall f | f in bins ensures Agrees(view, ReleaseOf(q), f) {
      NewKey(view, q, f);
    }
    forall f, g | f in bins && g in bins ensures KeyOf(ReleaseOf(q), f) == KeyOf(ReleaseOf(q), g) <==> PlatformOf(f) == PlatformOf(g) {
      KeyByPlatform(ReleaseOf(q), f, g);
    }
  }

  lemma {:induction false} KeyByPlatform(r: Release, f: File, g: File)
    ensures KeyOf(r, f) == KeyOf(r, g) <==> PlatformOf(f) == PlatformOf(g)
  {
    if KeyOf(r, f) == KeyOf(r, g) { SameKey(r, f, g); }
  }

  /** None of its archives is there yet. */
  lemma {:induction false} NewKey(view: map<string, Tags>, q: Request, f: File)
    requires Filed(view) && Tidy(view) && Plain(q) && q.version != "" && NewVersion(view, q)
    ensures KeyOf(ReleaseOf(q), f) !in view
  {
    var k := KeyOf(ReleaseOf(q), f);
    var p := PlatformOf(f);
    var rest := q.version + "/" + (NameOf(q.plugin) + "-" + Show(p) + ".tar.gz");
    assert k == q.plugin + "/archives/" + rest;
    assert q.plugin + "/archives/" <= k;
    if k in view {
      var tags := view[k];
      assert Listed(tags, q.plugin);
      assert WellTagged(view, q.plugin, NameOf(q.plugin)) && Relevant(view, q.plugin, NameOf(q.plugin), k);
      assert WellPlaced(k, tags, q.plugin, NameOf(q.plugin));
      ParsedGood(f);
      KeyDetermines(ReleaseOf(q), Release(q.plugin, NameOf(q.plugin), Tag(tags, VERSION)), p, Platform(Tag(tags, GOOS), Tag(tags, GOARCH)));
    }
  }

  /** The store was filled by the publisher, with versions that have one order. */
  ghost predicate Orderly(view: map<string, Tags>, q: Request) {
    Filed(view) && CanonicalVersions(view, q.plugin, NameOf(q.plugin)) && V.Canonical(q.version)
  }

  lemma {:induction false} OneOutcome(view: map<string, Tags>, q: Request, r: Result<seq<Archive>, Error>, end: map<string, Tags>,
                   s: Result<seq<Archive>, Error>, fin: map<string, Tags>)
    requires Follows(view, q, r, end) && Follows(view, q, s, fin)
    ensures r.Success? <==> s.Success?
    ensures r.Failure? ==> r == s
    ensures r.Success? ==> end == fin
    ensures Orderly(view, q) ==> r == s
  {
    hide V.Canonical, IsManifest, WellTagged;
    if r.Success? && Orderly(view, q) {
      AddedCanonical(view, q);
      var after := UploadFrom(view, ReleaseOf(q), Binaries(q.files)).value;
      OneManifest(r.value, s.value, after, q.plugin, NameOf(q.plugin), q.host);
    }
  }

  /** From any store, a dry run is accepted or refused like the real run, for the same reason, and the store it reads stays
      as it is.  When the publisher filled the store, it shows the manifest that the real run writes. */
  method DryRunPredicts(objects: map<string, Object>, q: Request)
    returns (actual: Result<seq<Archive>, Error>, dry: Result<seq<Archive>, Error>,
             stored: map<string, Object>, after: map<string, Object>)
    ensures actual.Success? <==> dry.Success?
    ensures actual.Failure? ==> actual == dry
    ensures Orderly(TagsOf(objects), q) ==> actual == dry
    ensures after == objects
    ensures actual.Success? ==> Holds(stored, q.plugin + "/manifest.json", actual.value)
    ensures Orderly(TagsOf(objects), q) && dry.Success? ==> Holds(stored, q.plugin + "/manifest.json", dry.value)
  {
    hide V.Canonical, IsManifest, WellTagged, Orderly, Follows, Filed, UploadSpec, Complete, ArchivesKept, Tidy, AddedObject;
    var stores := new Store(objects, [], false);
    var overlay := new Store(objects, [], true);
    assert TagsOf(objects) + map[] == TagsOf(objects);
    actual := Run(stores, q);
    dry := Run(overlay, q);
    stored, after := stores.objects, overlay.objects;
    OneOutcome(TagsOf(objects), q, actual, stores.View(), dry, overlay.View());
  }
}
