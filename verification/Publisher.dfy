/** Uploading the archives of a release: what is refused, what is written, what never changes. */
module Publisher {
  import opened Wrappers
  import opened Strings
  import opened ObjectStore

  const BINARY_PREFIX := "rpk-k8s-"
  const EXE := ".exe"

  const NAME := "redpanda/binary_name"
  const SHA := "redpanda/binary_sha256"
  const GOOS := "redpanda/goos"
  const GOARCH := "redpanda/goarch"
  const VERSION := "redpanda/version"

  /// ## Platforms

  datatype Platform = Platform(goos: string, goarch: string)

  predicate HasSuffix(s: string, t: string) {
    |s| >= |t| && s[|s| - |t|..] == t
  }

  function TrimSuffix(s: string, t: string): string {
    if HasSuffix(s, t) then s[..|s| - |t|] else s
  }

  function ParsePlatform(name: string): Option<Platform> {
    var base := TrimSuffix(name, EXE);
    if !(BINARY_PREFIX <= base) then None
    else
      var parts := Split(base[|BINARY_PREFIX|..], '-');
      if |parts| != 2 || parts[0] == "" || parts[1] == "" then None else Some(Platform(parts[0], parts[1]))
  }

  /** `<goos>-<goarch>` */
  function Show(p: Platform): string {
    p.goos + "-" + p.goarch
  }

  predicate GoodPlatform(p: Platform) {
    p.goos != "" && p.goarch != "" && '-' !in p.goos && '-' !in p.goarch
  }

  lemma {:induction false} SplitShow(p: Platform)
    requires '-' !in p.goos && '-' !in p.goarch
    ensures Split(Show(p), '-') == [p.goos, p.goarch]
  {
    var parts := [p.goos, p.goarch];
    assert parts[1..] == [p.goarch];
    assert Join(parts, "-") == Show(p);
    SplitJoin(parts, '-');
  }

  lemma {:induction false} ShowInjective(p: Platform, q: Platform)
    requires '-' !in p.goos && '-' !in p.goarch && '-' !in q.goos && '-' !in q.goarch && Show(p) == Show(q)
    ensures p == q
  {
    SplitShow(p);
    SplitShow(q);
  }

  /** The file names of a platform: `rpk-k8s-<goos>-<goarch>`, with or without `.exe`. */
  lemma {:induction false} ParsePlatformIff(name: string, p: Platform)
    ensures ParsePlatform(name) == Some(p) <==>
            GoodPlatform(p) && (name == BINARY_PREFIX + Show(p) + EXE
                                || (name == BINARY_PREFIX + Show(p) && !HasSuffix(p.goarch, EXE)))
  {
    var base := TrimSuffix(name, EXE);
    if ParsePlatform(name) == Some(p) {
      JoinSplit(base[|BINARY_PREFIX|..], '-');
      var parts := Split(base[|BINARY_PREFIX|..], '-');
      assert parts[1..] == [parts[1]];
      assert base == BINARY_PREFIX + Show(p);
      if base == name { ExeSuffix(p); }
      else { assert name == base + EXE; }
    }
    if GoodPlatform(p) && name == BINARY_PREFIX + Show(p) + EXE {
      assert base == BINARY_PREFIX + Show(p);
      assert base[|BINARY_PREFIX|..] == Show(p);
      SplitShow(p);
    }
    if GoodPlatform(p) && name == BINARY_PREFIX + Show(p) && !HasSuffix(p.goarch, EXE) {
      ExeSuffix(p);
      assert base[|BINARY_PREFIX|..] == Show(p);
      SplitShow(p);
    }
  }

  lemma {:induction false} ExeSuffix(p: Platform)
    requires p.goarch != ""
    ensures HasSuffix(BINARY_PREFIX + Show(p), EXE) <==> HasSuffix(p.goarch, EXE)
  {
    var s := BINARY_PREFIX + Show(p);
    assert s == BINARY_PREFIX + p.goos + "-" + p.goarch;
    var n := |s| - |EXE|;
    if |p.goarch| >= |EXE| {
      assert s[n..] == p.goarch[|p.goarch| - |EXE|..];
    } else {
      assert s[|s| - |p.goarch| - 1] == '-';
      assert s[n..][|EXE| - |p.goarch| - 1] == '-';
    }
  }

  /// ## Local binaries

  /** A directory entry, as os.ReadDir lists them. */
  datatype File = File(name: string, isDir: bool, raw: string)

  predicate IsBinary(f: File) {
    !f.isDir && BINARY_PREFIX <= f.name
  }

  function Binaries(files: seq<File>): (bins: seq<File>)
    ensures forall f :: f in bins <==> f in files && !f.isDir && "rpk-k8s-" <= f.name
  {
    if files == [] then []
    else
      var bins := Binaries(files[..|files| - 1]);
      var f := files[|files| - 1];
      if IsBinary(f) then bins + [f] else bins
  }

  method Discover(files: seq<File>) returns (bins: seq<File>)
    ensures bins == Binaries(files)
  {
    bins := [];
    for i := 0 to |files|
      invariant bins == Binaries(files[..i])
    {
      assert files[..i + 1][..i] == files[..i];
      if IsBinary(files[i]) { bins := bins + [files[i]]; }
    }
    assert files[..|files|] == files;
  }

  /// ## Keys and tags

  datatype Release = Release(plugin: string, binaryName: string, version: string)

  function ArchivePrefix(plugin: string): string {
    plugin + "/archives/"
  }

  function Key(r: Release, p: Platform): string {
    ArchivePrefix(r.plugin) + r.version + "/" + r.binaryName + "-" + Show(p) + ".tar.gz"
  }

  /** A digest that no two contents share. */
  function Sha256Hex(raw: string): string {
    "sha256 of " + raw
  }

  function PlatformOf(f: File): Platform {
    match ParsePlatform(f.name) case Some(p) => p case None => Platform("", "")
  }

  function KeyOf(r: Release, f: File): string {
    Key(r, PlatformOf(f))
  }

  function TagsFor(r: Release, f: File): Tags {
    map[NAME := r.binaryName, SHA := Sha256Hex(f.raw), GOOS := PlatformOf(f).goos, GOARCH := PlatformOf(f).goarch, VERSION := r.version]
  }

  lemma {:induction false} KeyInjective(r: Release, p: Platform, q: Platform)
    requires '-' !in p.goos && '-' !in p.goarch && '-' !in q.goos && '-' !in q.goarch && Key(r, p) == Key(r, q)
    ensures p == q
  {
    var front := ArchivePrefix(r.plugin) + r.version + "/" + r.binaryName + "-";
    assert Key(r, p) == front + Show(p) + ".tar.gz" && Key(r, q) == front + Show(q) + ".tar.gz";
    assert Show(p) == Key(r, p)[|front|..|Key(r, p)| - |".tar.gz"|];
    assert Show(q) == Key(r, q)[|front|..|Key(r, q)| - |".tar.gz"|];
    ShowInjective(p, q);
  }

  /** A key names one archive only: the plugin, the version, the binary and the platform can be read off it. */
  lemma {:induction false} KeyDetermines(r: Release, s: Release, p: Platform, q: Platform)
    requires '/' !in r.plugin && '/' !in s.plugin && '/' !in r.version && '/' !in s.version
    requires '-' !in p.goos && '-' !in p.goarch && '-' !in q.goos && '-' !in q.goarch
    requires Key(r, p) == Key(s, q)
    ensures r == s && p == q
  {
    var a, b := r.binaryName + "-" + Show(p), s.binaryName + "-" + Show(q);
    FirstCut(r.plugin, "archives/" + (r.version + "/" + (a + ".tar.gz")), s.plugin, "archives/" + (s.version + "/" + (b + ".tar.gz")), '/')
      by { KeyJoined(r, p); KeyJoined(s, q); }
    Uncut("archives/", r.version + "/" + (a + ".tar.gz"), s.version + "/" + (b + ".tar.gz"));
    FirstCut(r.version, a + ".tar.gz", s.version, b + ".tar.gz", '/');
    assert a == b by { assert a == (a + ".tar.gz")[..|a|] && b == (b + ".tar.gz")[..|b|]; }
    assert a == (r.binaryName + "-" + p.goos) + "-" + p.goarch && b == (s.binaryName + "-" + q.goos) + "-" + q.goarch;
    LastCut(r.binaryName + "-" + p.goos, p.goarch, s.binaryName + "-" + q.goos, q.goarch, '-');
    LastCut(r.binaryName, p.goos, s.binaryName, q.goos, '-');
  }

  lemma {:induction false} KeyJoined(r: Release, p: Platform)
    ensures Key(r, p) == r.plugin + "/" + ("archives/" + (r.version + "/" + (r.binaryName + "-" + Show(p) + ".tar.gz")))
  {
  }

  lemma {:induction false} Uncut(a: string, b: string, c: string)
    requires a + b == a + c
    ensures b == c
  {
    assert b == (a + b)[|a|..] && c == (a + c)[|a|..];
  }

  /** The first separator tells what is before it from what is after it. */
  lemma {:induction false} FirstCut(a: string, b: string, c: string, d: string, sep: char)
    requires sep !in a && sep !in c && a + [sep] + b == c + [sep] + d
    ensures a == c && b == d
  {
    var s, t := a + [sep] + b, c + [sep] + d;
    assert s[|a|] == sep && t[|c|] == sep;
    assert (forall i :: 0 <= i < |a| ==> s[i] != sep) && forall i :: 0 <= i < |c| ==> t[i] != sep;
    assert a == s[..|a|] && c == t[..|c|] && b == s[|a| + 1..] && d == t[|c| + 1..];
  }

  lemma {:induction false} LastCut(a: string, b: string, c: string, d: string, sep: char)
    requires sep !in b && sep !in d && a + [sep] + b == c + [sep] + d
    ensures a == c && b == d
  {
    var s, t := a + [sep] + b, c + [sep] + d;
    assert s[|a|] == sep && t[|c|] == sep;
    assert (forall i :: |a| < i < |s| ==> s[i] != sep) && forall i :: |c| < i < |t| ==> t[i] != sep;
    assert a == s[..|a|] && c == t[..|c|] && b == s[|a| + 1..] && d == t[|c| + 1..];
  }

  /** Where the binary of a platform goes, in which wrapping, and with which tags. */
  lemma {:induction false} ArchiveFor(r: Release, f: File, goos: string, goarch: string)
    requires goos != "" && goarch != "" && '-' !in goos && '-' !in goarch
    requires f.name == "rpk-k8s-" + goos + "-" + goarch + ".exe"
             || (f.name == "rpk-k8s-" + goos + "-" + goarch && !HasSuffix(goarch, ".exe"))
    ensures KeyOf(r, f) == r.plugin + "/archives/" + r.version + "/" + r.binaryName + "-" + goos + "-" + goarch + ".tar.gz"
    ensures ArchiveOf(r, f) == Object(TarGz("rpk-k8s-" + goos + "-" + goarch, f.raw), TagsFor(r, f))
    ensures TagsFor(r, f) == map["redpanda/binary_name" := r.binaryName, "redpanda/binary_sha256" := Sha256Hex(f.raw),
                                 "redpanda/goos" := goos, "redpanda/goarch" := goarch, "redpanda/version" := r.version]
  {
    var p := Platform(goos, goarch);
    assert BINARY_PREFIX + Show(p) == "rpk-k8s-" + goos + "-" + goarch;
    assert BINARY_PREFIX + Show(p) + EXE == "rpk-k8s-" + goos + "-" + goarch + ".exe";
    ParsePlatformIff(f.name, p);
    ExeSuffix(p);
    assert Key(r, p) == r.plugin + "/archives/" + r.version + "/" + r.binaryName + "-" + goos + "-" + goarch + ".tar.gz";
  }

  lemma {:induction false} ParsedGood(f: File)
    ensures '-' !in PlatformOf(f).goos && '-' !in PlatformOf(f).goarch
  {
    ParsePlatformIff(f.name, PlatformOf(f));
  }

  /** Two binaries with one key are of one platform. */
  lemma {:induction false} SameKey(r: Release, f: File, g: File)
    requires KeyOf(r, f) == KeyOf(r, g)
    ensures PlatformOf(f) == PlatformOf(g) && (f.raw == g.raw ==> TagsFor(r, f) == TagsFor(r, g))
  {
    ParsedGood(f);
    ParsedGood(g);
    KeyInjective(r, PlatformOf(f), PlatformOf(g));
  }

  /// ## What an upload does when the store answers

  datatype Error =
    | NotABinary(name: string)
    | MissingPlatforms(platforms: seq<string>)
    | AlreadyPublished(key: string)
    | StoreFailed
    | NoVersion
    | NoPlatforms

  function FirstUnnamed(bins: seq<File>): Option<string> {
    if bins == [] then None
    else if ParsePlatform(bins[0].name).None? then Some(bins[0].name)
    else FirstUnnamed(bins[1..])
  }

  predicate Have(bins: seq<File>, platform: string) {
    exists i :: 0 <= i < |bins| && Show(PlatformOf(bins[i])) == platform
  }

  function Missing(bins: seq<File>, expected: seq<string>): seq<string> {
    if expected == [] then []
    else
      var front := Missing(bins, expected[..|expected| - 1]);
      var p := expected[|expected| - 1];
      if Have(bins, p) then front else front + [p]
  }

  lemma {:induction false} MissingNone(bins: seq<File>, expected: seq<string>)
    ensures forall p :: p in Missing(bins, expected) <==> p in expected && !Have(bins, p)
    ensures Missing(bins, expected) == [] <==> forall p :: p in expected ==> Have(bins, p)
  {
    if expected != [] {
      MissingNone(bins, expected[..|expected| - 1]);
      assert expected == expected[..|expected| - 1] + [expected[|expected| - 1]];
      assert Missing(bins, expected) != [] ==> Missing(bins, expected)[0] in Missing(bins, expected);
    }
  }

  /** The tags in the store after one binary after the other was uploaded, or the first refusal. */
  function UploadFrom(view: map<string, Tags>, r: Release, bins: seq<File>): Result<map<string, Tags>, Error>
    decreases |bins|
  {
    if bins == [] then Success(view)
    else
      var key := KeyOf(r, bins[0]);
      if key !in view then UploadFrom(view[key := TagsFor(r, bins[0])], r, bins[1..])
      else if Tag(view[key], SHA) == Sha256Hex(bins[0].raw) then UploadFrom(view, r, bins[1..])
      else Failure(AlreadyPublished(key))
  }

  function UploadSpec(view: map<string, Tags>, r: Release, files: seq<File>, expected: seq<string>): Result<map<string, Tags>, Error> {
    var bins := Binaries(files);
    if FirstUnnamed(bins).Some? then Failure(NotABinary(FirstUnnamed(bins).value))
    else if Missing(bins, expected) != [] then Failure(MissingPlatforms(Missing(bins, expected)))
    else UploadFrom(view, r, bins)
  }

  /** What `f` would be uploaded as is not published yet, or published from the same bytes. */
  predicate Agrees(view: map<string, Tags>, r: Release, f: File) {
    KeyOf(r, f) in view ==> Tag(view[KeyOf(r, f)], SHA) == Sha256Hex(f.raw)
  }

  ghost predicate Publishable(view: map<string, Tags>, r: Release, bins: seq<File>) {
    && (forall f :: f in bins ==> Agrees(view, r, f))
    && (forall f, g :: f in bins && g in bins && KeyOf(r, f) == KeyOf(r, g) ==> f.raw == g.raw)
  }

  /** `after` is `view` with some of the binaries' archives added and nothing else changed. */
  ghost predicate Extends(view: map<string, Tags>, after: map<string, Tags>, r: Release, bins: seq<File>) {
    && (forall k :: k in view ==> k in after && after[k] == view[k])
    && (forall k :: k in after && k !in view ==> Added(k, after[k], r, bins))
  }

  ghost predicate Added(k: string, tags: Tags, r: Release, bins: seq<File>) {
    exists f :: f in bins && k == KeyOf(r, f) && tags == TagsFor(r, f)
  }

  ghost predicate Published(view: map<string, Tags>, r: Release, f: File) {
    KeyOf(r, f) in view && Tag(view[KeyOf(r, f)], SHA) == Sha256Hex(f.raw)
  }

  /** Without store errors, an upload is refused exactly when a binary disagrees with what is published, or with
      another binary of its platform; else it publishes every binary and changes nothing else. */
  lemma {:induction false} UploadIff(view: map<string, Tags>, r: Release, bins: seq<File>)
    ensures UploadFrom(view, r, bins).Success? <==> Publishable(view, r, bins)
    ensures UploadFrom(view, r, bins).Success? ==>
              var after := UploadFrom(view, r, bins).value;
              Extends(view, after, r, bins) && forall f :: f in bins ==> Published(after, r, f)
    decreases |bins|
  {
    if bins != [] {
      var f, rest := bins[0], bins[1..];
      assert bins == [f] + rest;
      var view' := if KeyOf(r, f) in view then view else view[KeyOf(r, f) := TagsFor(r, f)];
      UploadIff(view', r, rest);
      if Agrees(view, r, f) {
        StepPublishable(view, view', r, f, rest);
        if UploadFrom(view, r, bins).Success? { StepExtends(view, view', r, bins); }
      }
    }
  }

  lemma {:induction false} StepPublishable(view: map<string, Tags>, view': map<string, Tags>, r: Release, f: File, rest: seq<File>)
    requires view' == if KeyOf(r, f) in view then view else view[KeyOf(r, f) := TagsFor(r, f)]
    requires Agrees(view, r, f)
    ensures Publishable(view', r, rest) <==> Publishable(view, r, [f] + rest)
  {
    var bins := [f] + rest;
    assert Tag(view'[KeyOf(r, f)], SHA) == Sha256Hex(f.raw);
    forall g | g in rest && KeyOf(r, g) == KeyOf(r, f) ensures Agrees(view', r, g) <==> g.raw == f.raw {
      if Sha256Hex(g.raw) == Sha256Hex(f.raw) { ShaInjective(g.raw, f.raw); }
    }
    assert forall g :: g in bins <==> g == f || g in rest;
    if Publishable(view', r, rest) {
      forall g | g in bins ensures Agrees(view, r, g) {
        if g != f { assert Agrees(view', r, g); }
      }
      forall g, h | g in bins && h in bins && KeyOf(r, g) == KeyOf(r, h) ensures g.raw == h.raw {
        if g != f { assert Agrees(view', r, g); }
        if h != f { assert Agrees(view', r, h); }
      }
    }
    if Publishable(view, r, bins) {
      forall g | g in rest ensures Agrees(view', r, g) {
        assert g in bins && f in bins;
        assert Agrees(view, r, g);
      }
      assert forall g :: g in rest ==> g in bins;
    }
  }

  lemma {:induction false} ShaInjective(a: string, b: string)
    requires Sha256Hex(a) == Sha256Hex(b)
    ensures a == b
  {
    assert a == Sha256Hex(a)[|"sha256 of "|..] && b == Sha256Hex(b)[|"sha256 of "|..];
  }

  lemma {:induction false} StepExtends(view: map<string, Tags>, view': map<string, Tags>, r: Release, bins: seq<File>)
    requires bins != [] && Agrees(view, r, bins[0])
    requires view' == if KeyOf(r, bins[0]) in view then view else view[KeyOf(r, bins[0]) := TagsFor(r, bins[0])]
    requires UploadFrom(view', r, bins[1..]).Success?
    requires var after := UploadFrom(view', r, bins[1..]).value;
             Extends(view', after, r, bins[1..]) && forall f :: f in bins[1..] ==> Published(after, r, f)
    ensures var after := UploadFrom(view', r, bins[1..]).value;
            Extends(view, after, r, bins) && forall f :: f in bins ==> Published(after, r, f)
  {
    var after := UploadFrom(view', r, bins[1..]).value;
    var f := bins[0];
    assert bins == [f] + bins[1..];
    assert Published(view', r, f) && Published(after, r, f);
    forall k | k in after && k !in view ensures Added(k, after[k], r, bins) {
      if k in view' {
        assert k == KeyOf(r, f) && after[k] == TagsFor(r, f);
      } else {
        assert Added(k, after[k], r, bins[1..]);
        var g :| g in bins[1..] && k == KeyOf(r, g) && after[k] == TagsFor(r, g);
        assert g in bins;
      }
    }
  }

  /** Retrying: after an upload was cut off anywhere, the same binaries are accepted if they were before, and the
      retry ends with exactly the tags that the first attempt was to end with. */
  lemma {:induction false} RetryCompletes(view: map<string, Tags>, partial: map<string, Tags>, r: Release, bins: seq<File>)
    requires Extends(view, partial, r, bins) && UploadFrom(view, r, bins).Success?
    ensures UploadFrom(partial, r, bins) == UploadFrom(view, r, bins)
  {
    hide UploadFrom, KeyOf, TagsFor, Sha256Hex;
    UploadIff(view, r, bins);
    RetryPublishable(view, partial, r, bins);
    UploadIff(partial, r, bins);
    var a, b := UploadFrom(view, r, bins).value, UploadFrom(partial, r, bins).value;
    ExtendsTwice(view, partial, b, r, bins);
    CompleteUnique(view, a, b, r, bins);
  }

  lemma {:induction false} OwnDigest(r: Release, f: File)
    ensures Tag(TagsFor(r, f), SHA) == Sha256Hex(f.raw)
  {
  }

  lemma {:induction false} RetryPublishable(view: map<string, Tags>, partial: map<string, Tags>, r: Release, bins: seq<File>)
    requires Extends(view, partial, r, bins) && Publishable(view, r, bins)
    ensures Publishable(partial, r, bins)
  {
    hide KeyOf, Tag, Sha256Hex;
    forall f | f in bins ensures Agrees(partial, r, f) {
      var k := KeyOf(r, f);
      assert Agrees(view, r, f);
      if k in partial && k !in view {
        assert Added(k, partial[k], r, bins);
        var g :| g in bins && k == KeyOf(r, g) && partial[k] == TagsFor(r, g);
        OwnDigest(r, g);
      }
    }
  }

  lemma {:induction false} ExtendsTwice(a: map<string, Tags>, b: map<string, Tags>, c: map<string, Tags>, r: Release, bins: seq<File>)
    requires Extends(a, b, r, bins) && Extends(b, c, r, bins)
    ensures Extends(a, c, r, bins)
  {
    forall k | k in c && k !in a ensures Added(k, c[k], r, bins) {
      if k in b { assert Added(k, b[k], r, bins); } else { assert Added(k, c[k], r, bins); }
    }
  }

  /** There is one way to add all the archives of agreeing binaries. */
  lemma {:induction false} CompleteUnique(view: map<string, Tags>, a: map<string, Tags>, b: map<string, Tags>, r: Release, bins: seq<File>)
    requires Publishable(view, r, bins) && Extends(view, a, r, bins) && Extends(view, b, r, bins)
    requires forall f :: f in bins ==> Published(a, r, f) && Published(b, r, f)
    ensures a == b
  {
    hide KeyOf, TagsFor, Sha256Hex;
    forall k ensures k in a <==> k in b {
      if k in a && k !in view { assert Added(k, a[k], r, bins); }
      if k in b && k !in view { assert Added(k, b[k], r, bins); }
    }
    forall k | k in a && k in b ensures a[k] == b[k] {
      if k !in view {
        assert Added(k, a[k], r, bins) && Added(k, b[k], r, bins);
        var f :| f in bins && k == KeyOf(r, f) && a[k] == TagsFor(r, f);
        var g :| g in bins && k == KeyOf(r, g) && b[k] == TagsFor(r, g);
        SameKey(r, f, g);
      }
    }
  }

  /// ## Uploading

  /** Objects once stored keep their bytes and tags; what is new is an archive of one of the binaries. */
  ghost predicate OnlyAdds(before: map<string, Object>, after: map<string, Object>, r: Release, bins: seq<File>) {
    && (forall k :: k in before ==> k in after && after[k] == before[k])
    && (forall k :: k in after && k !in before ==> AddedObject(k, after[k], r, bins))
  }

  function ArchiveOf(r: Release, f: File): Object {
    Object(TarGz(TrimSuffix(f.name, EXE), f.raw), TagsFor(r, f))
  }

  ghost predicate AddedObject(k: string, o: Object, r: Release, bins: seq<File>) {
    exists f :: f in bins && k == KeyOf(r, f) && o == ArchiveOf(r, f)
  }

  method FindMissing(bins: seq<File>, expected: seq<string>) returns (missing: seq<string>)
    ensures missing == Missing(bins, expected)
  {
    var have: set<string> := {};
    for i := 0 to |bins|
      invariant forall p :: p in have <==> Have(bins[..i], p)
    {
      var p := Show(PlatformOf(bins[i]));
      forall q ensures Have(bins[..i + 1], q) <==> q == p || Have(bins[..i], q) {
        assert bins[..i + 1] == bins[..i] + [bins[i]];
        if Have(bins[..i], q) {
          var j :| 0 <= j < i && Show(PlatformOf(bins[..i][j])) == q;
          assert bins[..i + 1][j] == bins[j];
        }
        if q == p { assert bins[..i + 1][i] == bins[i]; }
      }
      have := have + {p};
    }
    assert bins[..|bins|] == bins;
    missing := [];
    for i := 0 to |expected|
      invariant missing == Missing(bins, expected[..i])
    {
      assert expected[..i + 1][..i] == expected[..i];
      if expected[i] !in have { missing := missing + [expected[i]]; }
    }
    assert expected[..|expected|] == expected;
  }

  method FindUnnamed(bins: seq<File>) returns (name: Option<string>)
    ensures name == FirstUnnamed(bins)
  {
    for i := 0 to |bins|
      invariant FirstUnnamed(bins) == FirstUnnamed(bins[i..])
    {
      assert bins[i..][1..] == bins[i + 1..];
      if ParsePlatform(bins[i].name) == None { return Some(bins[i].name); }
    }
    name := None;
  }

  /** One binary: skipped when published from the same bytes, refused when published from others. */
  method UploadOne(store: Store, r: Release, f: File) returns (result: Result<(), Error>)
    modifies store
    ensures old(store.Reliable()) ==> store.Reliable() && result != Failure(StoreFailed)
    ensures store.View() == old(store.View())
            || (KeyOf(r, f) !in old(store.View()) && store.View() == old(store.View())[KeyOf(r, f) := TagsFor(r, f)])
    ensures store.objects == old(store.objects)
            || (!store.dry && KeyOf(r, f) !in old(store.objects) && store.objects == old(store.objects)[KeyOf(r, f) := ArchiveOf(r, f)])
    ensures match result
            case Success(_) => Published(store.View(), r, f)
            case Failure(StoreFailed) => true
            case Failure(e) => e == AlreadyPublished(KeyOf(r, f)) && store.View() == old(store.View()) && !Agrees(store.View(), r, f)
  {
    var key := KeyOf(r, f);
    var head := store.Head(key);
    if head.Failure? { return Failure(StoreFailed); }
    if head.value.Some? {
      if Tag(head.value.value, SHA) != Sha256Hex(f.raw) { return Failure(AlreadyPublished(key)); }
    } else {
      var ok := store.Put(key, TarGz(TrimSuffix(f.name, EXE), f.raw), TagsFor(r, f));
      if !ok { return Failure(StoreFailed); }
    }
    result := Success(());
  }

  /** uploadArchives, with a store that may fail at any request. */
  method Upload(store: Store, files: seq<File>, r: Release, expected: seq<string>) returns (result: Result<(), Error>)
    modifies store
    ensures old(store.Reliable()) ==> store.Reliable()
    ensures old(store.Reliable()) ==>
              match UploadSpec(old(store.View()), r, files, expected)
              case Success(after) => result == Success(()) && store.View() == after
              case Failure(e) => result == Failure(e)
    ensures Extends(old(store.View()), store.View(), r, Binaries(files))
    ensures if store.dry then store.objects == old(store.objects) else OnlyAdds(old(store.objects), store.objects, r, Binaries(files))
    ensures FirstUnnamed(Binaries(files)).Some? || Missing(Binaries(files), expected) != [] ==>
              result.Failure? && store.objects == old(store.objects) && store.View() == old(store.View())
    ensures result.Success? ==> forall f :: f in Binaries(files) ==> Published(store.View(), r, f)
  {
    hide KeyOf, TagsFor, Sha256Hex, ArchiveOf, Extends, OnlyAdds, Published, Agrees;
    NothingAdded(store.View(), store.objects, r, Binaries(files));
    var bins := Discover(files);
    var unnamed := FindUnnamed(bins);
    if unnamed.Some? { return Failure(NotABinary(unnamed.value)); }
    var missing := FindMissing(bins, expected);
    if missing != [] { return Failure(MissingPlatforms(missing)); }
    ghost var view := store.View();
    for i := 0 to |bins|
      invariant old(store.Reliable()) ==> store.Reliable() && UploadFrom(view, r, bins) == UploadFrom(store.View(), r, bins[i..])
      invariant Extends(view, store.View(), r, bins)
      invariant if store.dry then store.objects == old(store.objects) else OnlyAdds(old(store.objects), store.objects, r, bins)
      invariant forall f :: f in bins[..i] ==> Published(store.View(), r, f)
    {
      assert bins[i..][1..] == bins[i + 1..] && bins[..i + 1] == bins[..i] + [bins[i]];
      ghost var before, stored := store.View(), store.objects;
      var one := UploadOne(store, r, bins[i]);
      ExtendsMore(view, before, store.View(), r, bins, bins[i]);
      if !store.dry { AddsMore(old(store.objects), stored, store.objects, r, bins, bins[i]); }
      StepFrom(before, store.View(), r, bins[i..], one);
      if one.Failure? { return one; }
      KeepsPublished(before, store.View(), r, bins[..i], bins[i]);
    }
    assert bins[..|bins|] == bins;
    result := Success(());
  }

  lemma {:induction false} NothingAdded(view: map<string, Tags>, objects: map<string, Object>, r: Release, bins: seq<File>)
    ensures Extends(view, view, r, bins) && OnlyAdds(objects, objects, r, bins)
  {
  }

  /** One step of the upload follows its specification. */
  lemma {:induction false} StepFrom(before: map<string, Tags>, after: map<string, Tags>, r: Release, bins: seq<File>, result: Result<(), Error>)
    requires bins != []
    requires after == before || (KeyOf(r, bins[0]) !in before && after == before[KeyOf(r, bins[0]) := TagsFor(r, bins[0])])
    requires match result
             case Success(_) => Published(after, r, bins[0])
             case Failure(StoreFailed) => true
             case Failure(e) => e == AlreadyPublished(KeyOf(r, bins[0])) && after == before && !Agrees(after, r, bins[0])
    ensures result != Failure(StoreFailed) ==>
              UploadFrom(before, r, bins) == if result.Success? then UploadFrom(after, r, bins[1..]) else Failure(result.error)
  {
  }

  lemma {:induction false} ExtendsMore(view: map<string, Tags>, before: map<string, Tags>, after: map<string, Tags>, r: Release, bins: seq<File>, f: File)
    requires Extends(view, before, r, bins) && f in bins
    requires after == before || (KeyOf(r, f) !in before && after == before[KeyOf(r, f) := TagsFor(r, f)])
    ensures Extends(view, after, r, bins)
  {
    forall k | k in after && k !in view ensures Added(k, after[k], r, bins) {
      if k in before { assert Added(k, before[k], r, bins); }
    }
  }

  lemma {:induction false} AddsMore(objects: map<string, Object>, before: map<string, Object>, after: map<string, Object>, r: Release, bins: seq<File>, f: File)
    requires OnlyAdds(objects, before, r, bins) && f in bins
    requires after == before || (KeyOf(r, f) !in before && after == before[KeyOf(r, f) := ArchiveOf(r, f)])
    ensures OnlyAdds(objects, after, r, bins)
  {
    forall k | k in after && k !in objects ensures AddedObject(k, after[k], r, bins) {
      if k in before { assert AddedObject(k, before[k], r, bins); }
    }
  }

  lemma {:induction false} KeepsPublished(before: map<string, Tags>, after: map<string, Tags>, r: Release, bins: seq<File>, f: File)
    requires after == before || (KeyOf(r, f) !in before && after == before[KeyOf(r, f) := TagsFor(r, f)])
    requires forall g :: g in bins ==> Published(before, r, g)
    ensures forall g :: g in bins ==> Published(after, r, g)
  {
  }
}
