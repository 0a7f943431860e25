/** The object store that the publisher writes to, and the overlay of a dry run. */
module ObjectStore {
  import opened Wrappers

  type Tags = map<string, string>

  /** A Go map read: a missing tag is the empty string. */
  function Tag(tags: Tags, key: string): string {
    if key in tags then tags[key] else ""
  }

  datatype Artifact = Artifact(path: string, sha: string)

  /** An archive of the manifest: `artifacts` is keyed by platform. */
  datatype Archive = Archive(version: string, isLatest: bool, artifacts: map<string, Artifact>)

  /** What the publisher uploads: a tar.gz of one file, or a manifest (less its creation time). */
  datatype Body = TarGz(arcname: string, raw: string) | Manifest(archives: seq<Archive>)

  datatype Object = Object(body: Body, tags: Tags)

  /** How one request to the store goes: well, refused, or done although an error came back. */
  datatype Fault = Works | Refused | DoneButFailed

  function TagsOf(objects: map<string, Object>): map<string, Tags> {
    map k | k in objects :: objects[k].tags
  }

  lemma {:induction false} TagsAfter(objects: map<string, Object>, key: string, o: Object)
    ensures TagsOf(objects[key := o]) == TagsOf(objects)[key := o.tags]
  {
  }

  lemma {:induction false} OverlayAfter(stored: map<string, Tags>, local: map<string, Tags>, key: string, tags: Tags)
    ensures stored + local[key := tags] == (stored + local)[key := tags]
  {
  }

  /** The store of a real run, or, when `dry`, the overlay that keeps a dry run's uploads to itself in `local`. */
  class Store {
    var objects: map<string, Object>
    var faults: seq<Fault>             // of the requests to come
    const dry: bool
    var local: map<string, Tags>

    constructor (objects: map<string, Object>, faults: seq<Fault>, dry: bool)
      ensures this.objects == objects && this.faults == faults && this.dry == dry && local == map[]
    {
      this.objects, this.faults, this.dry, this.local := objects, faults, dry, map[];
    }

    /** The tags of every object that a reader sees. */
    ghost function View(): map<string, Tags>
      reads this
    {
      if dry then TagsOf(objects) + local else TagsOf(objects)
    }

    predicate Reliable()
      reads this
    {
      forall i :: 0 <= i < |faults| ==> faults[i].Works?
    }

    method Request() returns (fault: Fault)
      modifies `faults
      ensures old(Reliable()) ==> fault.Works? && Reliable()
    {
      if faults == [] { return Works; }
      fault := faults[0];
      faults := faults[1..];
    }

    method Put(key: string, body: Body, tags: Tags) returns (ok: bool)
      modifies this
      ensures old(Reliable()) ==> ok && Reliable()
      ensures ok ==> View() == old(View())[key := tags]
      ensures !ok ==> View() == old(View()) || View() == old(View())[key := tags]
      ensures if dry then ok && objects == old(objects) else
              (objects == old(objects)[key := Object(body, tags)] || (!ok && objects == old(objects)))
    {
      TagsAfter(objects, key, Object(body, tags));
      OverlayAfter(TagsOf(objects), local, key, tags);
      if dry {
        local := local[key := tags];
        return true;
      }
      var fault := Request();
      if !fault.Refused? {
        objects := objects[key := Object(body, tags)];
      }
      ok := fault.Works?;
    }

    /** The tags of an object, if it exists, unless the request fails. */
    method Head(key: string) returns (r: Result<Option<Tags>, ()>)
      modifies `faults
      ensures old(Reliable()) ==> r.Success? && Reliable()
      ensures r.Success? ==> r.value == if key in View() then Some(View()[key]) else None
    {
      if dry && key in local {
        return Success(Some(local[key]));
      }
      var fault := Request();
      if !fault.Works? {
        return Failure(());
      }
      r := Success(if key in objects then Some(objects[key].tags) else None);
    }

    /** The keys under a prefix, in an order that callers may not rely on. */
    method List(prefix: string) returns (r: Result<seq<string>, ()>)
      modifies `faults
      ensures old(Reliable()) ==> r.Success? && Reliable()
      ensures r.Success? ==> forall k :: k in r.value <==> k in View() && prefix <= k
    {
      var fault := Request();
      if !fault.Works? {
        return Failure(());
      }
      var keys := Under(objects.Keys, prefix);
      if dry {
        var more := Under(local.Keys, prefix);
        keys := keys + more;
      }
      r := Success(keys);
    }

    static method Under(all: set<string>, prefix: string) returns (keys: seq<string>)
      ensures forall k :: k in keys <==> k in all && prefix <= k
    {
      keys := [];
      var left := all;
      while left != {}
        invariant left <= all
        invariant forall k :: k in keys <==> k in all - left && prefix <= k
        decreases |left|
      {
        var k :| k in left;
        left := left - {k};
        if prefix <= k { keys := keys + [k]; }
      }
    }
  }
}
