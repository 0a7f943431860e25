/** Listing the fields of a struct through its embedded structs, and the selector translation that uses the list. */
module StructFields {
  import opened Wrappers

  /** A field.  `inner` is set when its type is a struct or, with `pointer`, a pointer to one. */
  datatype Field = Field(name: string, embedded: bool, jsonName: string, inner: Option<Struct>, pointer: bool)

  /** `declarations` counts the field declarations in the source: `A, B int` is one declaration of two fields. */
  datatype Struct = Struct(fields: seq<Field>, declarations: nat)

  /** An embedded field without a JSON name is merged into its parent. */
  predicate Inline(f: Field) {
    f.embedded && f.jsonName == ""
  }

  /** The fields that the loop over a struct's declarations looks at. */
  function Listed(s: Struct): (fs: seq<Field>)
    ensures forall i :: 0 <= i < |fs| ==> fs[i] in s.fields
  {
    if s.declarations < |s.fields| then s.fields[..s.declarations] else s.fields
  }

  function InlinedIn(fs: seq<Field>): seq<Struct> {
    if fs == [] then []
    else
      var front := InlinedIn(fs[..|fs| - 1]);
      var f := fs[|fs| - 1];
      if Inline(f) && f.inner.Some? then front + [f.inner.value] else front
  }

  /** No empty struct and no inlined field of another kind, at any depth: on these the translation panics. */
  predicate Clean(s: Struct) {
    s.fields != [] && forall i :: 0 <= i < |Listed(s)| ==> CleanField(Listed(s)[i])
  }

  predicate CleanField(f: Field) {
    Inline(f) ==> f.inner.Some? && !f.pointer && Clean(f.inner.value)
  }

  /// ## Levels of embedding

  function FieldsOf(structs: seq<Struct>): seq<Field> {
    if structs == [] then [] else Listed(structs[0]) + FieldsOf(structs[1..])
  }

  function Below(structs: seq<Struct>): seq<Struct> {
    if structs == [] then [] else InlinedIn(Listed(structs[0])) + Below(structs[1..])
  }

  function Size(s: Struct): nat {
    1 + FieldsSize(s.fields)
  }

  function FieldsSize(fs: seq<Field>): nat {
    if fs == [] then 0
    else FieldsSize(fs[1..]) + match fs[0].inner case Some(s) => Size(s) case None => 0
  }

  function TotalSize(structs: seq<Struct>): nat {
    if structs == [] then 0 else Size(structs[0]) + TotalSize(structs[1..])
  }

  lemma {:induction false} TotalSizeJoin(a: seq<Struct>, b: seq<Struct>)
    ensures TotalSize(a + b) == TotalSize(a) + TotalSize(b)
  {
    if a == [] {
      assert a + b == b;
    } else {
      assert (a + b)[1..] == a[1..] + b;
      TotalSizeJoin(a[1..], b);
    }
  }

  lemma {:induction false} FieldsSizeJoin(a: seq<Field>, b: seq<Field>)
    ensures FieldsSize(a + b) == FieldsSize(a) + FieldsSize(b)
  {
    if a == [] {
      assert a + b == b;
    } else {
      assert (a + b)[1..] == a[1..] + b;
      FieldsSizeJoin(a[1..], b);
    }
  }

  lemma {:induction false} InlinedSize(fs: seq<Field>)
    ensures TotalSize(InlinedIn(fs)) <= FieldsSize(fs)
  {
    if fs != [] {
      var front, f := fs[..|fs| - 1], fs[|fs| - 1];
      InlinedSize(front);
      assert fs == front + [f] && [f][1..] == [];
      FieldsSizeJoin(front, [f]);
      if Inline(f) && f.inner.Some? {
        TotalSizeJoin(InlinedIn(front), [f.inner.value]);
        assert [f.inner.value][1..] == [];
      }
    }
  }

  /** What a struct puts on the worklist is smaller than the struct. */
  lemma {:induction false} BelowSmaller(s: Struct)
    ensures TotalSize(InlinedIn(Listed(s))) < Size(s)
  {
    InlinedSize(Listed(s));
    if s.declarations < |s.fields| {
      assert s.fields == s.fields[..s.declarations] + s.fields[s.declarations..];
      FieldsSizeJoin(s.fields[..s.declarations], s.fields[s.declarations..]);
    }
  }

  /// ## The worklist

  /** The fields in the order in which the worklist meets them. */
  function Worklist(queue: seq<Struct>): seq<Field>
    decreases TotalSize(queue)
  {
    if queue == [] then []
    else
      BelowSmaller(queue[0]);
      TotalSizeJoin(queue[1..], InlinedIn(Listed(queue[0])));
      Listed(queue[0]) + Worklist(queue[1..] + InlinedIn(Listed(queue[0])))
  }

  lemma {:induction false} WorklistStep(queue: seq<Struct>)
    requires queue != []
    ensures Worklist(queue) == Listed(queue[0]) + Worklist(queue[1..] + InlinedIn(Listed(queue[0])))
  {
  }

  lemma {:induction false} WorklistThrough(now: seq<Struct>, later: seq<Struct>)
    ensures Worklist(now + later) == FieldsOf(now) + Worklist(later + Below(now))
    decreases |now|
  {
    hide Worklist, Listed, InlinedIn;
    if now == [] {
      assert now + later == later && later + Below(now) == later;
    } else {
      var first := InlinedIn(Listed(now[0]));
      WorklistStep(now + later);
      assert (now + later)[0] == now[0];
      assert (now + later)[1..] + first == now[1..] + (later + first);
      WorklistThrough(now[1..], later + first);
      assert later + first + Below(now[1..]) == later + Below(now);
      assert Listed(now[0]) + (FieldsOf(now[1..]) + Worklist(later + Below(now))) == FieldsOf(now) + Worklist(later + Below(now));
    }
  }

  /** The list is one level of embedding after the other. */
  lemma {:induction false} WorklistByLevel(structs: seq<Struct>)
    ensures Worklist(structs) == FieldsOf(structs) + Worklist(Below(structs))
  {
    WorklistThrough(structs, []);
    assert structs + [] == structs && [] + Below(structs) == Below(structs);
  }

  predicate AllClean(structs: seq<Struct>) {
    forall i :: 0 <= i < |structs| ==> Clean(structs[i])
  }

  predicate NoneEmpty(structs: seq<Struct>) {
    forall i :: 0 <= i < |structs| ==> structs[i].fields != []
  }

  /** Struct by struct, an inlined field is clean when its struct is. */
  lemma {:induction false} InlinedClean(fs: seq<Field>)
    requires forall i :: 0 <= i < |fs| && Inline(fs[i]) ==> fs[i].inner.Some? && !fs[i].pointer
    ensures AllClean(InlinedIn(fs)) <==> forall i :: 0 <= i < |fs| ==> CleanField(fs[i])
  {
    if fs != [] {
      var front, f := fs[..|fs| - 1], fs[|fs| - 1];
      InlinedClean(front);
      assert forall i :: 0 <= i < |front| ==> fs[i] == front[i];
      if Inline(f) {
        AllCleanJoin(InlinedIn(front), [f.inner.value]);
        assert [f.inner.value][0] == f.inner.value;
      }
    }
  }

  lemma {:induction false} AllCleanJoin(a: seq<Struct>, b: seq<Struct>)
    ensures AllClean(a + b) <==> AllClean(a) && AllClean(b)
  {
    assert forall i :: 0 <= i < |a| ==> (a + b)[i] == a[i];
    assert forall i :: 0 <= i < |b| ==> (a + b)[|a| + i] == b[i];
  }

  /** The loop over the declarations of one struct; false when it panics. */
  method Visit(s: Struct, queue: seq<Struct>, out: seq<Field>) returns (ok: bool, queue': seq<Struct>, out': seq<Field>)
    requires s.fields != [] && NoneEmpty(queue)
    ensures if ok then Clean(s) <==> AllClean(InlinedIn(Listed(s))) else !Clean(s)
    ensures ok ==> out' == out + Listed(s) && queue' == queue + InlinedIn(Listed(s)) && NoneEmpty(queue')
  {
    var fs := Listed(s);
    queue', out' := queue, out;
    for i := 0 to |fs|
      invariant out' == out + fs[..i]
      invariant queue' == queue + InlinedIn(fs[..i]) && NoneEmpty(queue')
      invariant forall j :: 0 <= j < i && Inline(fs[j]) ==> fs[j].inner.Some? && !fs[j].pointer
    {
      assert fs[..i + 1][..i] == fs[..i];
      var f := fs[i];
      if Inline(f) {
        if f.inner.None? || f.pointer || f.inner.value.fields == [] {
          NotCleanField(f);
          return false, queue', out';
        }
        queue' := queue' + [f.inner.value];
      }
      out' := out' + [f];
    }
    assert fs[..|fs|] == fs;
    InlinedClean(fs);
    ok := true;
  }

  lemma {:induction false} NotCleanField(f: Field)
    requires Inline(f) && (f.inner.None? || f.pointer || f.inner.value.fields == [])
    ensures !CleanField(f)
  {
  }

  /** getFields: it panics exactly on structs that are not clean, and lists the worklist's fields of the others. */
  method GetFields(root: Struct) returns (fields: Option<seq<Field>>)
    ensures fields.Some? <==> Clean(root)
    ensures fields.Some? ==> fields.value == Worklist([root])
  {
    if root.fields == [] { return None; }
    hide Worklist, Listed, InlinedIn, Clean, TotalSize, AllClean;
    OneStruct(root);
    var queue := [root];
    var out: seq<Field> := [];
    while queue != []
      invariant NoneEmpty(queue) && (Clean(root) <==> AllClean(queue))
      invariant Worklist([root]) == out + Worklist(queue)
      decreases TotalSize(queue)
    {
      QueueStep(queue, out);
      var ok: bool;
      ok, queue, out := Visit(queue[0], queue[1..], out);
      if !ok { return None; }
    }
    WorklistEmpty();
    fields := Some(out);
  }

  /** Taking one struct off the queue. */
  lemma {:induction false} QueueStep(queue: seq<Struct>, out: seq<Field>)
    requires queue != []
    ensures var later := queue[1..] + InlinedIn(Listed(queue[0]));
            && out + Worklist(queue) == out + Listed(queue[0]) + Worklist(later)
            && TotalSize(later) < TotalSize(queue)
            && (AllClean(queue) <==> Clean(queue[0]) && AllClean(queue[1..]))
            && (AllClean(later) <==> AllClean(queue[1..]) && AllClean(InlinedIn(Listed(queue[0]))))
  {
    hide TotalSize, InlinedIn, Clean;
    var s := queue[0];
    WorklistStep(queue);
    SmallerQueue(queue);
    assert queue == [s] + queue[1..] && [s][0] == s;
    AllCleanJoin([s], queue[1..]);
    AllCleanJoin(queue[1..], InlinedIn(Listed(s)));
    assert out + (Listed(s) + Worklist(queue[1..] + InlinedIn(Listed(s)))) == out + Listed(s) + Worklist(queue[1..] + InlinedIn(Listed(s)));
  }

  lemma {:induction false} OneStruct(s: Struct)
    ensures AllClean([s]) <==> Clean(s)
  {
    assert [s][0] == s;
  }

  lemma {:induction false} WorklistEmpty()
    ensures Worklist([]) == [] && AllClean([])
  {
  }

  lemma {:induction false} SmallerQueue(queue: seq<Struct>)
    requires queue != []
    ensures TotalSize(queue[1..] + InlinedIn(Listed(queue[0]))) < TotalSize(queue)
  {
    BelowSmaller(queue[0]);
    TotalSizeJoin(queue[1..], InlinedIn(Listed(queue[0])));
  }

  /// ## Where fields are

  /** A field of Go: the positions of the embedded fields on the way, then its own.  Fields are promoted through
      embedded structs and embedded pointers to structs. */
  predicate Occurs(s: Struct, path: seq<nat>)
    decreases |path|
  {
    && path != [] && path[0] < |s.fields|
    && (|path| > 1 ==>
          var f := s.fields[path[0]];
          f.embedded && f.inner.Some? && Occurs(f.inner.value, path[1..]))
  }

  function FieldAt(s: Struct, path: seq<nat>): Field
    requires Occurs(s, path)
    decreases |path|
  {
    if |path| == 1 then s.fields[path[0]] else FieldAt(s.fields[path[0]].inner.value, path[1..])
  }

  /** The field stands among the listed fields of a struct reached through listed, inlined fields. */
  predicate Reached(s: Struct, path: seq<nat>)
    decreases |path|
  {
    && path != [] && path[0] < |Listed(s)|
    && (|path| > 1 ==>
          var f := Listed(s)[path[0]];
          Inline(f) && f.inner.Some? && Reached(f.inner.value, path[1..]))
  }

  lemma {:induction false} ReachedOccurs(s: Struct, path: seq<nat>)
    requires Reached(s, path)
    ensures Occurs(s, path)
    decreases |path|
  {
    if |path| > 1 { ReachedOccurs(Listed(s)[path[0]].inner.value, path[1..]); }
  }

  /** A struct on the worklist and the way to it; a field in the list and the way to it. */
  datatype Node = Node(struct: Struct, path: seq<nat>)
  datatype Found = Found(field: Field, path: seq<nat>)

  function Structs(nodes: seq<Node>): (r: seq<Struct>)
    ensures |r| == |nodes| && forall i :: 0 <= i < |r| ==> r[i] == nodes[i].struct
  {
    seq(|nodes|, i requires 0 <= i < |nodes| => nodes[i].struct)
  }

  function Fields(found: seq<Found>): (r: seq<Field>)
    ensures |r| == |found| && forall i :: 0 <= i < |r| ==> r[i] == found[i].field
  {
    seq(|found|, i requires 0 <= i < |found| => found[i].field)
  }

  function FoundIn(fs: seq<Field>, path: seq<nat>): seq<Found> {
    seq(|fs|, i requires 0 <= i < |fs| => Found(fs[i], path + [i]))
  }

  function InlinedAt(fs: seq<Field>, path: seq<nat>): (r: seq<Node>)
    ensures Structs(r) == InlinedIn(fs)
  {
    if fs == [] then []
    else
      var front := InlinedAt(fs[..|fs| - 1], path);
      var f := fs[|fs| - 1];
      if Inline(f) && f.inner.Some? then front + [Node(f.inner.value, path + [|fs| - 1])] else front
  }

  function Next(nodes: seq<Node>): seq<Node>
    requires nodes != []
  {
    nodes[1..] + InlinedAt(Listed(nodes[0].struct), nodes[0].path)
  }

  lemma {:induction false} NextSmaller(nodes: seq<Node>)
    requires nodes != []
    ensures Structs(Next(nodes)) == Structs(nodes)[1..] + InlinedIn(Listed(Structs(nodes)[0]))
    ensures TotalSize(Structs(Next(nodes))) < TotalSize(Structs(nodes))
  {
    SmallerQueue(Structs(nodes));
  }

  /** The worklist with the way to each field. */
  function Finds(nodes: seq<Node>): seq<Found>
    decreases TotalSize(Structs(nodes))
  {
    if nodes == [] then []
    else
      NextSmaller(nodes);
      FoundIn(Listed(nodes[0].struct), nodes[0].path) + Finds(Next(nodes))
  }

  lemma {:induction false} FindsAre(nodes: seq<Node>)
    ensures Fields(Finds(nodes)) == Worklist(Structs(nodes))
    decreases TotalSize(Structs(nodes))
  {
    if nodes == [] {
      WorklistEmpty();
    } else {
      NextSmaller(nodes);
      FindsStep(nodes);
      WorklistStep(Structs(nodes));
      FieldsJoin(Listed(nodes[0].struct), nodes[0].path, Finds(Next(nodes)));
      hide Finds, Worklist, TotalSize, Next, FoundIn, Listed, Fields, InlinedAt, InlinedIn;
      FindsAre(Next(nodes));
    }
  }

  lemma {:induction false} FieldsJoin(fs: seq<Field>, path: seq<nat>, rest: seq<Found>)
    ensures Fields(FoundIn(fs, path) + rest) == fs + Fields(rest)
  {
  }

  /// ## The worklist is complete, sound and in order

  lemma {:induction false} InlinedNode(fs: seq<Field>, path: seq<nat>, i: nat)
    requires i < |fs| && Inline(fs[i]) && fs[i].inner.Some?
    ensures Node(fs[i].inner.value, path + [i]) in InlinedAt(fs, path)
  {
    if i < |fs| - 1 { InlinedNode(fs[..|fs| - 1], path, i); }
  }

  lemma {:induction false} NodeInlined(fs: seq<Field>, path: seq<nat>, n: Node) returns (i: nat)
    requires n in InlinedAt(fs, path)
    ensures i < |fs| && Inline(fs[i]) && fs[i].inner.Some? && n == Node(fs[i].inner.value, path + [i])
  {
    i := |fs| - 1;
    if n in InlinedAt(fs[..|fs| - 1], path) { i := NodeInlined(fs[..|fs| - 1], path, n); }
  }

  lemma {:induction false} FindsStep(nodes: seq<Node>)
    requires nodes != []
    ensures Finds(nodes) == FoundIn(Listed(nodes[0].struct), nodes[0].path) + Finds(Next(nodes))
    ensures forall n :: n in Next(nodes) <==> n in nodes[1..] || n in InlinedAt(Listed(nodes[0].struct), nodes[0].path)
    ensures forall n :: n in nodes <==> n == nodes[0] || n in nodes[1..]
  {
    assert nodes == [nodes[0]] + nodes[1..];
  }

  lemma {:induction false} FindsComplete(nodes: seq<Node>, n: Node, r: seq<nat>)
    requires n in nodes && Reached(n.struct, r)
    ensures Occurs(n.struct, r) && Found(FieldAt(n.struct, r), n.path + r) in Finds(nodes)
    decreases TotalSize(Structs(nodes))
  {
    ReachedOccurs(n.struct, r);
    NextSmaller(nodes);
    FindsStep(nodes);
    hide Finds, InlinedAt, TotalSize, Structs, Next, FoundIn, Listed;
    if n != nodes[0] {
      FindsComplete(Next(nodes), n, r);
    } else if |r| == 1 {
      ListedFound(n, r);
    } else {
      var child := ChildEntry(n, r);
      FindsComplete(Next(nodes), child, r[1..]);
    }
  }

  /** The node of the first step. */
  lemma {:induction false} ChildEntry(n: Node, r: seq<nat>) returns (child: Node)
    requires Reached(n.struct, r) && Occurs(n.struct, r) && |r| > 1
    ensures child in InlinedAt(Listed(n.struct), n.path) && Reached(child.struct, r[1..]) && Occurs(child.struct, r[1..])
    ensures FieldAt(child.struct, r[1..]) == FieldAt(n.struct, r) && child.path + r[1..] == n.path + r
  {
    child := Node(Listed(n.struct)[r[0]].inner.value, n.path + [r[0]]);
    InlinedNode(Listed(n.struct), n.path, r[0]);
    ReachedOccurs(child.struct, r[1..]);
    assert r == [r[0]] + r[1..];
  }

  lemma {:induction false} ListedFound(n: Node, r: seq<nat>)
    requires Reached(n.struct, r) && Occurs(n.struct, r) && |r| == 1
    ensures Found(FieldAt(n.struct, r), n.path + r) in FoundIn(Listed(n.struct), n.path)
  {
    assert r == [r[0]];
    assert FoundIn(Listed(n.struct), n.path)[r[0]] == Found(FieldAt(n.struct, r), n.path + r);
  }

  /** The entry is a reached field of the node. */
  predicate EntryOf(n: Node, e: Found, r: seq<nat>) {
    Reached(n.struct, r) && Occurs(n.struct, r) && e == Found(FieldAt(n.struct, r), n.path + r)
  }

  lemma {:induction false} FindsSound(nodes: seq<Node>, e: Found) returns (n: Node, r: seq<nat>)
    requires e in Finds(nodes)
    ensures n in nodes && EntryOf(n, e, r)
    decreases TotalSize(Structs(nodes))
  {
    assert nodes != [];
    NextSmaller(nodes);
    FindsStep(nodes);
    var head := nodes[0];
    if e in FoundIn(Listed(head.struct), head.path) {
      n := head;
      r := EntryListed(head, e);
    } else {
      hide Finds, InlinedAt, TotalSize, Structs, Next, FoundIn;
      n, r := FindsSound(Next(nodes), e);
      if n !in nodes[1..] {
        var i := NodeInlined(Listed(head.struct), head.path, n);
        EntryAbove(head, i, n, e, r);
        n, r := head, [i] + r;
      }
    }
  }

  lemma {:induction false} EntryListed(n: Node, e: Found) returns (r: seq<nat>)
    requires e in FoundIn(Listed(n.struct), n.path)
    ensures EntryOf(n, e, r)
  {
    var i :| 0 <= i < |Listed(n.struct)| && FoundIn(Listed(n.struct), n.path)[i] == e;
    r := [i];
    assert Listed(n.struct)[i] == n.struct.fields[i];
  }

  lemma {:induction false} EntryAbove(n: Node, i: nat, child: Node, e: Found, r: seq<nat>)
    requires i < |Listed(n.struct)| && Inline(Listed(n.struct)[i]) && Listed(n.struct)[i].inner.Some?
    requires child == Node(Listed(n.struct)[i].inner.value, n.path + [i]) && EntryOf(child, e, r)
    ensures EntryOf(n, e, [i] + r)
  {
    assert ([i] + r)[1..] == r;
    assert child.path + r == n.path + ([i] + r);
  }

  /** Nodes come by depth, over at most two depths. */
  predicate Levelled(nodes: seq<Node>) {
    forall i, j :: 0 <= i < j < |nodes| ==> |nodes[i].path| <= |nodes[j].path| <= |nodes[i].path| + 1
  }

  lemma {:induction false} InlinedDepth(fs: seq<Field>, path: seq<nat>)
    ensures forall n :: n in InlinedAt(fs, path) ==> |n.path| == |path| + 1
  {
    if fs != [] { InlinedDepth(fs[..|fs| - 1], path); }
  }

  lemma {:induction false} NextLevelled(nodes: seq<Node>)
    requires nodes != [] && Levelled(nodes)
    ensures Levelled(Next(nodes)) && forall n :: n in Next(nodes) ==> |n.path| >= |nodes[0].path|
  {
    var more := InlinedAt(Listed(nodes[0].struct), nodes[0].path);
    InlinedDepth(Listed(nodes[0].struct), nodes[0].path);
    assert forall i :: 0 <= i < |more| ==> more[i] in more;
    assert forall i :: 1 <= i < |nodes| ==> nodes[1..][i - 1] == nodes[i];
  }

  lemma {:induction false} FindsDeep(nodes: seq<Node>, depth: nat)
    requires forall n :: n in nodes ==> |n.path| >= depth
    ensures forall e :: e in Finds(nodes) ==> |e.path| > depth
  {
    forall e | e in Finds(nodes) ensures |e.path| > depth {
      var n, r := FindsSound(nodes, e);
    }
  }

  /** Fields are listed by depth of embedding. */
  lemma {:induction false} FindsByDepth(nodes: seq<Node>)
    requires Levelled(nodes)
    ensures forall i, j :: 0 <= i < j < |Finds(nodes)| ==> |Finds(nodes)[i].path| <= |Finds(nodes)[j].path|
    decreases TotalSize(Structs(nodes))
  {
    if nodes != [] {
      NextSmaller(nodes);
      NextLevelled(nodes);
      FindsByDepth(Next(nodes));
      FindsDeep(Next(nodes), |nodes[0].path|);
      var first, rest := FoundIn(Listed(nodes[0].struct), nodes[0].path), Finds(Next(nodes));
      assert forall j :: 0 <= j < |rest| ==> rest[j] in rest;
      assert forall i :: 0 <= i < |first| ==> |first[i].path| == |nodes[0].path| + 1;
    }
  }

  /// ## Selectors

  function FirstFound(found: seq<Found>, name: string): (r: Option<Found>)
    ensures r.Some? ==> r.value in found && r.value.field.name == name
    ensures r.None? ==> forall e :: e in found ==> e.field.name != name
  {
    if found == [] then None
    else if found[0].field.name == name then Some(found[0])
    else FirstFound(found[1..], name)
  }

  /** What the translation of a selector on `root` finds, and where. */
  function Resolved(root: Struct, name: string): Option<Found> {
    FirstFound(Finds([Node(root, [])]), name)
  }

  lemma {:induction false} FirstIsFirst(found: seq<Found>, name: string, e: Found)
    requires e in found && e.field.name == name
    requires forall i, j :: 0 <= i < j < |found| ==> |found[i].path| <= |found[j].path|
    ensures FirstFound(found, name).Some? && |FirstFound(found, name).value.path| <= |e.path|
  {
    if found[0].field.name != name {
      assert found == [found[0]] + found[1..];
      FirstIsFirst(found[1..], name, e);
    } else {
      var j :| 0 <= j < |found| && found[j] == e;
    }
  }

  /** The field that a Go selector denotes: the one at the least depth, and the only one there. */
  ghost predicate Denoted(root: Struct, name: string, path: seq<nat>) {
    && Occurs(root, path) && FieldAt(root, path).name == name
    && forall q :: Occurs(root, q) && FieldAt(root, q).name == name ==> |q| > |path| || q == path
  }

  /** What the translation finds is a field of Go of that name. */
  lemma {:induction false} ResolvedOccurs(root: Struct, name: string)
    requires Resolved(root, name).Some?
    ensures var e := Resolved(root, name).value;
            Reached(root, e.path) && Occurs(root, e.path) && FieldAt(root, e.path) == e.field && e.field.name == name
  {
    var n, r := FindsSound([Node(root, [])], Resolved(root, name).value);
    assert n == Node(root, []) && [] + r == r;
  }

  /** The translation finds the field that Go denotes exactly when that field stands in the listed part of a struct
      reached through listed, inlined fields only. */
  lemma {:induction false} SelectorIff(root: Struct, name: string, path: seq<nat>)
    requires Denoted(root, name, path)
    ensures (Resolved(root, name).Some? && Resolved(root, name).value.path == path) <==> Reached(root, path)
  {
    var start := [Node(root, [])];
    if Resolved(root, name).Some? { ResolvedOccurs(root, name); }
    if Reached(root, path) {
      FindsComplete(start, Node(root, []), path);
      assert [] + path == path;
      FindsByDepth(start);
      FirstIsFirst(Finds(start), name, Found(FieldAt(root, path), path));
    }
  }

  /** Structs whose declarations each name one field and whose embedded structs are all inlined, at any depth. */
  predicate Plain(s: Struct) {
    s.declarations >= |s.fields| && forall i :: 0 <= i < |s.fields| ==> PlainField(s.fields[i])
  }

  predicate PlainField(f: Field) {
    f.embedded && f.inner.Some? && f.inner.value.fields != [] ==> f.jsonName == "" && Plain(f.inner.value)
  }

  lemma {:induction false} PlainReached(s: Struct, path: seq<nat>)
    requires Plain(s) && Occurs(s, path)
    ensures Reached(s, path)
    decreases |path|
  {
    if |path| > 1 {
      assert PlainField(s.fields[path[0]]);
      PlainReached(s.fields[path[0]].inner.value, path[1..]);
    }
  }

  /** A field that is not reached. */
  lemma {:induction false} MissedField(s: Struct) returns (path: seq<nat>)
    requires !Plain(s)
    ensures Occurs(s, path) && !Reached(s, path)
    decreases s
  {
    if s.declarations < |s.fields| {
      path := [|s.fields| - 1];
    } else {
      var i :| 0 <= i < |s.fields| && !PlainField(s.fields[i]);
      var inner := s.fields[i].inner.value;
      if s.fields[i].jsonName != "" {
        path := [i, 0];
        assert path[1..] == [0];
      } else {
        var rest := MissedField(inner);
        path := [i] + rest;
        assert path[1..] == rest;
      }
    }
  }

  /** All fields are reached exactly in plain structs. */
  lemma {:induction false} AllReachedIff(s: Struct)
    ensures Plain(s) <==> forall path :: Occurs(s, path) ==> Reached(s, path)
  {
    if Plain(s) {
      forall path | Occurs(s, path) ensures Reached(s, path) { PlainReached(s, path); }
    } else {
      var path := MissedField(s);
    }
  }

  lemma {:induction false} FirstFieldFound(found: seq<Found>, name: string)
    ensures FirstNamed(Fields(found), name) == match FirstFound(found, name) case Some(e) => Some(e.field) case None => None
  {
    if found != [] {
      assert Fields(found)[1..] == Fields(found[1..]);
      FirstFieldFound(found[1..], name);
    }
  }

  function FirstNamed(fs: seq<Field>, name: string): Option<Field> {
    if fs == [] then None
    else if fs[0].name == name then Some(fs[0])
    else FirstNamed(fs[1..], name)
  }

  /** The translation of a selector: None when it panics, because the struct is not clean or the name is not found. */
  method Selector(root: Struct, name: string) returns (r: Option<Field>)
    ensures r == if Clean(root) && Resolved(root, name).Some? then Some(Resolved(root, name).value.field) else None
  {
    var fields := GetFields(root);
    if fields == None { return None; }
    var start := [Node(root, [])];
    assert Structs(start) == [root];
    FindsAre(start);
    FirstFieldFound(Finds(start), name);
    for i := 0 to |fields.value|
      invariant FirstNamed(fields.value, name) == FirstNamed(fields.value[i..], name)
    {
      assert fields.value[i..][1..] == fields.value[i + 1..];
      if fields.value[i].name == name { return Some(fields.value[i]); }
    }
    r := None;
  }

  /** A declaration of two fields hides the last field of its struct: the loop runs over declarations. */
  lemma {:induction false} GroupedFieldMissed(f: Field, g: Field)
    requires f.name != g.name && !f.embedded && !g.embedded
    ensures var s := Struct([f, g], 1); Denoted(s, g.name, [1]) && Resolved(s, g.name) == None
  {
    var s := Struct([f, g], 1);
    forall q | Occurs(s, q) && FieldAt(s, q).name == g.name ensures q == [1] {
      assert |q| == 1 && q == [q[0]];
    }
    if Resolved(s, g.name).Some? { ResolvedOccurs(s, g.name); }
  }

  lemma {:induction false} OneStep(f: Field, q: seq<nat>)
    requires Occurs(Struct([f], 1), q) && !f.embedded
    ensures q == [0]
  {
    assert q == [q[0]] + q[1..];
  }

  /** A struct embedded under a JSON name hides the fields that it promotes. */
  lemma {:induction false} NamedEmbeddingMissed(f: Field, name: string, jsonName: string, pointer: bool)
    requires f.name != name && jsonName != "" && !f.embedded
    ensures var s := Struct([Field(name, true, jsonName, Some(Struct([f], 1)), pointer)], 1);
            Denoted(s, f.name, [0, 0]) && Resolved(s, f.name) == None
  {
    var s := Struct([Field(name, true, jsonName, Some(Struct([f], 1)), pointer)], 1);
    assert [0, 0][1..] == [0];
    assert Occurs(s, [0, 0]);
    forall q | Occurs(s, q) && FieldAt(s, q).name == f.name ensures q == [0, 0] {
      assert |q| > 1 && Occurs(Struct([f], 1), q[1..]);
      OneStep(f, q[1..]);
      assert q == [q[0]] + q[1..];
    }
    if Resolved(s, f.name).Some? { ResolvedOccurs(s, f.name); }
  }
}
