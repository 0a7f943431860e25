/** Flattening a package and its dependencies: a worklist over an import graph that may have cycles. */
module PackageTree {

  /** Packages by path, each with the paths it imports. */
  type Graph = map<string, set<string>>

  predicate Closed(g: Graph) {
    forall p, q :: p in g && q in g[p] ==> q in g
  }

  /** A chain of imports. */
  predicate Chain(g: Graph, path: seq<string>)
    requires Closed(g)
  {
    && path != [] && path[0] in g
    && (|path| > 1 ==> path[1] in g[path[0]] && Chain(g, path[1..]))
  }

  ghost predicate Reaches(g: Graph, root: string, p: string)
    requires Closed(g)
  {
    exists path :: Chain(g, path) && path[0] == root && path[|path| - 1] == p
  }

  lemma {:induction false} ChainSnoc(g: Graph, path: seq<string>, q: string)
    requires Closed(g) && Chain(g, path) && path[|path| - 1] in g && q in g[path[|path| - 1]]
    ensures Chain(g, path + [q])
    decreases |path|
  {
    if |path| == 1 {
      assert (path + [q])[1..] == [q] && [q][1..] == [];
    } else {
      assert (path + [q])[1..] == path[1..] + [q];
      ChainSnoc(g, path[1..], q);
    }
  }

  lemma {:induction false} ReachesOn(g: Graph, root: string, p: string, q: string)
    requires Closed(g) && Reaches(g, root, p) && p in g && q in g[p]
    ensures Reaches(g, root, q)
  {
    var path :| Chain(g, path) && path[0] == root && path[|path| - 1] == p;
    ChainSnoc(g, path, q);
    assert (path + [q])[0] == root && (path + [q])[|path|] == q;
  }

  /** A set that holds the start of a chain and is closed under imports holds its end. */
  lemma {:induction false} StaysInside(g: Graph, inside: set<string>, path: seq<string>)
    requires Closed(g) && Chain(g, path) && path[0] in inside
    requires forall p :: p in inside && p in g ==> g[p] <= inside
    ensures path[|path| - 1] in inside
    decreases |path|
  {
    if |path| > 1 { StaysInside(g, inside, path[1..]); }
  }

  /** mkPkgTree: exactly the packages that the root reaches, each visited once. */
  method MkPkgTree(g: Graph, root: string) returns (tree: set<string>)
    requires Closed(g) && root in g
    ensures forall p :: p in tree <==> Reaches(g, root, p)
  {
    tree := {};
    var toVisit := [root];
    assert Chain(g, [root]) && [root][0] == root;
    while toVisit != []
      invariant tree <= g.Keys
      invariant forall p :: p in toVisit ==> p in g && Reaches(g, root, p)
      invariant forall p :: p in tree ==> Reaches(g, root, p)
      invariant root in tree || root in toVisit
      invariant forall p, q :: p in tree && q in g[p] ==> q in tree || q in toVisit
      decreases g.Keys - tree, |toVisit|
    {
      var pkg := toVisit[0];
      ghost var before := toVisit;
      toVisit := toVisit[1..];
      assert forall p :: p in before <==> p == pkg || p in toVisit;
      if pkg !in tree {
        tree := tree + {pkg};
        ghost var after := toVisit;
        var left := g[pkg];
        while left != {}
          invariant left <= g[pkg]
          invariant forall p :: p in toVisit <==> p in after || p in g[pkg] - left
          decreases |left|
        {
          var imported :| imported in left;
          left := left - {imported};
          toVisit := toVisit + [imported];
        }
        forall p | p in toVisit ensures p in g && Reaches(g, root, p) {
          if p !in after { ReachesOn(g, root, pkg, p); }
        }
      }
    }
    forall p | Reaches(g, root, p) ensures p in tree {
      var path :| Chain(g, path) && path[0] == root && path[|path| - 1] == p;
      StaysInside(g, tree, path);
    }
  }
}
