// Relationship paths: the backtracking depth-first search that lists the connection chains
// between an employee and the other entities.
// Source: ml-service/graphsage/path_extractor.py

module Paths {
  import opened Common
  import opened GraphSchema
  import Subgraph

  // One step of a path: the node stepped to, and the position in the edge list of the edge walked.
  datatype Hop = Hop(node: Id, occ: nat)

  type Path = seq<Hop>

  datatype Query = Query(source: Id, target: Option<Id>, nodes: map<Id, Node>, edges: seq<Edge>, maxDepth: int)

  // ---------------------------------------------------------------------------
  // Reference definition: simple paths
  // ---------------------------------------------------------------------------

  // an absent target and an empty target string are alike: the original tests truthiness
  predicate Targeted(q: Query) {
    q.target.Some? && q.target.value != ""
  }

  predicate Legal(edges: seq<Edge>, u: Id, h: Hop) {
    h.occ < |edges| && Subgraph.Joins(edges[h.occ], u, h.node)
  }

  function Stop(source: Id, p: Path, i: nat): Id
    requires i <= |p|
  {
    if i == 0 then source else p[i - 1].node
  }

  // s leaves `current` along existing edges, meets no node twice and none of `visited`
  ghost predicate FreshChain(edges: seq<Edge>, current: Id, s: Path, visited: set<Id>) {
    && (forall i :: 0 <= i < |s| ==> Legal(edges, Stop(current, s, i), s[i]))
    && (forall i :: 0 <= i < |s| ==> s[i].node !in visited)
    && (forall i, j :: 0 <= i < j < |s| ==> s[i].node != s[j].node)
  }

  ghost predicate SimplePath(q: Query, p: Path) {
    FreshChain(q.edges, q.source, p, {q.source})
  }

  predicate IsGoal(q: Query, v: Id) {
    if Targeted(q) then v == q.target.value
    else v in q.nodes && (q.nodes[v].kind == Consumer || q.nodes[v].kind == Account) && v != q.source
  }

  predicate Wanted(q: Query, p: Path) {
    0 < |p| <= q.maxDepth && IsGoal(q, p[|p| - 1].node)
  }

  // ---------------------------------------------------------------------------
  // The search as a function
  // ---------------------------------------------------------------------------

  function Hops(edges: seq<Edge>, u: Id): seq<Hop> {
    if edges == [] then []
    else
      var n := |edges| - 1;
      Hops(edges[..n], u)
      + (if edges[n].source == u then [Hop(edges[n].target, n)] else [])
      + (if edges[n].target == u then [Hop(edges[n].source, n)] else [])
  }

  function Budget(q: Query, depth: nat): nat {
    if depth > q.maxDepth then 0 else q.maxDepth - depth + 1
  }

  function PathsFrom(q: Query, current: Id, path: Path, visited: set<Id>): seq<Path>
    decreases Budget(q, |path|), 1, 0
  {
    if |path| > q.maxDepth then []
    else if Targeted(q) && current == q.target.value && |path| > 0 then [path]
    else
      (if !Targeted(q) && |path| > 0 && IsGoal(q, current) then [path] else [])
      + Branches(q, Hops(q.edges, current), path, visited)
  }

  function Branches(q: Query, hops: seq<Hop>, path: Path, visited: set<Id>): seq<Path>
    requires |path| <= q.maxDepth
    decreases Budget(q, |path|), 0, |hops|
  {
    if hops == [] then []
    else
      var h := hops[|hops| - 1];
      Branches(q, hops[..|hops| - 1], path, visited)
      + (if h.node in visited then [] else PathsFrom(q, h.node, path + [h], visited + {h.node}))
  }

  lemma {:induction false} BranchesSnoc(q: Query, hops: seq<Hop>, i: nat, path: Path, visited: set<Id>)
    requires |path| <= q.maxDepth && i < |hops|
    ensures Branches(q, hops[..i + 1], path, visited) ==
            Branches(q, hops[..i], path, visited)
            + (if hops[i].node in visited then []
               else PathsFrom(q, hops[i].node, path + [hops[i]], visited + {hops[i].node}))
  {
    assert hops[..i + 1][..i] == hops[..i];
  }

  function AllPaths(q: Query): seq<Path> {
    PathsFrom(q, q.source, [], {q.source})
  }

  // ---------------------------------------------------------------------------
  // The search as it runs: one shared visited set, one growing result list
  // ---------------------------------------------------------------------------

  ghost predicate Indexes(adj: map<Id, seq<Hop>>, edges: seq<Edge>) {
    forall u :: Hops(edges, u) == if u in adj then adj[u] else []
  }

  class RelationshipPathExtractor {
    var visited: set<Id>
    var discovered: seq<Path>

    constructor ()
    {
      visited, discovered := {}, [];
    }

    method BuildAdjacency(edges: seq<Edge>) returns (adj: map<Id, seq<Hop>>)
      ensures Indexes(adj, edges)
    {
      adj := map[];
      for i := 0 to |edges|
        invariant Indexes(adj, edges[..i])
      {
        ghost var before := adj;
        var e := edges[i];
        assert edges[..i + 1][..i] == edges[..i];
        adj := adj[e.source := (if e.source in adj then adj[e.source] else []) + [Hop(e.target, i)]];
        adj := adj[e.target := (if e.target in adj then adj[e.target] else []) + [Hop(e.source, i)]];
        forall u ensures Hops(edges[..i + 1], u) == if u in adj then adj[u] else [] {
          assert Hops(edges[..i], u) == if u in before then before[u] else [];
        }
      }
      assert edges[..|edges|] == edges;
    }

    method Dfs(q: Query, adj: map<Id, seq<Hop>>, current: Id, path: Path, depth: nat)
      requires depth == |path|
      requires Indexes(adj, q.edges)
      modifies this
      ensures visited == old(visited)
      ensures discovered == old(discovered) + PathsFrom(q, current, path, old(visited))
      decreases Budget(q, depth), 1
    {
      ghost var wanted := PathsFrom(q, current, path, visited);
      if depth > q.maxDepth {
        assert wanted == [];
        return;
      }
      if Targeted(q) && current == q.target.value && |path| > 0 {
        discovered := discovered + [path];
        assert wanted == [path];
        return;
      } else if !Targeted(q) && |path| > 0 && current in q.nodes {
        var kind := q.nodes[current].kind;
        if (kind == Consumer || kind == Account) && current != q.source {
          discovered := discovered + [path];
        }
      }
      ghost var own := if !Targeted(q) && |path| > 0 && IsGoal(q, current) then [path] else [];
      var hops := if current in adj then adj[current] else [];
      assert Hops(q.edges, current) == hops;
      ghost var below := Branches(q, hops, path, visited);
      assert wanted == own + below;
      assert discovered == old(discovered) + own;
      Explore(q, adj, hops, path, depth);
      ConcatAssociative(old(discovered), own, below);
    }

    // the loop over the neighbours of the current node
    method Explore(q: Query, adj: map<Id, seq<Hop>>, hops: seq<Hop>, path: Path, depth: nat)
      requires depth == |path| <= q.maxDepth
      requires Indexes(adj, q.edges)
      modifies this
      ensures visited == old(visited)
      ensures discovered == old(discovered) + Branches(q, hops, path, old(visited))
      decreases Budget(q, depth), 0
    {
      ghost var found, seen := discovered, visited;
      for i := 0 to |hops|
        invariant visited == seen
        invariant discovered == found + Branches(q, hops[..i], path, seen)
      {
        var h := hops[i];
        ghost var done := Branches(q, hops[..i], path, seen);
        BranchesSnoc(q, hops, i, path, seen);
        if h.node !in visited {
          ghost var deeper := PathsFrom(q, h.node, path + [h], seen + {h.node});
          visited := visited + {h.node};
          Dfs(q, adj, h.node, path + [h], depth + 1);
          visited := visited - {h.node};
          assert visited == seen;
          ConcatAssociative(found, done, deeper);
        }
      }
      assert hops[..|hops|] == hops;
    }

    method FindPaths(q: Query) returns (top: seq<Path>)
      modifies this
      ensures visited == {q.source} && discovered == AllPaths(q)
      ensures top == if |AllPaths(q)| <= 20 then AllPaths(q) else AllPaths(q)[..20]
    {
      var adj := BuildAdjacency(q.edges);
      visited := {q.source};
      discovered := [];
      Dfs(q, adj, q.source, [], 0);
      top := if |discovered| <= 20 then discovered else discovered[..20];
    }
  }

  // ---------------------------------------------------------------------------
  // What the search lists
  // ---------------------------------------------------------------------------

  // s continues from `current` along edges, through nodes that are new each time
  ghost predicate Continues(edges: seq<Edge>, current: Id, s: Path, visited: set<Id>)
    decreases |s|
  {
    s == [] || (Legal(edges, current, s[0]) && s[0].node !in visited
                && Continues(edges, s[0].node, s[1..], visited + {s[0].node}))
  }

  ghost predicate EntersBranch(q: Query, path: Path, visited: set<Id>, p: Path) {
    && path <= p && |path| < |p| && p[|path|].node !in visited
    && Continues(q.edges, p[|path|].node, p[|path| + 1..], visited + {p[|path|].node})
    && Wanted(q, p)
  }

  lemma {:induction false} HopsExact(edges: seq<Edge>, u: Id)
    ensures forall h :: h in Hops(edges, u) <==> Legal(edges, u, h)
    ensures forall i, j :: 0 <= i < j < |Hops(edges, u)| && Hops(edges, u)[i].node != u ==>
              Hops(edges, u)[i] != Hops(edges, u)[j]
  {
    if edges != [] {
      var n := |edges| - 1;
      HopsExact(edges[..n], u);
      assert forall h :: h in Hops(edges[..n], u) ==> h.occ < n;
      forall h ensures h in Hops(edges, u) <==> Legal(edges, u, h) {
        if h.occ < n {
          assert edges[..n][h.occ] == edges[h.occ];
        }
      }
    }
  }

  lemma {:induction false} LastOfContinuation(edges: seq<Edge>, current: Id, s: Path, visited: set<Id>)
    requires Continues(edges, current, s, visited) && s != []
    decreases |s|
    ensures s[|s| - 1].node !in visited
  {
    if |s| > 1 {
      LastOfContinuation(edges, s[0].node, s[1..], visited + {s[0].node});
    }
  }

  // a wanted continuation is the path so far, or enters a branch
  lemma {:induction false} ContinuationSplits(q: Query, current: Id, path: Path, visited: set<Id>, p: Path)
    ensures path <= p && Continues(q.edges, current, p[|path|..], visited) && Wanted(q, p) <==>
            (p == path && Wanted(q, path)) || (EntersBranch(q, path, visited, p) && Legal(q.edges, current, p[|path|]))
  {
    if path <= p {
      if p == path {
        assert p[|path|..] == [];
      } else {
        assert p[|path|..][0] == p[|path|] && p[|path|..][1..] == p[|path| + 1..];
      }
    }
  }

  // nothing wanted goes on from the target
  lemma {:induction false} NothingPastTarget(q: Query, current: Id, path: Path, visited: set<Id>, p: Path)
    requires Targeted(q) && current == q.target.value && current in visited
    ensures !EntersBranch(q, path, visited, p)
  {
    if EntersBranch(q, path, visited, p) && |p| > |path| + 1 {
      LastOfContinuation(q.edges, p[|path|].node, p[|path| + 1..], visited + {p[|path|].node});
    }
  }

  lemma {:induction false} PathsFromExact(q: Query, current: Id, path: Path, visited: set<Id>, p: Path)
    requires current in visited && (path == [] ==> current == q.source)
             && (path != [] ==> current == path[|path| - 1].node)
    ensures p in PathsFrom(q, current, path, visited) <==>
            path <= p && Continues(q.edges, current, p[|path|..], visited) && Wanted(q, p)
    decreases Budget(q, |path|), 1, 0
  {
    ContinuationSplits(q, current, path, visited, p);
    if |path| <= q.maxDepth {
      if Targeted(q) && current == q.target.value {
        NothingPastTarget(q, current, path, visited, p);
      }
      HopsExact(q.edges, current);
      BranchesExact(q, Hops(q.edges, current), path, visited, p);
    }
  }

  lemma {:induction false} BranchEntry(q: Query, path: Path, h: Hop, visited: set<Id>, p: Path)
    requires h.node !in visited
    ensures EntersBranch(q, path, visited, p) && p[|path|] == h <==>
            path + [h] <= p && Continues(q.edges, h.node, p[|path + [h]|..], visited + {h.node}) && Wanted(q, p)
  {
    assert path + [h] <= p <==> path <= p && |path| < |p| && p[|path|] == h;
  }

  lemma {:induction false} BranchesExact(q: Query, hops: seq<Hop>, path: Path, visited: set<Id>, p: Path)
    requires |path| <= q.maxDepth
    ensures p in Branches(q, hops, path, visited) <==> EntersBranch(q, path, visited, p) && p[|path|] in hops
    decreases Budget(q, |path|), 0, |hops|
  {
    if hops != [] {
      var n := |hops| - 1;
      var h := hops[n];
      assert hops == hops[..n] + [h];
      BranchesExact(q, hops[..n], path, visited, p);
      if h.node !in visited {
        PathsFromExact(q, h.node, path + [h], visited + {h.node}, p);
        BranchEntry(q, path, h, visited, p);
      }
    }
  }

  // The search starts a branch once for each usable edge, so no list of steps is found twice.
  lemma {:induction false} PathsFromDistinct(q: Query, current: Id, path: Path, visited: set<Id>)
    requires current in visited && (path == [] ==> current == q.source)
             && (path != [] ==> current == path[|path| - 1].node)
    ensures NoDuplicates(PathsFrom(q, current, path, visited))
    decreases Budget(q, |path|), 1, 0
  {
    if |path| <= q.maxDepth {
      HopsExact(q.edges, current);
      BranchesDistinct(q, Hops(q.edges, current), current, path, visited);
      BranchesExact(q, Hops(q.edges, current), path, visited, path);
    }
  }

  lemma {:induction false} BranchesDistinct(q: Query, hops: seq<Hop>, current: Id, path: Path, visited: set<Id>)
    requires |path| <= q.maxDepth && current in visited
    requires forall i, j :: 0 <= i < j < |hops| && hops[i].node != current ==> hops[i] != hops[j]
    ensures NoDuplicates(Branches(q, hops, path, visited))
    decreases Budget(q, |path|), 0, |hops|
  {
    if hops != [] {
      var n := |hops| - 1;
      var h := hops[n];
      BranchesDistinct(q, hops[..n], current, path, visited);
      if h.node !in visited {
        var old', new' := Branches(q, hops[..n], path, visited), PathsFrom(q, h.node, path + [h], visited + {h.node});
        PathsFromDistinct(q, h.node, path + [h], visited + {h.node});
        assert h !in hops[..n];
        forall p | p in old' ensures p !in new' {
          BranchesExact(q, hops[..n], path, visited, p);
          assert p[|path|] != h;
          PathsFromExact(q, h.node, path + [h], visited + {h.node}, p);
        }
        NoDuplicatesConcat(old', new');
      }
    }
  }

  lemma {:induction false} FreshChainCons(edges: seq<Edge>, current: Id, s: Path, visited: set<Id>)
    requires s != []
    ensures FreshChain(edges, current, s, visited) <==>
            Legal(edges, current, s[0]) && s[0].node !in visited
            && FreshChain(edges, s[0].node, s[1..], visited + {s[0].node})
  {
    var v, t := s[0].node, s[1..];
    forall i | 0 <= i < |t| ensures t[i] == s[i + 1] && Stop(v, t, i) == Stop(current, s, i + 1) {
      if i > 0 {
        assert t[i - 1] == s[i];
      }
    }
    assert Stop(current, s, 0) == current;
    if FreshChain(edges, current, s, visited) {
      assert Legal(edges, Stop(current, s, 0), s[0]);
    }
    if Legal(edges, current, s[0]) && v !in visited && FreshChain(edges, v, t, visited + {v}) {
      forall i | 0 <= i < |s|
        ensures Legal(edges, Stop(current, s, i), s[i]) && s[i].node !in visited && (i > 0 ==> s[i].node != v)
      {
        if i > 0 {
          assert t[i - 1] == s[i] && Legal(edges, Stop(v, t, i - 1), t[i - 1]);
        }
      }
      forall i, j | 0 <= i < j < |s| ensures s[i].node != s[j].node {
        if i > 0 {
          assert t[i - 1] == s[i] && t[j - 1] == s[j];
        }
      }
    }
  }

  lemma {:induction false} ContinuesIsFresh(edges: seq<Edge>, current: Id, s: Path, visited: set<Id>)
    ensures Continues(edges, current, s, visited) <==> FreshChain(edges, current, s, visited)
    decreases |s|
  {
    if s != [] {
      FreshChainCons(edges, current, s, visited);
      ContinuesIsFresh(edges, s[0].node, s[1..], visited + {s[0].node});
    }
  }

  // ---------------------------------------------------------------------------
  // The order
  // ---------------------------------------------------------------------------

  // p is listed before r: r goes on where p ends, or they part and p goes on along an earlier edge
  ghost predicate Before(p: Path, r: Path) {
    exists k :: 0 <= k <= |p| && k < |r| && p[..k] == r[..k] && (k == |p| || p[k].occ < r[k].occ)
  }

  ghost predicate InPathOrder(ps: seq<Path>) {
    forall i, j :: 0 <= i < j < |ps| ==> Before(ps[i], ps[j])
  }

  ghost predicate OrderedHops(hops: seq<Hop>, u: Id) {
    forall i, j :: 0 <= i < j < |hops| && hops[i].node != u && hops[j].node != u ==> hops[i].occ < hops[j].occ
  }

  lemma {:induction false} LaterHops(a: seq<Hop>, b: seq<Hop>, u: Id, n: nat)
    requires OrderedHops(a, u) && OrderedHops(b, u)
    requires (forall h :: h in a ==> h.occ < n) && (forall h :: h in b ==> h.occ == n)
    ensures OrderedHops(a + b, u)
  {
    var s := a + b;
    forall i, j | 0 <= i < j < |s| && s[i].node != u && s[j].node != u ensures s[i].occ < s[j].occ {
      if i < |a| <= j {
        assert s[i] in a && s[j] in b;
      }
    }
  }

  lemma {:induction false} HopsOrdered(edges: seq<Edge>, u: Id)
    ensures OrderedHops(Hops(edges, u), u)
  {
    if edges != [] {
      var n := |edges| - 1;
      HopsOrdered(edges[..n], u);
      HopsExact(edges[..n], u);
      var ends := (if edges[n].source == u then [Hop(edges[n].target, n)] else [])
                  + (if edges[n].target == u then [Hop(edges[n].source, n)] else []);
      assert Hops(edges, u) == Hops(edges[..n], u) + ends;
      LaterHops(Hops(edges[..n], u), ends, u, n);
    }
  }

  lemma {:induction false} OrderConcat(a: seq<Path>, b: seq<Path>)
    requires InPathOrder(a) && InPathOrder(b) && forall p, r :: p in a && r in b ==> Before(p, r)
    ensures InPathOrder(a + b)
  {
    var s := a + b;
    forall i, j | 0 <= i < j < |s| ensures Before(s[i], s[j]) {
      if i < |a| <= j {
        assert s[i] in a && s[j] in b;
      }
    }
  }

  lemma {:induction false} PathsFromOrdered(q: Query, current: Id, path: Path, visited: set<Id>)
    requires current in visited && (path == [] ==> current == q.source)
             && (path != [] ==> current == path[|path| - 1].node)
    ensures InPathOrder(PathsFrom(q, current, path, visited))
    decreases Budget(q, |path|), 1, 0
  {
    if |path| <= q.maxDepth {
      var below := Branches(q, Hops(q.edges, current), path, visited);
      HopsOrdered(q.edges, current);
      BranchesOrdered(q, Hops(q.edges, current), current, path, visited);
      forall p | p in below ensures Before(path, p) {
        BranchesExact(q, Hops(q.edges, current), path, visited, p);
        assert path[..|path|] == p[..|path|];
      }
      OrderConcat([path], below);
      assert [] + below == below;
    }
  }

  lemma {:induction false} BranchesOrdered(q: Query, hops: seq<Hop>, current: Id, path: Path, visited: set<Id>)
    requires |path| <= q.maxDepth && current in visited
    requires OrderedHops(hops, current)
    ensures InPathOrder(Branches(q, hops, path, visited))
    decreases Budget(q, |path|), 0, |hops|
  {
    if hops != [] {
      var n := |hops| - 1;
      var h := hops[n];
      BranchesOrdered(q, hops[..n], current, path, visited);
      if h.node !in visited {
        var old', new' := Branches(q, hops[..n], path, visited), PathsFrom(q, h.node, path + [h], visited + {h.node});
        PathsFromOrdered(q, h.node, path + [h], visited + {h.node});
        forall p, r | p in old' && r in new' ensures Before(p, r) {
          BranchesExact(q, hops[..n], path, visited, p);
          PathsFromExact(q, h.node, path + [h], visited + {h.node}, r);
          EarlierBranch(path, p, r, h);
        }
        OrderConcat(old', new');
      }
    }
  }

  lemma {:induction false} EarlierBranch(path: Path, p: Path, r: Path, h: Hop)
    requires path <= p && |path| < |p| && p[|path|].occ < h.occ && path + [h] <= r
    ensures Before(p, r)
  {
    assert p[..|path|] == path == r[..|path|];
    assert r[|path|] == h;
  }

  // The paths are listed in the lexicographic order of the edges walked, each before those that extend it.
  lemma {:induction false} AllPathsOrdered(q: Query)
    ensures InPathOrder(AllPaths(q))
  {
    PathsFromOrdered(q, q.source, [], {q.source});
  }

  // The search lists exactly the simple paths of 1 to maxDepth hops from the source to the target
  // (or, without a target, to any known consumer or account), each sequence of edge occurrences once.
  lemma {:induction false} AllPathsExact(q: Query)
    ensures forall p :: p in AllPaths(q) <==> SimplePath(q, p) && Wanted(q, p)
    ensures NoDuplicates(AllPaths(q))
  {
    forall p ensures p in AllPaths(q) <==> SimplePath(q, p) && Wanted(q, p) {
      PathsFromExact(q, q.source, [], {q.source}, p);
      ContinuesIsFresh(q.edges, q.source, p, {q.source});
      assert p[0..] == p;
    }
    PathsFromDistinct(q, q.source, [], {q.source});
  }

  // One path in plain terms: it is listed exactly when it is simple, within the bound, and ends at the named
  // target, or at a known consumer or account where none is named.
  lemma {:induction false} ListedIff(q: Query, p: Path)
    ensures p in AllPaths(q) <==>
            && SimplePath(q, p) && 0 < |p| <= q.maxDepth
            && var v := p[|p| - 1].node;
               if q.target.Some? && q.target.value != "" then v == q.target.value
               else v in q.nodes && q.nodes[v].kind in {Consumer, Account}
  {
    AllPathsExact(q);
    assert SimplePath(q, p) && |p| > 0 ==> p[|p| - 1].node !in {q.source};
  }

  // Run on a point-in-time cut, as an investigation does, every path stays inside the cut and
  // walks no edge stamped after the as-of instant.
  lemma {:induction false} InvestigationStaysInCut(
    nodes: seq<Node>, edges: seq<Edge>, q: Query, asOf: Time, depth: nat, p: Path)
    requires var g := Subgraph.PointInTimeSubgraph(nodes, edges, q.source, asOf, depth);
             q.nodes == g.nodes && q.edges == g.edges
    requires p in AllPaths(q)
    ensures forall i :: 0 <= i < |p| ==>
              && p[i].occ < |q.edges| && q.edges[p[i].occ] in edges && q.edges[p[i].occ].timestamp <= asOf
              && p[i].node in q.nodes && Subgraph.Within(Subgraph.AsOf(edges, asOf), q.source, p[i].node, depth)
  {
    AllPathsExact(q);
    Subgraph.SubgraphEdgesExact(nodes, edges, q.source, asOf, depth);
    Subgraph.SubgraphNodesExact(nodes, edges, q.source, asOf, depth);
    forall i | 0 <= i < |p|
      ensures && p[i].occ < |q.edges| && q.edges[p[i].occ] in edges && q.edges[p[i].occ].timestamp <= asOf
              && p[i].node in q.nodes && Subgraph.Within(Subgraph.AsOf(edges, asOf), q.source, p[i].node, depth)
    {
      assert Legal(q.edges, Stop(q.source, p, i), p[i]);
      assert q.edges[p[i].occ] in q.edges;
    }
  }
}
