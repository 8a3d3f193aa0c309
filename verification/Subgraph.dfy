// The point-in-time subgraph cut: a breadth-first search, level by level, over the
// edges stamped no later than the as-of instant.
// Source: ml-service/graphsage/data_source.py

module Subgraph {
  import opened Common
  import opened GraphSchema

  datatype SubGraph = SubGraph(center: Id, asOf: Time, nodes: map<Id, Node>, edges: seq<Edge>)

  function AsOf(edges: seq<Edge>, asOf: Time): seq<Edge> {
    if edges == [] then []
    else if edges[|edges| - 1].timestamp <= asOf
      then AsOf(edges[..|edges| - 1], asOf) + [edges[|edges| - 1]]
      else AsOf(edges[..|edges| - 1], asOf)
  }

  // ---------------------------------------------------------------------------
  // Reference definition: walks and balls in the undirected graph
  // ---------------------------------------------------------------------------

  predicate Joins(e: Edge, u: Id, v: Id) {
    (e.source == u && e.target == v) || (e.source == v && e.target == u)
  }

  ghost predicate Adjacent(es: seq<Edge>, u: Id, v: Id) {
    exists e :: e in es && Joins(e, u, v)
  }

  ghost predicate IsWalk(es: seq<Edge>, w: seq<Id>) {
    |w| > 0 && forall i :: 0 < i < |w| ==> Adjacent(es, w[i - 1], w[i])
  }

  // v is at undirected distance at most k from c
  ghost predicate Within(es: seq<Edge>, c: Id, v: Id, k: nat) {
    exists w :: IsWalk(es, w) && w[0] == c && w[|w| - 1] == v && |w| <= k + 1
  }

  function Neighbours(es: seq<Edge>, f: set<Id>): set<Id> {
    (set e | e in es && e.source in f :: e.target) + (set e | e in es && e.target in f :: e.source)
  }

  function Ball(es: seq<Edge>, c: Id, k: nat): set<Id> {
    if k == 0 then {c} else Ball(es, c, k - 1) + Neighbours(es, Ball(es, c, k - 1))
  }

  predicate Touches(e: Edge, f: set<Id>) {
    e.source in f || e.target in f
  }

  // ---------------------------------------------------------------------------
  // The search as a fold
  // ---------------------------------------------------------------------------

  datatype Wave = Wave(visited: map<Id, Node>, next: set<Id>, edges: seq<Edge>)

  function Registry(nodes: seq<Node>): map<Id, Node> {
    if nodes == [] then map[]
    else Registry(nodes[..|nodes| - 1])[nodes[|nodes| - 1].id := nodes[|nodes| - 1]]
  }

  function CenterNode(known: map<Id, Node>, c: Id, asOf: Time): Node {
    if c in known then known[c]
    else Node(c, if StartsWith(c, "emp_") then Employee else if StartsWith(c, "acct_") then Account else Consumer, asOf)
  }

  function TargetNode(known: map<Id, Node>, e: Edge): Node {
    if e.target in known then known[e.target]
    else Node(e.target, if StartsWith(e.target, "acct_") then Account else Device, e.timestamp)
  }

  function SourceNode(known: map<Id, Node>, e: Edge): Node {
    if e.source in known then known[e.source]
    else Node(e.source, if StartsWith(e.source, "emp_") then Employee else Consumer, e.timestamp)
  }

  function Visit(s: Wave, e: Edge, frontier: set<Id>, known: map<Id, Node>): Wave {
    if e.source in frontier && e.target !in s.visited then
      Wave(s.visited[e.target := TargetNode(known, e)], s.next + {e.target}, s.edges + [e])
    else if e.target in frontier && e.source !in s.visited then
      Wave(s.visited[e.source := SourceNode(known, e)], s.next + {e.source}, s.edges + [e])
    else if Touches(e, frontier) && e !in s.edges then
      s.(edges := s.edges + [e])
    else s
  }

  // one pass over the edges for a fixed frontier
  function Sweep(s: Wave, es: seq<Edge>, frontier: set<Id>, known: map<Id, Node>): Wave {
    if es == [] then s
    else Visit(Sweep(s, es[..|es| - 1], frontier, known), es[|es| - 1], frontier, known)
  }

  // the wave after k levels; its `next` is the frontier of level k
  function Search(es: seq<Edge>, known: map<Id, Node>, c: Id, asOf: Time, k: nat): Wave {
    if k == 0 then Wave(map[c := CenterNode(known, c, asOf)], {c}, [])
    else
      var w := Search(es, known, c, asOf, k - 1);
      Sweep(w.(next := {}), es, w.next, known)
  }

  function PointInTimeSubgraph(nodes: seq<Node>, edges: seq<Edge>, c: Id, asOf: Time, depth: int): SubGraph {
    var w := Search(AsOf(edges, asOf), Registry(nodes), c, asOf, if depth < 0 then 0 else depth);
    SubGraph(c, asOf, w.visited, w.edges)
  }

  class MockRealGraphDataSource {
    var nodesList: seq<Node>
    var edgesList: seq<Edge>

    constructor ()
      ensures nodesList == [] && edgesList == []
    {
      nodesList, edgesList := [], [];
    }

    method AddNode(n: Node)
      modifies this
      ensures nodesList == old(nodesList) + [n] && edgesList == old(edgesList)
    {
      nodesList := nodesList + [n];
    }

    method AddEdge(e: Edge)
      modifies this
      ensures edgesList == old(edgesList) + [e] && nodesList == old(nodesList)
    {
      edgesList := edgesList + [e];
    }

    method GetEdges(asOf: Time) returns (valid: seq<Edge>)
      ensures valid == AsOf(edgesList, asOf)
    {
      valid := [];
      for i := 0 to |edgesList|
        invariant valid == AsOf(edgesList[..i], asOf)
      {
        assert edgesList[..i + 1][..i] == edgesList[..i];
        if edgesList[i].timestamp <= asOf {
          valid := valid + [edgesList[i]];
        }
      }
      assert edgesList[..|edgesList|] == edgesList;
    }

    method Nodes() returns (known: map<Id, Node>)
      ensures known == Registry(nodesList)
    {
      known := map[];
      for i := 0 to |nodesList|
        invariant known == Registry(nodesList[..i])
      {
        assert nodesList[..i + 1][..i] == nodesList[..i];
        known := known[nodesList[i].id := nodesList[i]];
      }
      assert nodesList[..|nodesList|] == nodesList;
    }

    method GetPointInTimeSubgraph(center: Id, asOf: Time, depth: int) returns (g: SubGraph)
      ensures g == PointInTimeSubgraph(nodesList, edgesList, center, asOf, depth)
    {
      var validEdges := GetEdges(asOf);
      var allNodes := Nodes();
      var visited := map[center := CenterNode(allNodes, center, asOf)];
      var frontier := {center};
      var subgraphEdges: seq<Edge> := [];
      var level := 0;
      while level < depth
        invariant 0 <= level && (level <= depth || level == 0)
        invariant Wave(visited, frontier, subgraphEdges) == Search(validEdges, allNodes, center, asOf, level)
      {
        ghost var start := Wave(visited, {}, subgraphEdges);
        var nextFrontier: set<Id> := {};
        for i := 0 to |validEdges|
          invariant Wave(visited, nextFrontier, subgraphEdges) == Sweep(start, validEdges[..i], frontier, allNodes)
        {
          assert validEdges[..i + 1][..i] == validEdges[..i];
          var e := validEdges[i];
          if e.source in frontier && e.target !in visited {
            visited := visited[e.target := TargetNode(allNodes, e)];
            nextFrontier := nextFrontier + {e.target};
            subgraphEdges := subgraphEdges + [e];
          } else if e.target in frontier && e.source !in visited {
            visited := visited[e.source := SourceNode(allNodes, e)];
            nextFrontier := nextFrontier + {e.source};
            subgraphEdges := subgraphEdges + [e];
          } else if e.source in frontier || e.target in frontier {
            if e !in subgraphEdges {
              subgraphEdges := subgraphEdges + [e];
            }
          }
        }
        assert validEdges[..|validEdges|] == validEdges;
        frontier := nextFrontier;
        level := level + 1;
      }
      g := SubGraph(center, asOf, visited, subgraphEdges);
    }
  }

  // ---------------------------------------------------------------------------
  // One level
  // ---------------------------------------------------------------------------

  // what holds of a wave between two edges of a pass
  ghost predicate Closed(s: Wave) {
    && NoDuplicates(s.edges)
    && (forall e :: e in s.edges ==> e.source in s.visited && e.target in s.visited)
  }

  // what a pass over es, started from s with frontier f, has done
  ghost predicate Swept(s: Wave, r: Wave, es: seq<Edge>, f: set<Id>) {
    && r.visited.Keys == s.visited.Keys + Neighbours(es, f)
    && r.next == Neighbours(es, f) - s.visited.Keys
    && (forall e :: e in r.edges <==> e in s.edges || (e in es && Touches(e, f)))
  }

  lemma {:induction false} VisitExact(s: Wave, r: Wave, es: seq<Edge>, e: Edge, f: set<Id>, known: map<Id, Node>)
    requires f <= s.visited.Keys && Swept(s, r, es, f)
    ensures Swept(s, Visit(r, e, f, known), es + [e], f)
  {
    NeighboursSnoc(es, e, f);
    var q := Visit(r, e, f, known);
    assert forall d :: d in es + [e] <==> d in es || d == e;
    assert forall d :: d in q.edges <==> d in r.edges || (d == e && Touches(e, f));
    assert q.visited.Keys == s.visited.Keys + Neighbours(es + [e], f);
    assert q.next == Neighbours(es + [e], f) - s.visited.Keys;
  }

  lemma {:induction false} VisitClosed(r: Wave, e: Edge, f: set<Id>, known: map<Id, Node>)
    requires f <= r.visited.Keys && Closed(r)
    ensures Closed(Visit(r, e, f, known))
  {
  }

  lemma {:induction false} SweepExact(s: Wave, es: seq<Edge>, f: set<Id>, known: map<Id, Node>)
    requires Closed(s) && s.next == {} && f <= s.visited.Keys
    ensures Closed(Sweep(s, es, f, known)) && Swept(s, Sweep(s, es, f, known), es, f)
  {
    if es != [] {
      var n := |es| - 1;
      SweepExact(s, es[..n], f, known);
      assert es == es[..n] + [es[n]];
      VisitExact(s, Sweep(s, es[..n], f, known), es[..n], es[n], f, known);
      VisitClosed(Sweep(s, es[..n], f, known), es[n], f, known);
    }
  }

  lemma {:induction false} NeighboursSnoc(es: seq<Edge>, e: Edge, f: set<Id>)
    ensures Neighbours(es + [e], f) == Neighbours(es, f)
                                       + (if e.source in f then {e.target} else {})
                                       + (if e.target in f then {e.source} else {})
  {
    var l, r := Neighbours(es + [e], f), Neighbours(es, f)
                                         + (if e.source in f then {e.target} else {})
                                         + (if e.target in f then {e.source} else {});
    assert forall d :: d in es + [e] <==> d in es || d == e;
    forall v ensures v in l <==> v in r {
    }
  }

  lemma {:induction false} VisitRecords(
    s: Wave, e: Edge, f: set<Id>, known: map<Id, Node>, c: Id, asOf: Time, all: seq<Edge>)
    requires e in all && RecordsSound(s.visited, known, c, asOf, all)
    ensures RecordsSound(Visit(s, e, f, known).visited, known, c, asOf, all)
  {
    var r := Visit(s, e, f, known).visited;
    assert MadeAsTarget(TargetNode(map[], e), e) && MadeAsSource(SourceNode(map[], e), e);
    forall v | v in r ensures if v in known then r[v] == known[v] else MadeUp(r[v], v, c, asOf, all) {
      if v in s.visited {
        assert r[v] == s.visited[v];
      }
    }
  }

  // Records already present are kept.
  lemma {:induction false} SweepKeeps(s: Wave, es: seq<Edge>, f: set<Id>, known: map<Id, Node>)
    ensures forall v :: v in s.visited ==>
              v in Sweep(s, es, f, known).visited && Sweep(s, es, f, known).visited[v] == s.visited[v]
  {
    if es != [] {
      SweepKeeps(s, es[..|es| - 1], f, known);
    }
  }

  // A registered node has its registered record, and any other a record made up from its id and from an edge
  // that ends there.
  lemma {:induction false} SweepRecords(
    s: Wave, es: seq<Edge>, f: set<Id>, known: map<Id, Node>, c: Id, asOf: Time, all: seq<Edge>)
    requires forall e :: e in es ==> e in all
    requires RecordsSound(s.visited, known, c, asOf, all)
    ensures RecordsSound(Sweep(s, es, f, known).visited, known, c, asOf, all)
  {
    if es != [] {
      var n := |es| - 1;
      assert es[n] in es;
      SweepRecords(s, es[..n], f, known, c, asOf, all);
      VisitRecords(Sweep(s, es[..n], f, known), es[n], f, known, c, asOf, all);
    }
  }

  // a record made up for the centre, or for an end of one of the edges: its kind is read off the id's prefix
  ghost predicate MadeUp(n: Node, v: Id, c: Id, asOf: Time, all: seq<Edge>) {
    && n.id == v
    && if v == c then
         && n.createdAt == asOf
         && (n.kind == Employee <==> StartsWith(v, "emp_"))
         && (n.kind == Account <==> !StartsWith(v, "emp_") && StartsWith(v, "acct_"))
         && (n.kind == Consumer <==> !StartsWith(v, "emp_") && !StartsWith(v, "acct_"))
       else
         exists e :: e in all && n.createdAt == e.timestamp && (MadeAsTarget(n, e) || MadeAsSource(n, e))
  }

  predicate MadeAsTarget(n: Node, e: Edge) {
    && n.id == e.target
    && (n.kind == Account <==> StartsWith(n.id, "acct_")) && (n.kind == Device <==> !StartsWith(n.id, "acct_"))
  }

  predicate MadeAsSource(n: Node, e: Edge) {
    && n.id == e.source
    && (n.kind == Employee <==> StartsWith(n.id, "emp_")) && (n.kind == Consumer <==> !StartsWith(n.id, "emp_"))
  }

  ghost predicate RecordsSound(visited: map<Id, Node>, known: map<Id, Node>, c: Id, asOf: Time, all: seq<Edge>) {
    && c in visited
    && forall v :: v in visited ==>
         if v in known then visited[v] == known[v] else MadeUp(visited[v], v, c, asOf, all)
  }

  // the registry holds the last node listed under each id
  lemma {:induction false} RegistryExact(nodes: seq<Node>, id: Id)
    ensures id in Registry(nodes) <==> exists n :: n in nodes && n.id == id
    ensures id in Registry(nodes) ==>
              exists i :: 0 <= i < |nodes| && IsLastOf(nodes, i, id) && Registry(nodes)[id] == nodes[i]
  {
    if nodes != [] {
      var n := |nodes| - 1;
      assert nodes == nodes[..n] + [nodes[n]];
      RegistryExact(nodes[..n], id);
      if nodes[n].id == id {
        assert nodes[n] in nodes && IsLastOf(nodes, n, id);
      } else if id in Registry(nodes[..n]) {
        var i :| 0 <= i < n && IsLastOf(nodes[..n], i, id) && Registry(nodes[..n])[id] == nodes[..n][i];
        assert IsLastOf(nodes, i, id);
      }
    }
  }

  ghost predicate IsLastOf(nodes: seq<Node>, i: nat, id: Id)
    requires i < |nodes|
  {
    nodes[i].id == id && forall j :: i < j < |nodes| ==> nodes[j].id != id
  }

  // ---------------------------------------------------------------------------
  // All levels
  // ---------------------------------------------------------------------------

  ghost predicate Reached(es: seq<Edge>, c: Id, k: nat, w: Wave) {
    && w.visited.Keys == Ball(es, c, k)
    && w.next == (if k == 0 then {c} else Ball(es, c, k) - Ball(es, c, k - 1))
    && (forall e :: e in w.edges <==> k > 0 && e in es && Touches(e, Ball(es, c, k - 1)))
  }

  lemma {:induction false} SearchExact(es: seq<Edge>, known: map<Id, Node>, c: Id, asOf: Time, k: nat)
    ensures var w := Search(es, known, c, asOf, k); Closed(w) && Reached(es, c, k, w)
  {
    if k > 0 {
      SearchExact(es, known, c, asOf, k - 1);
      var w := Search(es, known, c, asOf, k - 1);
      SweepExact(w.(next := {}), es, w.next, known);
      LevelReached(es, c, k - 1, w, Search(es, known, c, asOf, k));
    }
  }

  lemma {:induction false} SearchRecords(es: seq<Edge>, known: map<Id, Node>, c: Id, asOf: Time, k: nat)
    ensures RecordsSound(Search(es, known, c, asOf, k).visited, known, c, asOf, es)
  {
    if k > 0 {
      SearchRecords(es, known, c, asOf, k - 1);
      var w := Search(es, known, c, asOf, k - 1);
      SweepRecords(w.(next := {}), es, w.next, known, c, asOf, es);
    }
  }

  // the edges after the first n of `all` are those of `es` at increasing positions
  ghost predicate TakenInOrder(all: seq<Edge>, n: nat, es: seq<Edge>, at: seq<nat>) {
    && |all| == n + |at|
    && (forall i, j :: 0 <= i < j < |at| ==> at[i] < at[j])
    && (forall i :: 0 <= i < |at| ==> at[i] < |es| && all[n + i] == es[at[i]])
  }

  lemma {:induction false} SweepOrder(s: Wave, es: seq<Edge>, f: set<Id>, known: map<Id, Node>)
    returns (at: seq<nat>)
    ensures var all := Sweep(s, es, f, known).edges; s.edges <= all && TakenInOrder(all, |s.edges|, es, at)
  {
    at := [];
    if es != [] {
      var n := |es| - 1;
      at := SweepOrder(s, es[..n], f, known);
      var before, all := Sweep(s, es[..n], f, known).edges, Sweep(s, es, f, known).edges;
      assert all == before || all == before + [es[n]];
      if |all| > |before| {
        at := at + [n];
      }
    }
  }

  // The cut lists its edges level by level, and those of a level in stored order.
  lemma {:induction false} SearchOrder(es: seq<Edge>, known: map<Id, Node>, c: Id, asOf: Time, k: nat)
    returns (at: seq<nat>)
    ensures Search(es, known, c, asOf, 0).edges == []
    ensures var before, all := Search(es, known, c, asOf, k).edges, Search(es, known, c, asOf, k + 1).edges;
            before <= all && TakenInOrder(all, |before|, es, at)
  {
    var w := Search(es, known, c, asOf, k);
    at := SweepOrder(w.(next := {}), es, w.next, known);
  }

  lemma {:induction false} LevelReached(es: seq<Edge>, c: Id, k: nat, w: Wave, r: Wave)
    requires Reached(es, c, k, w) && Swept(w.(next := {}), r, es, w.next)
    ensures Reached(es, c, k + 1, r)
  {
    var b := Ball(es, c, k);
    if k > 0 {
      FrontierSuffices(es, Ball(es, c, k - 1), b);
    }
    assert Ball(es, c, k + 1) == b + Neighbours(es, b);
    assert r.visited.Keys == b + Neighbours(es, w.next);
    forall e ensures e in r.edges <==> e in es && Touches(e, b) {
      assert e in r.edges <==> e in w.edges || (e in es && Touches(e, w.next));
    }
  }

  lemma {:induction false} FrontierSuffices(es: seq<Edge>, inner: set<Id>, outer: set<Id>)
    requires outer == inner + Neighbours(es, inner)
    ensures outer + Neighbours(es, outer) == outer + Neighbours(es, outer - inner)
  {
  }

  lemma {:induction false} AsOfExact(edges: seq<Edge>, asOf: Time)
    ensures forall e :: e in AsOf(edges, asOf) <==> e in edges && e.timestamp <= asOf
  {
    if edges != [] {
      var n := |edges| - 1;
      AsOfExact(edges[..n], asOf);
      assert edges == edges[..n] + [edges[n]];
    }
  }

  lemma {:induction false} BallIsWithin(es: seq<Edge>, c: Id, k: nat)
    ensures forall v :: v in Ball(es, c, k) <==> Within(es, c, v, k)
  {
    forall v ensures v in Ball(es, c, k) <==> Within(es, c, v, k) {
      if v in Ball(es, c, k) {
        var w := WalkTo(es, c, v, k);
      }
      if Within(es, c, v, k) {
        var w :| IsWalk(es, w) && w[0] == c && w[|w| - 1] == v && |w| <= k + 1;
        WalkStays(es, c, w, k);
      }
    }
  }

  lemma {:induction false} WalkTo(es: seq<Edge>, c: Id, v: Id, k: nat) returns (w: seq<Id>)
    requires v in Ball(es, c, k)
    decreases k
    ensures IsWalk(es, w) && w[0] == c && w[|w| - 1] == v && |w| <= k + 1
  {
    if k == 0 {
      w := [c];
    } else if v in Ball(es, c, k - 1) {
      w := WalkTo(es, c, v, k - 1);
    } else {
      var e :| e in es && ((e.source in Ball(es, c, k - 1) && e.target == v)
                           || (e.target in Ball(es, c, k - 1) && e.source == v));
      var u := if e.source in Ball(es, c, k - 1) && e.target == v then e.source else e.target;
      var w' := WalkTo(es, c, u, k - 1);
      assert Joins(e, u, v);
      w := w' + [v];
    }
  }

  lemma {:induction false} WalkStays(es: seq<Edge>, c: Id, w: seq<Id>, k: nat)
    requires IsWalk(es, w) && w[0] == c && |w| <= k + 1
    ensures w[|w| - 1] in Ball(es, c, k)
    decreases k
  {
    if k > 0 {
      if |w| == 1 {
        WalkStays(es, c, w, k - 1);
      } else {
        var w' := w[..|w| - 1];
        WalkStays(es, c, w', k - 1);
        assert Adjacent(es, w[|w| - 2], w[|w| - 1]);
      }
    }
  }

  // The cut's nodes are exactly those at distance at most depth over the edges stamped by asOf;
  // a registered node appears with its registered record, any other with a made-up one, which carries its
  // id and, unless it is the centre, the stamp of a timely edge that ends there.
  lemma {:induction false} SubgraphNodesExact(nodes: seq<Node>, edges: seq<Edge>, c: Id, asOf: Time, depth: nat)
    ensures var g := PointInTimeSubgraph(nodes, edges, c, asOf, depth);
            && (forall v :: v in g.nodes <==> Within(AsOf(edges, asOf), c, v, depth))
            && (forall v :: v in g.nodes ==>
                  if v in Registry(nodes) then g.nodes[v] == Registry(nodes)[v]
                  else MadeUp(g.nodes[v], v, c, asOf, AsOf(edges, asOf)))
  {
    SearchExact(AsOf(edges, asOf), Registry(nodes), c, asOf, depth);
    SearchRecords(AsOf(edges, asOf), Registry(nodes), c, asOf, depth);
    BallIsWithin(AsOf(edges, asOf), c, depth);
    var w := Search(AsOf(edges, asOf), Registry(nodes), c, asOf, depth);
    assert forall v :: v in w.visited <==> v in w.visited.Keys;
  }

  // The cut's edges are exactly the stored edges stamped by asOf with an endpoint nearer than
  // depth; each appears once and has both endpoints among the cut's nodes.
  lemma {:induction false} SubgraphEdgesExact(nodes: seq<Node>, edges: seq<Edge>, c: Id, asOf: Time, depth: nat)
    ensures var g := PointInTimeSubgraph(nodes, edges, c, asOf, depth);
            && (forall e :: e in g.edges <==>
                  && depth > 0 && e in edges && e.timestamp <= asOf
                  && (Within(AsOf(edges, asOf), c, e.source, depth - 1)
                      || Within(AsOf(edges, asOf), c, e.target, depth - 1)))
            && NoDuplicates(g.edges)
            && (forall e :: e in g.edges ==> e.source in g.nodes && e.target in g.nodes)
  {
    var es := AsOf(edges, asOf);
    var w := Search(es, Registry(nodes), c, asOf, depth);
    AsOfExact(edges, asOf);
    SearchExact(es, Registry(nodes), c, asOf, depth);
    assert forall e :: e in w.edges <==> depth > 0 && e in es && Touches(e, Ball(es, c, depth - 1));
    if depth > 0 {
      BallIsWithin(es, c, depth - 1);
    }
  }

  // ---------------------------------------------------------------------------
  // No lookahead
  // ---------------------------------------------------------------------------

  lemma {:induction false} AsOfConcat(a: seq<Edge>, b: seq<Edge>, asOf: Time)
    ensures AsOf(a + b, asOf) == AsOf(a, asOf) + AsOf(b, asOf)
  {
    if b == [] {
      assert a + b == a;
    } else {
      var n := |b| - 1;
      assert (a + b)[..|a| + n] == a + b[..n];
      AsOfConcat(a, b[..n], asOf);
    }
  }

  lemma {:induction false} AsOfLate(late: seq<Edge>, asOf: Time)
    requires forall e :: e in late ==> e.timestamp > asOf
    ensures AsOf(late, asOf) == []
  {
    if late != [] {
      AsOfLate(late[..|late| - 1], asOf);
    }
  }

  // Edges stamped after asOf can be inserted anywhere in the store without changing the cut:
  // its nodes, their records, its edges and their order.
  lemma {:induction false} NoLookahead(
    nodes: seq<Node>, before: seq<Edge>, late: seq<Edge>, after: seq<Edge>, c: Id, asOf: Time, depth: int)
    requires forall e :: e in late ==> e.timestamp > asOf
    ensures PointInTimeSubgraph(nodes, before + late + after, c, asOf, depth)
         == PointInTimeSubgraph(nodes, before + after, c, asOf, depth)
  {
    AsOfLate(late, asOf);
    AsOfConcat(before + late, after, asOf);
    AsOfConcat(before, late, asOf);
    AsOfConcat(before, after, asOf);
    assert AsOf(before, asOf) + [] == AsOf(before, asOf);
    assert AsOf(before + late + after, asOf) == AsOf(before + after, asOf);
  }
}
