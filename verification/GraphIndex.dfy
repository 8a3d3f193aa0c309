// The incidence index: per-node lists sorted by time and cut by binary search, and the two-hop
// neighbour sampler on top of it.
// Source: ml-service/graphsage/graph_dataset.py

module GraphIndex {
  import opened Common
  import opened GraphSchema
  import Subgraph

  datatype Entry = Entry(t: Time, neighbour: Id, kind: string)

  // ---------------------------------------------------------------------------
  // The linear scan that the index stands for
  // ---------------------------------------------------------------------------

  function EntriesOf(e: Edge, u: Id): seq<Entry> {
    (if e.source == u then [Entry(e.timestamp, e.target, e.kind)] else [])
    + (if e.target == u then [Entry(e.timestamp, e.source, e.kind)] else [])
  }

  function Scan(log: seq<Edge>, u: Id): seq<Entry> {
    if log == [] then [] else Scan(log[..|log| - 1], u) + EntriesOf(log[|log| - 1], u)
  }

  // the entries stamped no later than asOf
  function Upto(a: seq<Entry>, asOf: Time): seq<Entry> {
    if a == [] then []
    else if a[|a| - 1].t <= asOf then Upto(a[..|a| - 1], asOf) + [a[|a| - 1]]
    else Upto(a[..|a| - 1], asOf)
  }

  function Ids(a: seq<Entry>): seq<Id> {
    seq(|a|, i requires 0 <= i < |a| => a[i].neighbour)
  }

  ghost predicate TimeSorted(a: seq<Entry>) {
    forall i, j :: 0 <= i < j < |a| ==> a[i].t <= a[j].t
  }

  // ---------------------------------------------------------------------------
  // Sorting by time
  // ---------------------------------------------------------------------------

  function InsertByTime(a: seq<Entry>, x: Entry): seq<Entry> {
    if a == [] || a[|a| - 1].t <= x.t then a + [x]
    else InsertByTime(a[..|a| - 1], x) + [a[|a| - 1]]
  }

  // the stable sort by time
  function SortByTime(a: seq<Entry>): seq<Entry> {
    if a == [] then [] else InsertByTime(SortByTime(a[..|a| - 1]), a[|a| - 1])
  }

  lemma {:induction false} SortedSnoc(a: seq<Entry>, x: Entry)
    requires TimeSorted(a) && forall y :: y in a ==> y.t <= x.t
    ensures TimeSorted(a + [x])
  {
  }

  lemma {:induction false} InsertKeeps(a: seq<Entry>, x: Entry)
    ensures multiset(InsertByTime(a, x)) == multiset(a) + multiset{x}
  {
    if a != [] && a[|a| - 1].t > x.t {
      var n := |a| - 1;
      InsertKeeps(a[..n], x);
      assert a == a[..n] + [a[n]];
    }
  }

  lemma {:induction false} InsertSorted(a: seq<Entry>, x: Entry)
    requires TimeSorted(a)
    ensures TimeSorted(InsertByTime(a, x))
    ensures forall y :: y in InsertByTime(a, x) ==> y in a || y == x
  {
    if a == [] || a[|a| - 1].t <= x.t {
      SortedSnoc(a, x);
    } else {
      var n := |a| - 1;
      InsertSorted(a[..n], x);
      SortedSnoc(InsertByTime(a[..n], x), a[n]);
    }
  }

  lemma {:induction false} SortExact(a: seq<Entry>)
    ensures TimeSorted(SortByTime(a)) && multiset(SortByTime(a)) == multiset(a)
  {
    if a != [] {
      var n := |a| - 1;
      assert a == a[..n] + [a[n]];
      SortExact(a[..n]);
      InsertKeeps(SortByTime(a[..n]), a[n]);
      InsertSorted(SortByTime(a[..n]), a[n]);
    }
  }

  // the entries stamped t
  function Stamped(a: seq<Entry>, t: Time): seq<Entry> {
    if a == [] then []
    else Stamped(a[..|a| - 1], t) + (if a[|a| - 1].t == t then [a[|a| - 1]] else [])
  }

  lemma {:induction false} StampedSnoc(a: seq<Entry>, x: Entry, t: Time)
    ensures Stamped(a + [x], t) == Stamped(a, t) + (if x.t == t then [x] else [])
  {
    assert (a + [x])[..|a|] == a;
  }

  lemma {:induction false} InsertStable(a: seq<Entry>, x: Entry, t: Time)
    ensures Stamped(InsertByTime(a, x), t) == Stamped(a, t) + (if x.t == t then [x] else [])
  {
    if a == [] || a[|a| - 1].t <= x.t {
      StampedSnoc(a, x, t);
    } else {
      var n := |a| - 1;
      InsertStable(a[..n], x, t);
      StampedSnoc(InsertByTime(a[..n], x), a[n], t);
    }
  }

  // entries with the same stamp keep their order
  lemma {:induction false} SortStable(a: seq<Entry>, t: Time)
    ensures Stamped(SortByTime(a), t) == Stamped(a, t)
  {
    if a != [] {
      SortStable(a[..|a| - 1], t);
      InsertStable(SortByTime(a[..|a| - 1]), a[|a| - 1], t);
    }
  }

  // ---------------------------------------------------------------------------
  // The binary search and its sentinel
  // ---------------------------------------------------------------------------

  const SENTINEL := "\U{00FF}"

  // string order by code point
  predicate Less(a: string, b: string) {
    b != "" && (a == "" || a[0] < b[0] || (a[0] == b[0] && Less(a[1..], b[1..])))
  }

  // (SENTINEL, SENTINEL) is below (neighbour, kind)
  predicate Above(neighbour: Id, kind: string) {
    Less(SENTINEL, neighbour) || (neighbour == SENTINEL && Less(SENTINEL, kind))
  }

  // (asOf, SENTINEL, SENTINEL) is below the entry, in tuple order
  predicate KeyBelow(asOf: Time, e: Entry) {
    asOf < e.t || (asOf == e.t && Above(e.neighbour, e.kind))
  }

  function BisectRight(a: seq<Entry>, asOf: Time, lo: nat, hi: nat): (r: nat)
    requires lo <= hi <= |a|
    ensures lo <= r <= hi
    decreases hi - lo
  {
    if lo == hi then lo
    else
      var mid := (lo + hi) / 2;
      if KeyBelow(asOf, a[mid]) then BisectRight(a, asOf, lo, mid) else BisectRight(a, asOf, mid + 1, hi)
  }

  function Slice(a: seq<Entry>, asOf: Time): seq<Entry> {
    a[..BisectRight(a, asOf, 0, |a|)]
  }

  lemma {:induction false} UptoIsPrefix(a: seq<Entry>, asOf: Time, k: nat)
    requires k <= |a|
    requires forall i :: 0 <= i < k ==> a[i].t <= asOf
    requires forall i :: k <= i < |a| ==> a[i].t > asOf
    ensures Upto(a, asOf) == a[..k]
  {
    if a != [] {
      var n := |a| - 1;
      if k == |a| {
        UptoIsPrefix(a[..n], asOf, n);
        assert a[..k] == a[..n][..n] + [a[n]];
      } else {
        UptoIsPrefix(a[..n], asOf, k);
        assert a[..n][..k] == a[..k];
      }
    }
  }

  // no entry stamped by asOf lies above the search key
  ghost predicate NoTieAbove(a: seq<Entry>, asOf: Time) {
    forall i :: 0 <= i < |a| && a[i].t <= asOf ==> !KeyBelow(asOf, a[i])
  }

  // invariant of the search on a sorted list: everything left of lo is in time, everything from hi on is late
  lemma {:induction false} BisectSplits(a: seq<Entry>, asOf: Time, lo: nat, hi: nat)
    requires lo <= hi <= |a| && TimeSorted(a) && NoTieAbove(a, asOf)
    requires forall i :: 0 <= i < lo ==> a[i].t <= asOf
    requires forall i :: hi <= i < |a| ==> a[i].t > asOf
    ensures var r := BisectRight(a, asOf, lo, hi);
            (forall i :: 0 <= i < r ==> a[i].t <= asOf) && (forall i :: r <= i < |a| ==> a[i].t > asOf)
    decreases hi - lo
  {
    if lo < hi {
      var mid := (lo + hi) / 2;
      if KeyBelow(asOf, a[mid]) {
        BisectSplits(a, asOf, lo, mid);
      } else {
        BisectSplits(a, asOf, mid + 1, hi);
      }
    }
  }

  lemma {:induction false} BisectCuts(a: seq<Entry>, asOf: Time)
    requires TimeSorted(a) && forall e :: e in a ==> !Above(e.neighbour, e.kind)
    ensures Slice(a, asOf) == Upto(a, asOf)
  {
    forall i | 0 <= i < |a| && a[i].t <= asOf ensures !KeyBelow(asOf, a[i]) {
      assert a[i] in a;
    }
    BisectSplits(a, asOf, 0, |a|);
    UptoIsPrefix(a, asOf, BisectRight(a, asOf, 0, |a|));
  }

  // Whatever the ids, the search on a time-sorted list passes no late entry and stops at no early one:
  // only entries stamped exactly asOf may end up on the wrong side.
  lemma {:induction false} BisectBounds(a: seq<Entry>, asOf: Time, lo: nat, hi: nat)
    requires lo <= hi <= |a| && TimeSorted(a)
    requires forall i :: 0 <= i < lo ==> a[i].t <= asOf
    requires forall i :: hi <= i < |a| ==> a[i].t >= asOf
    ensures var r := BisectRight(a, asOf, lo, hi);
            (forall i :: 0 <= i < r ==> a[i].t <= asOf) && (forall i :: r <= i < |a| ==> a[i].t >= asOf)
    decreases hi - lo
  {
    if lo < hi {
      var mid := (lo + hi) / 2;
      if KeyBelow(asOf, a[mid]) {
        BisectBounds(a, asOf, lo, mid);
      } else {
        BisectBounds(a, asOf, mid + 1, hi);
      }
    }
  }

  lemma {:induction false} SliceBounds(a: seq<Entry>, asOf: Time)
    requires TimeSorted(a)
    ensures forall x :: x in Slice(a, asOf) ==> x in a && x.t <= asOf
    ensures forall x :: x in a && x.t < asOf ==> x in Slice(a, asOf)
  {
    BisectBounds(a, asOf, 0, |a|);
    var r := BisectRight(a, asOf, 0, |a|);
    forall x | x in a && x.t < asOf ensures x in Slice(a, asOf) {
      var i :| 0 <= i < |a| && a[i] == x;
      assert Slice(a, asOf)[i] == x;
    }
  }

  // an alphabet of (neighbour, kind) pairs from which the entries of a list are drawn
  ghost predicate Over(a: seq<Entry>, alphabet: set<(Id, string)>) {
    forall e :: e in a ==> (e.neighbour, e.kind) in alphabet
  }

  // Searching with the sentinel key cuts every time-sorted list at asOf exactly when no pair it may
  // meet sorts above the sentinel.
  lemma {:induction false} SentinelExact(alphabet: set<(Id, string)>)
    ensures (forall a, asOf :: TimeSorted(a) && Over(a, alphabet) ==> Slice(a, asOf) == Upto(a, asOf))
            <==> (forall p :: p in alphabet ==> !Above(p.0, p.1))
  {
    if forall a, asOf :: TimeSorted(a) && Over(a, alphabet) ==> Slice(a, asOf) == Upto(a, asOf) {
      forall p | p in alphabet ensures !Above(p.0, p.1) {
        var a := [Entry(0, p.0, p.1)];
        assert Over(a, alphabet) && TimeSorted(a);
        assert Slice(a, 0) == Upto(a, 0);
        assert Upto(a, 0) == a by {
          assert a[..0] == [];
        }
      }
    }
    if forall p :: p in alphabet ==> !Above(p.0, p.1) {
      forall a: seq<Entry>, asOf: Time | TimeSorted(a) && Over(a, alphabet) ensures Slice(a, asOf) == Upto(a, asOf) {
        forall e: Entry | e in a ensures !Above(e.neighbour, e.kind) {
          assert (e.neighbour, e.kind) in alphabet;
        }
        BisectCuts(a, asOf);
      }
    }
  }

  // in particular an id whose first character lies below the sentinel, as every ASCII id's does
  lemma {:induction false} PlainIdsAreBelow(id: Id, kind: string)
    requires id == "" || id[0] < SENTINEL[0]
    ensures !Above(id, kind)
  {
  }

  // ---------------------------------------------------------------------------
  // The dataset
  // ---------------------------------------------------------------------------

  function WithEdge(adj: map<Id, seq<Entry>>, e: Edge): map<Id, seq<Entry>> {
    var out := adj[e.source := At(adj, e.source) + [Entry(e.timestamp, e.target, e.kind)]];
    out[e.target := At(out, e.target) + [Entry(e.timestamp, e.source, e.kind)]]
  }

  lemma {:induction false} WithEdgeAppends(adj: map<Id, seq<Entry>>, e: Edge, u: Id)
    ensures At(WithEdge(adj, e), u) == At(adj, u) + EntriesOf(e, u)
  {
  }

  lemma {:induction false} ScanSnoc(log: seq<Edge>, e: Edge, u: Id)
    ensures Scan(log + [e], u) == Scan(log, u) + EntriesOf(e, u)
  {
    assert (log + [e])[..|log|] == log;
  }

  // the nodes in `todo` are still unsorted
  ghost predicate PartlySorted(adj: map<Id, seq<Entry>>, before: map<Id, seq<Entry>>, todo: set<Id>) {
    forall u :: At(adj, u) == if u in todo then At(before, u) else SortByTime(At(before, u))
  }

  lemma {:induction false} SortOne(adj: map<Id, seq<Entry>>, before: map<Id, seq<Entry>>, todo: set<Id>, u: Id)
    requires PartlySorted(adj, before, todo) && u in todo && u in adj
    ensures PartlySorted(adj[u := SortByTime(adj[u])], before, todo - {u})
  {
    forall v
      ensures At(adj[u := SortByTime(adj[u])], v)
              == if v in todo - {u} then At(before, v) else SortByTime(At(before, v))
    {
      assert At(adj, v) == if v in todo then At(before, v) else SortByTime(At(before, v));
    }
  }

  function At(adj: map<Id, seq<Entry>>, u: Id): seq<Entry> {
    if u in adj then adj[u] else []
  }

  ghost predicate ValidSample(idx: seq<nat>, n: nat, size: nat) {
    |idx| == size && NoDuplicates(idx) && forall i :: 0 <= i < size ==> idx[i] < n
  }

  function Pick(ids: seq<Id>, idx: seq<nat>): (r: seq<Id>)
    requires forall i :: 0 <= i < |idx| ==> idx[i] < |ids|
    ensures |r| == |idx| && forall i :: 0 <= i < |r| ==> r[i] == ids[idx[i]]
    ensures forall v :: v in r ==> v in ids
  {
    seq(|idx|, i requires 0 <= i < |idx| => ids[idx[i]])
  }

  ghost predicate Linked(log: seq<Edge>, u: Id, v: Id, asOf: Time) {
    exists e :: e in log && e.timestamp <= asOf && Subgraph.Joins(e, u, v)
  }

  // each incidence list is some ordering of the linear scan
  ghost predicate IsIndexOf(adj: map<Id, seq<Entry>>, log: seq<Edge>) {
    forall u :: multiset(At(adj, u)) == multiset(Scan(log, u))
  }

  lemma {:induction false} WithEdgeIndexes(adj: map<Id, seq<Entry>>, log: seq<Edge>, e: Edge)
    requires IsIndexOf(adj, log)
    ensures IsIndexOf(WithEdge(adj, e), log + [e])
  {
    forall u ensures multiset(At(WithEdge(adj, e), u)) == multiset(Scan(log + [e], u)) {
      WithEdgeAppends(adj, e, u);
      ScanSnoc(log, e, u);
      assert multiset(At(adj, u)) == multiset(Scan(log, u));
    }
  }

  lemma {:induction false} SortedIndexes(adj: map<Id, seq<Entry>>, before: map<Id, seq<Entry>>, log: seq<Edge>)
    requires PartlySorted(adj, before, {}) && IsIndexOf(before, log)
    ensures IsIndexOf(adj, log) && forall u :: TimeSorted(At(adj, u))
  {
    forall u ensures TimeSorted(At(adj, u)) && multiset(At(adj, u)) == multiset(Scan(log, u)) {
      SortExact(At(before, u));
      assert At(adj, u) == SortByTime(At(before, u));
      assert multiset(At(before, u)) == multiset(Scan(log, u));
    }
  }

  class TemporalHeteroGraphDataset {
    var nodes: map<Id, Node>
    var edges: map<Id, Edge>
    var incidentAdj: map<Id, seq<Entry>>
    ghost var log: seq<Edge>  // every edge ever added, in order

    // the edge table holds the last edge added under each id, and each incidence list is some ordering
    // of the linear scan
    ghost predicate Valid()
      reads this
    {
      edges == EdgeTable(log) && IsIndexOf(incidentAdj, log)
    }

    ghost predicate Finalized()
      reads this
    {
      forall u :: TimeSorted(At(incidentAdj, u))
    }

    // no edge has an id that sorts above the search sentinel
    ghost predicate PlainIds()
      reads this
    {
      forall e :: e in log ==> !Above(e.source, e.kind) && !Above(e.target, e.kind)
    }

    constructor ()
      ensures Valid() && Finalized() && log == [] && nodes == map[] && edges == map[]
    {
      nodes, edges, incidentAdj, log := map[], map[], map[], [];
    }

    method AddNode(n: Node)
      requires Valid()
      modifies this`nodes
      ensures Valid() && nodes == old(nodes)[n.id := n]
    {
      nodes := nodes[n.id := n];
    }

    method AddEdge(e: Edge)
      requires Valid()
      modifies this`edges, this`incidentAdj, this`log
      ensures Valid() && log == old(log) + [e] && edges == old(edges)[e.id := e]
    {
      assert (log + [e])[..|log|] == log;
      WithEdgeIndexes(incidentAdj, log, e);
      ghost var after := WithEdge(incidentAdj, e);
      edges := edges[e.id := e];
      incidentAdj := incidentAdj[e.source := At(incidentAdj, e.source) + [Entry(e.timestamp, e.target, e.kind)]];
      incidentAdj := incidentAdj[e.target := At(incidentAdj, e.target) + [Entry(e.timestamp, e.source, e.kind)]];
      assert incidentAdj == after;
      log := log + [e];
    }

    method FinalizeIndices()
      requires Valid()
      modifies this`incidentAdj
      ensures Valid() && Finalized()
    {
      ghost var before := incidentAdj;
      incidentAdj := SortLists(incidentAdj);
      SortedIndexes(incidentAdj, before, log);
    }

    static method SortLists(before: map<Id, seq<Entry>>) returns (adj: map<Id, seq<Entry>>)
      ensures PartlySorted(adj, before, {})
    {
      adj := before;
      var todo := adj.Keys;
      while todo != {}
        invariant todo <= adj.Keys == before.Keys
        invariant PartlySorted(adj, before, todo)
        decreases todo
      {
        var u :| u in todo;
        SortOne(adj, before, todo, u);
        adj := adj[u := SortByTime(adj[u])];
        todo := todo - {u};
      }
    }

    method GetValidNeighborIds(u: Id, asOf: Time) returns (ids: seq<Id>)
      ensures ids == Ids(Slice(At(incidentAdj, u), asOf))
    {
      if u !in incidentAdj {
        return [];
      }
      var adj := incidentAdj[u];
      if adj == [] {
        return [];
      }
      var lo, hi := 0, |adj|;
      while lo < hi
        invariant lo <= hi <= |adj|
        invariant BisectRight(adj, asOf, lo, hi) == BisectRight(adj, asOf, 0, |adj|)
      {
        var mid := (lo + hi) / 2;
        if KeyBelow(asOf, adj[mid]) {
          hi := mid;
        } else {
          lo := mid + 1;
        }
      }
      ids := Ids(adj[..lo]);
    }

    // v is in the slice of a node of the first hop
    ghost predicate Reaches(l1: seq<Id>, v: Id, asOf: Time)
      reads this
    {
      exists u :: u in l1 && v in Ids(Slice(At(incidentAdj, u), asOf))
    }

    // v is joined to a node of the first hop by an edge stamped by asOf
    ghost predicate LinkedToHop(l1: seq<Id>, v: Id, asOf: Time)
      reads this
    {
      exists u :: u in l1 && Linked(log, u, v, asOf)
    }

    // on a finalized dataset whatever a slice yields is joined by an edge stamped by asOf, for all ids
    lemma {:induction false} HopsAreTimely(root: Id, l1: seq<Id>, l2: seq<Id>, asOf: Time)
      requires Valid() && Finalized()
      requires forall v :: v in l1 ==> Reaches([root], v, asOf)
      requires forall v :: v in l2 ==> Reaches(l1, v, asOf)
      ensures forall v :: v in l1 ==> Linked(log, root, v, asOf)
      ensures forall v :: v in l2 ==> LinkedToHop(l1, v, asOf)
    {
      forall v | v in l1 ensures Linked(log, root, v, asOf) {
        SliceIdsAreNeighbours(this, root, v, asOf);
      }
      forall v | v in l2 ensures LinkedToHop(l1, v, asOf) {
        var u :| u in l1 && v in Ids(Slice(At(incidentAdj, u), asOf));
        SliceIdsAreNeighbours(this, u, v, asOf);
      }
    }

    // one node's neighbours, cut down to `size` of them by the draw if there are more
    method Sample(u: Id, asOf: Time, size: nat, sampler: (nat, nat, nat) -> seq<nat>, draw: nat)
      returns (sampled: seq<Id>, draw': nat, ghost idx: seq<nat>)
      requires forall k: nat, n: nat, m: nat :: m <= n ==> ValidSample(sampler(k, n, m), n, m)
      ensures var valid := Ids(Slice(At(incidentAdj, u), asOf));
              && DrawOf(idx, |valid|, size) && sampled == Pick(valid, idx)
              && (|valid| <= size ==> sampled == valid)
              && (|valid| > size ==> idx == sampler(draw, |valid|, size))
      ensures draw' == if |Slice(At(incidentAdj, u), asOf)| <= size then draw else draw + 1
    {
      var valid := GetValidNeighborIds(u, asOf);
      if |valid| > size {
        var positions := sampler(draw, |valid|, size);
        assert ValidSample(positions, |valid|, size);
        sampled, draw', idx := Pick(valid, positions), draw + 1, positions;
      } else {
        sampled, draw', idx := valid, draw, seq(|valid|, i => i);
      }
    }

    // the ids drawn for the nodes us, one after the other
    ghost function DrawnIds(us: seq<Id>, draws: seq<seq<nat>>, asOf: Time, size: nat): seq<Id>
      requires DrawsFor(us, draws, asOf, size)
      reads this
    {
      if us == [] then []
      else
        var n := |us| - 1;
        DrawnIds(us[..n], draws[..n], asOf, size) + Pick(Ids(Slice(At(incidentAdj, us[n]), asOf)), draws[n])
    }

    // for each node as many distinct positions of its list as `size` and the list allow
    ghost predicate DrawsFor(us: seq<Id>, draws: seq<seq<nat>>, asOf: Time, size: nat)
      reads this
    {
      && |draws| == |us|
      && forall i :: 0 <= i < |us| ==> DrawOf(draws[i], |Slice(At(incidentAdj, us[i]), asOf)|, size)
    }

    // out holds exactly the known ids of the stream that were not met earlier, in the order of their
    // first occurrence
    ghost predicate Gathered(out: seq<Id>, stream: seq<Id>, earlier: seq<Id>)
      reads this
    {
      && (forall v :: v in out <==> v in stream && v in nodes && v !in earlier)
      && forall a, b :: 0 <= a < b < |out| ==> First(stream, out[a]) < First(stream, out[b])
    }

    // sampler(k, n, size) is the k-th draw of size distinct positions out of n; first and draws are the
    // positions drawn for the root and for each node of the first hop
    method GetPointInTimeNeighbors(root: Id, asOf: Time, s0: nat, s1: nat, sampler: (nat, nat, nat) -> seq<nat>)
      returns (l1: seq<Id>, l2: seq<Id>, ghost first: seq<nat>, ghost draws: seq<seq<nat>>)
      requires forall k: nat, n: nat, m: nat :: m <= n ==> ValidSample(sampler(k, n, m), n, m)
      ensures NoDuplicates([root] + l1 + l2)
      ensures |l1| <= s0 && |l2| <= s0 * s1
      ensures DrawsFor([root], [first], asOf, s0) && DrawsFor(l1, draws, asOf, s1)
      ensures Gathered(l1, DrawnIds([root], [first], asOf, s0), [root])
      ensures Gathered(l2, DrawnIds(l1, draws, asOf, s1), [root] + l1)
      ensures Complete([root], l1, [root], asOf, s0) && Complete(l1, l2, [root] + l1, asOf, s1)
      ensures Valid() && Finalized() ==> forall v :: v in l1 ==> Linked(log, root, v, asOf)
      ensures Valid() && Finalized() ==> forall v :: v in l2 ==> LinkedToHop(l1, v, asOf)
      ensures Valid() && Finalized() && PlainIds() ==>
                CompleteForLinks([root], l1, [root], asOf, s0) && CompleteForLinks(l1, l2, [root] + l1, asOf, s1)
    {
      var sampled, draw;
      sampled, draw, first := Sample(root, asOf, s0, sampler, 0);
      var visited;
      DrawnOne(root, first, asOf, s0);
      l1, visited := Collect(sampled, [], {root}, [root], []);
      l2, draws := SecondHop(root, l1, visited, asOf, s1, sampler, draw);
      ProductMonotone(|l1|, s0, s1);
      HopComplete([root], [first], l1, [root], asOf, s0);
      HopComplete(l1, draws, l2, [root] + l1, asOf, s1);
      if Valid() && Finalized() {
        HopReaches([root], [first], l1, [root], asOf, s0);
        HopReaches(l1, draws, l2, [root] + l1, asOf, s1);
        HopsAreTimely(root, l1, l2, asOf);
      }
    }

    method SecondHop(
      root: Id, l1: seq<Id>, seen: set<Id>, asOf: Time, s1: nat, sampler: (nat, nat, nat) -> seq<nat>, first: nat)
      returns (l2: seq<Id>, ghost draws: seq<seq<nat>>)
      requires forall k: nat, n: nat, m: nat :: m <= n ==> ValidSample(sampler(k, n, m), n, m)
      requires Tracked([root] + l1, [], seen)
      ensures NoDuplicates([root] + l1 + l2) && |l2| <= |l1| * s1
      ensures DrawsFor(l1, draws, asOf, s1) && Gathered(l2, DrawnIds(l1, draws, asOf, s1), [root] + l1)
    {
      var visited, draw := seen, first;
      l2, draws := [], [];
      for i := 0 to |l1|
        invariant |l2| <= i * s1 && Tracked([root] + l1, l2, visited)
        invariant DrawsFor(l1[..i], draws, asOf, s1) && Gathered(l2, DrawnIds(l1[..i], draws, asOf, s1), [root] + l1)
      {
        var sampled;
        ghost var idx;
        sampled, draw, idx := Sample(l1[i], asOf, s1, sampler, draw);
        ProductSucc(i, s1);
        DrawnSnoc(l1[..i], draws, l1[i], idx, asOf, s1);
        l2, visited := Collect(sampled, l2, visited, [root] + l1, DrawnIds(l1[..i], draws, asOf, s1));
        draws := draws + [idx];
        assert l1[..i + 1] == l1[..i] + [l1[i]];
      }
      assert l1[..|l1|] == l1;
    }

    lemma {:induction false} DrawnSnoc(
      us: seq<Id>, draws: seq<seq<nat>>, u: Id, idx: seq<nat>, asOf: Time, size: nat)
      requires DrawsFor(us, draws, asOf, size) && DrawOf(idx, |Slice(At(incidentAdj, u), asOf)|, size)
      ensures DrawsFor(us + [u], draws + [idx], asOf, size)
      ensures DrawnIds(us + [u], draws + [idx], asOf, size)
              == DrawnIds(us, draws, asOf, size) + Pick(Ids(Slice(At(incidentAdj, u), asOf)), idx)
    {
      assert (us + [u])[..|us|] == us && (draws + [idx])[..|us|] == draws;
    }

    lemma {:induction false} DrawnOne(u: Id, idx: seq<nat>, asOf: Time, size: nat)
      requires DrawOf(idx, |Slice(At(incidentAdj, u), asOf)|, size)
      ensures DrawsFor([u], [idx], asOf, size)
      ensures DrawnIds([u], [idx], asOf, size) == Pick(Ids(Slice(At(incidentAdj, u), asOf)), idx)
    {
      DrawnSnoc([], [], u, idx, asOf, size);
      assert [] + [u] == [u] && [] + [idx] == [idx];
    }

    lemma {:induction false} DrawnMembers(us: seq<Id>, draws: seq<seq<nat>>, asOf: Time, size: nat, v: Id)
      requires DrawsFor(us, draws, asOf, size)
      ensures v in DrawnIds(us, draws, asOf, size) <==>
              exists i :: 0 <= i < |us| && v in Pick(Ids(Slice(At(incidentAdj, us[i]), asOf)), draws[i])
    {
      if us != [] {
        var n := |us| - 1;
        DrawnMembers(us[..n], draws[..n], asOf, size, v);
        if i :| 0 <= i < |us| && v in Pick(Ids(Slice(At(incidentAdj, us[i]), asOf)), draws[i]) {
          assert i == n || (us[..n][i] == us[i] && draws[..n][i] == draws[i]);
        }
      }
    }

    // each node of a hop comes from a slice of a node of the hop before
    lemma {:induction false} HopReaches(
      us: seq<Id>, draws: seq<seq<nat>>, out: seq<Id>, earlier: seq<Id>, asOf: Time, size: nat)
      requires DrawsFor(us, draws, asOf, size) && Gathered(out, DrawnIds(us, draws, asOf, size), earlier)
      ensures forall v :: v in out ==> Reaches(us, v, asOf)
    {
      forall v | v in out ensures Reaches(us, v, asOf) {
        DrawnMembers(us, draws, asOf, size, v);
        var i :| 0 <= i < |us| && v in Pick(Ids(Slice(At(incidentAdj, us[i]), asOf)), draws[i]);
        assert us[i] in us;
      }
    }

    // every known node in the slice of a node with at most `size` entries is in the next hop or was met earlier
    ghost predicate Complete(us: seq<Id>, out: seq<Id>, earlier: seq<Id>, asOf: Time, size: nat)
      reads this
    {
      forall u, v ::
        u in us && |Slice(At(incidentAdj, u), asOf)| <= size
        && v in Ids(Slice(At(incidentAdj, u), asOf)) && v in nodes ==>
          v in out || v in earlier
    }

    // the same of the nodes that an edge stamped by asOf joins to such a node
    ghost predicate CompleteForLinks(us: seq<Id>, out: seq<Id>, earlier: seq<Id>, asOf: Time, size: nat)
      reads this
    {
      forall u, v :: u in us && |Upto(Scan(log, u), asOf)| <= size && Linked(log, u, v, asOf) && v in nodes ==>
        v in out || v in earlier
    }

    lemma {:induction false} HopComplete(
      us: seq<Id>, draws: seq<seq<nat>>, out: seq<Id>, earlier: seq<Id>, asOf: Time, size: nat)
      requires DrawsFor(us, draws, asOf, size) && Gathered(out, DrawnIds(us, draws, asOf, size), earlier)
      ensures Complete(us, out, earlier, asOf, size)
      ensures Valid() && Finalized() && PlainIds() ==> CompleteForLinks(us, out, earlier, asOf, size)
    {
      forall u, v |
        u in us && |Slice(At(incidentAdj, u), asOf)| <= size
        && v in Ids(Slice(At(incidentAdj, u), asOf)) && v in nodes
        ensures v in out || v in earlier
      {
        var i :| 0 <= i < |us| && us[i] == u;
        PickAll(Ids(Slice(At(incidentAdj, u), asOf)), draws[i], v);
        DrawnMembers(us, draws, asOf, size, v);
      }
      if Valid() && Finalized() && PlainIds() {
        forall u, v | u in us && |Upto(Scan(log, u), asOf)| <= size && Linked(log, u, v, asOf) && v in nodes
          ensures v in out || v in earlier
        {
          SliceIdsAreNeighbours(this, u, v, asOf);
          SliceIsScan(this, u, asOf);
          SameSize(Slice(At(incidentAdj, u), asOf), Upto(Scan(log, u), asOf));
        }
      }
    }

    // the loop that keeps the new, known nodes among the sampled ids
    method Collect(sampled: seq<Id>, out: seq<Id>, visited: set<Id>, ghost earlier: seq<Id>, ghost stream: seq<Id>)
      returns (out': seq<Id>, visited': set<Id>)
      requires Tracked(earlier, out, visited) && Gathered(out, stream, earlier)
      ensures Tracked(earlier, out', visited') && Gathered(out', stream + sampled, earlier)
      ensures |out'| <= |out| + |sampled|
    {
      out', visited' := out, visited;
      assert stream + [] == stream;
      for i := 0 to |sampled|
        invariant Tracked(earlier, out', visited') && Gathered(out', stream + sampled[..i], earlier)
        invariant |out'| <= |out| + i
      {
        var v := sampled[i];
        assert stream + sampled[..i + 1] == (stream + sampled[..i]) + [v];
        GatherOne(out', stream + sampled[..i], earlier, v);
        if v !in visited' && v in nodes {
          TrackedSnoc(earlier, out', visited', v);
          visited' := visited' + {v};
          out' := out' + [v];
        }
      }
      assert sampled[..|sampled|] == sampled;
    }

    lemma {:induction false} GatherOne(out: seq<Id>, stream: seq<Id>, earlier: seq<Id>, v: Id)
      requires Gathered(out, stream, earlier)
      ensures v in nodes && v !in earlier && v !in out ==> Gathered(out + [v], stream + [v], earlier)
      ensures !(v in nodes && v !in earlier && v !in out) ==> Gathered(out, stream + [v], earlier)
    {
      forall x | x in out || x == v
        ensures First(stream + [v], x) == if x in stream then First(stream, x) else |stream|
        ensures x in stream ==> First(stream, x) < |stream|
      {
        FirstSnoc(stream, v, x);
      }
    }
  }

  // the position of the first v, or the length where there is none
  function First(s: seq<Id>, v: Id): (p: nat)
    ensures p <= |s| && (p < |s| ==> s[p] == v) && forall i :: 0 <= i < p ==> s[i] != v
  {
    if s == [] then 0
    else
      var p := First(s[..|s| - 1], v);
      if p < |s| - 1 || s[|s| - 1] == v then p else |s|
  }

  lemma {:induction false} FirstSnoc(s: seq<Id>, x: Id, v: Id)
    requires v in s || v == x
    ensures First(s + [x], v) == if v in s then First(s, v) else |s|
    ensures v in s ==> First(s, v) < |s|
  {
    assert (s + [x])[..|s|] == s;
  }

  // distinct positions of a list of n, as many as `size` and the list allow
  ghost predicate DrawOf(idx: seq<nat>, n: nat, size: nat) {
    ValidSample(idx, n, if n <= size then n else size)
  }

  lemma {:induction false} AllPositions(idx: seq<nat>, n: nat)
    requires ValidSample(idx, n, n)
    ensures forall p: nat :: p < n ==> p in idx
  {
    if n > 0 {
      var last: nat := n - 1;
      if last in idx {
        var k :| 0 <= k < |idx| && idx[k] == last;
        var rest := idx[..k] + idx[k + 1..];
        AllPositions(rest, last);
        forall p: nat | p < n ensures p in idx {
          assert p < last ==> p in rest;
        }
      } else {
        TooManyPositions(idx, last);
      }
    }
  }

  lemma {:induction false} TooManyPositions(idx: seq<nat>, n: nat)
    requires NoDuplicates(idx) && forall i :: 0 <= i < |idx| ==> idx[i] < n
    ensures |idx| <= n
  {
    assert idx != [] ==> 0 <= idx[0] < n;
    if n == 0 {
    } else if n - 1 in idx {
      var k :| 0 <= k < |idx| && idx[k] == n - 1;
      TooManyPositions(idx[..k] + idx[k + 1..], n - 1);
    } else {
      TooManyPositions(idx, n - 1);
    }
  }

  lemma {:induction false} PickAll(ids: seq<Id>, idx: seq<nat>, v: Id)
    requires ValidSample(idx, |ids|, |ids|) && v in ids
    ensures v in Pick(ids, idx)
  {
    AllPositions(idx, |ids|);
    var p: nat :| p < |ids| && ids[p] == v;
    assert p in idx;
    var k :| 0 <= k < |idx| && idx[k] == p;
    assert Pick(ids, idx)[k] == v;
  }

  lemma {:induction false} SameSize(a: seq<Entry>, b: seq<Entry>)
    requires multiset(a) == multiset(b)
    ensures |a| == |b|
  {
    assert |multiset(a)| == |a| && |multiset(b)| == |b|;
  }

  // the visited set is the nodes met so far, and each was met once
  ghost predicate Tracked(earlier: seq<Id>, out: seq<Id>, visited: set<Id>) {
    NoDuplicates(earlier + out) && forall v :: v in visited <==> v in earlier || v in out
  }

  lemma {:induction false} TrackedSnoc(earlier: seq<Id>, out: seq<Id>, visited: set<Id>, v: Id)
    requires Tracked(earlier, out, visited) && v !in visited
    ensures Tracked(earlier, out + [v], visited + {v})
  {
    assert earlier + (out + [v]) == (earlier + out) + [v];
  }

  lemma {:induction false} ProductSucc(i: nat, c: nat)
    ensures (i + 1) * c == i * c + c
  {
  }

  lemma {:induction false} ProductMonotone(a: nat, b: nat, c: nat)
    requires a <= b
    ensures a * c <= b * c
  {
  }

  // ---------------------------------------------------------------------------
  // What the index returns
  // ---------------------------------------------------------------------------

  lemma {:induction false} UptoMultiset(a: seq<Entry>, asOf: Time, x: Entry)
    ensures multiset(Upto(a, asOf))[x] == if x.t <= asOf then multiset(a)[x] else 0
  {
    if a != [] {
      var n := |a| - 1;
      assert a == a[..n] + [a[n]];
      UptoMultiset(a[..n], asOf, x);
    }
  }

  lemma {:induction false} UptoMembers(a: seq<Entry>, asOf: Time)
    ensures forall x :: x in Upto(a, asOf) <==> x in a && x.t <= asOf
  {
    if a != [] {
      var n := |a| - 1;
      assert a == a[..n] + [a[n]];
      UptoMembers(a[..n], asOf);
    }
  }

  lemma {:induction false} ScanMembers(log: seq<Edge>, u: Id)
    ensures forall x :: x in Scan(log, u) <==> exists e :: e in log && x in EntriesOf(e, u)
  {
    if log != [] {
      var n := |log| - 1;
      assert log == log[..n] + [log[n]];
      ScanMembers(log[..n], u);
    }
  }

  // the scan of a node finds the edges at it, each seen from that end
  lemma {:induction false} ScanExact(log: seq<Edge>, u: Id, x: Entry)
    ensures x in Scan(log, u) <==>
            exists e :: e in log && e.timestamp == x.t && e.kind == x.kind && Subgraph.Joins(e, u, x.neighbour)
  {
    ScanMembers(log, u);
    if e :| e in log && e.timestamp == x.t && e.kind == x.kind && Subgraph.Joins(e, u, x.neighbour) {
      assert x in EntriesOf(e, u);
    }
  }

  lemma {:induction false} ScanIsPlain(log: seq<Edge>, u: Id, a: seq<Entry>)
    requires forall e :: e in log ==> !Above(e.source, e.kind) && !Above(e.target, e.kind)
    requires multiset(a) == multiset(Scan(log, u))
    ensures forall x :: x in a ==> !Above(x.neighbour, x.kind)
  {
    ScanMembers(log, u);
    forall x | x in a ensures !Above(x.neighbour, x.kind) {
      assert x in multiset(a);
      assert x in Scan(log, u);
    }
  }

  // On a finalized dataset with plain ids, the slice holds exactly the entries that a linear scan of
  // all added edges finds up to asOf, as often as the scan does.
  lemma {:induction false} SliceIsScan(g: TemporalHeteroGraphDataset, u: Id, asOf: Time)
    requires g.Valid() && g.Finalized() && g.PlainIds()
    ensures multiset(Slice(At(g.incidentAdj, u), asOf)) == multiset(Upto(Scan(g.log, u), asOf))
  {
    var a := At(g.incidentAdj, u);
    assert multiset(a) == multiset(Scan(g.log, u));
    ScanIsPlain(g.log, u, a);
    BisectCuts(a, asOf);
    SameMultisetSameUpto(a, Scan(g.log, u), asOf);
  }

  lemma {:induction false} SameMultisetSameUpto(a: seq<Entry>, b: seq<Entry>, asOf: Time)
    requires multiset(a) == multiset(b)
    ensures multiset(Upto(a, asOf)) == multiset(Upto(b, asOf))
  {
    forall x: Entry ensures multiset(Upto(a, asOf))[x] == multiset(Upto(b, asOf))[x] {
      UptoMultiset(a, asOf, x);
      UptoMultiset(b, asOf, x);
    }
  }

  lemma {:induction false} IdsMembers(a: seq<Entry>, v: Id)
    ensures v in Ids(a) <==> exists x :: x in a && x.neighbour == v
  {
    if v in Ids(a) {
      var i :| 0 <= i < |a| && Ids(a)[i] == v;
      assert a[i] in a;
    }
    if x :| x in a && x.neighbour == v {
      var i :| 0 <= i < |a| && a[i] == x;
      assert Ids(a)[i] == v;
    }
  }

  lemma {:induction false} LinkedIffEntry(log: seq<Edge>, u: Id, v: Id, asOf: Time)
    ensures Linked(log, u, v, asOf) <==> exists x :: x in Scan(log, u) && x.t <= asOf && x.neighbour == v
  {
    ScanMembers(log, u);
    if Linked(log, u, v, asOf) {
      var e :| e in log && e.timestamp <= asOf && Subgraph.Joins(e, u, v);
      assert Entry(e.timestamp, v, e.kind) in EntriesOf(e, u);
    }
    if x :| x in Scan(log, u) && x.t <= asOf && x.neighbour == v {
      var e :| e in log && x in EntriesOf(e, u);
      assert Subgraph.Joins(e, u, v) && e.timestamp <= asOf;
    }
  }

  // Whatever the ids, those handed out are joined to u by an edge stamped by asOf, and none joined by an
  // earlier edge is missing. With plain ids they are exactly the nodes joined by an edge stamped by asOf.
  lemma {:induction false} SliceIdsAreNeighbours(g: TemporalHeteroGraphDataset, u: Id, v: Id, asOf: Time)
    requires g.Valid() && g.Finalized()
    ensures v in Ids(Slice(At(g.incidentAdj, u), asOf)) ==> Linked(g.log, u, v, asOf)
    ensures Linked(g.log, u, v, asOf - 1) ==> v in Ids(Slice(At(g.incidentAdj, u), asOf))
    ensures g.PlainIds() ==> (v in Ids(Slice(At(g.incidentAdj, u), asOf)) <==> Linked(g.log, u, v, asOf))
  {
    var a, scan := At(g.incidentAdj, u), Scan(g.log, u);
    assert multiset(a) == multiset(scan);
    SameMembers(a, scan);
    SliceBounds(a, asOf);
    IdsMembers(Slice(a, asOf), v);
    LinkedIffEntry(g.log, u, v, asOf);
    LinkedIffEntry(g.log, u, v, asOf - 1);
    if g.PlainIds() && Linked(g.log, u, v, asOf) {
      var x :| x in scan && x.t <= asOf && x.neighbour == v;
      UptoMembers(scan, asOf);
      SliceIsScan(g, u, asOf);
      SameMembers(Slice(a, asOf), Upto(scan, asOf));
    }
  }

  lemma {:induction false} SameMembers(a: seq<Entry>, b: seq<Entry>)
    requires multiset(a) == multiset(b)
    ensures forall x :: x in a <==> x in b
  {
    forall x ensures x in a <==> x in b {
      assert x in a <==> x in multiset(a);
      assert x in b <==> x in multiset(b);
    }
  }

  // ---------------------------------------------------------------------------
  // The index and the edge table
  // ---------------------------------------------------------------------------

  // the edge table keeps the last edge added under each id
  function EdgeTable(log: seq<Edge>): map<Id, Edge> {
    if log == [] then map[] else EdgeTable(log[..|log| - 1])[log[|log| - 1].id := log[|log| - 1]]
  }

  // the edges of a table, each once, in some order
  ghost predicate ListsTable(s: seq<Edge>, table: map<Id, Edge>) {
    NoDuplicates(s) && forall e :: e in s <==> e.id in table && table[e.id] == e
  }

  // one such order: by the last time each id was added
  function Without(s: seq<Edge>, id: Id): seq<Edge> {
    if s == [] then []
    else if s[|s| - 1].id == id then Without(s[..|s| - 1], id)
    else Without(s[..|s| - 1], id) + [s[|s| - 1]]
  }

  function Table(log: seq<Edge>): seq<Edge> {
    if log == [] then [] else Without(Table(log[..|log| - 1]), log[|log| - 1].id) + [log[|log| - 1]]
  }

  ghost predicate DistinctIds(log: seq<Edge>) {
    forall i, j :: 0 <= i < j < |log| ==> log[i].id != log[j].id
  }

  lemma {:induction false} WithoutAbsent(s: seq<Edge>, id: Id)
    requires forall e :: e in s ==> e.id != id
    ensures Without(s, id) == s
  {
    if s != [] {
      WithoutAbsent(s[..|s| - 1], id);
    }
  }

  lemma {:induction false} WithoutShrinks(s: seq<Edge>, id: Id, u: Id)
    ensures |Scan(Without(s, id), u)| <= |Scan(s, u)|
    ensures (exists e :: e in s && e.id == id && e.source == u) ==> |Scan(Without(s, id), u)| < |Scan(s, u)|
  {
    if s != [] {
      var n := |s| - 1;
      assert s == s[..n] + [s[n]];
      WithoutShrinks(s[..n], id, u);
      var w := Without(s[..n], id);
      assert (w + [s[n]])[..|w|] == w;
    }
  }

  lemma {:induction false} TableKeepsIds(log: seq<Edge>, id: Id)
    ensures (exists e :: e in log && e.id == id) ==> exists e :: e in Table(log) && e.id == id
  {
    if log != [] {
      var n := |log| - 1;
      assert log == log[..n] + [log[n]];
      TableKeepsIds(log[..n], id);
      if log[n].id == id {
        assert log[n] in Table(log);
      } else if exists e :: e in log && e.id == id {
        var e :| e in Table(log[..n]) && e.id == id;
        WithoutKeeps(Table(log[..n]), log[n].id, e);
      }
    }
  }

  lemma {:induction false} WithoutKeeps(s: seq<Edge>, id: Id, e: Edge)
    requires e in s && e.id != id
    ensures e in Without(s, id)
  {
    var n := |s| - 1;
    if s[n] != e {
      assert s == s[..n] + [s[n]];
      WithoutKeeps(s[..n], id, e);
    }
  }

  lemma {:induction false} TableSmaller(log: seq<Edge>, u: Id)
    ensures |Scan(Table(log), u)| <= |Scan(log, u)|
  {
    if log != [] {
      var n := |log| - 1;
      TableSmaller(log[..n], u);
      WithoutShrinks(Table(log[..n]), log[n].id, u);
      var w := Without(Table(log[..n]), log[n].id);
      assert (w + [log[n]])[..|w|] == w;
    }
  }

  lemma {:induction false} TableStrictlySmaller(log: seq<Edge>) returns (u: Id)
    requires !DistinctIds(log)
    ensures |Scan(Table(log), u)| < |Scan(log, u)|
  {
    var n := |log| - 1;
    var init := log[..n];
    assert log == init + [log[n]];
    var w := Without(Table(init), log[n].id);
    assert (w + [log[n]])[..|w|] == w;
    if !DistinctIds(init) {
      u := TableStrictlySmaller(init);
      WithoutShrinks(Table(init), log[n].id, u);
    } else {
      var i :| 0 <= i < n && log[i].id == log[n].id;
      assert log[i] == init[i];
      TableKeepsIds(init, log[n].id);
      var e :| e in Table(init) && e.id == log[n].id;
      u := e.source;
      TableSmaller(init, u);
      WithoutShrinks(Table(init), log[n].id, u);
    }
  }

  lemma {:induction false} TableOfDistinct(log: seq<Edge>)
    requires DistinctIds(log)
    ensures Table(log) == log
  {
    if log != [] {
      var n := |log| - 1;
      TableOfDistinct(log[..n]);
      forall e | e in log[..n] ensures e.id != log[n].id {
      }
      WithoutAbsent(log[..n], log[n].id);
      assert log == log[..n] + [log[n]];
    }
  }

  lemma {:induction false} WithoutMembers(s: seq<Edge>, id: Id)
    requires NoDuplicates(s)
    ensures NoDuplicates(Without(s, id)) && forall e :: e in Without(s, id) <==> e in s && e.id != id
  {
    if s != [] {
      var n := |s| - 1;
      assert s == s[..n] + [s[n]];
      WithoutMembers(s[..n], id);
      assert s[n] !in s[..n];
    }
  }

  lemma {:induction false} TableListsEdges(log: seq<Edge>)
    ensures ListsTable(Table(log), EdgeTable(log))
  {
    if log != [] {
      var n := |log| - 1;
      TableListsEdges(log[..n]);
      WithoutMembers(Table(log[..n]), log[n].id);
    }
  }

  lemma {:induction false} ListingsPermute(s: seq<Edge>, t: seq<Edge>, table: map<Id, Edge>)
    requires ListsTable(s, table) && ListsTable(t, table)
    ensures multiset(s) == multiset(t)
  {
    forall e ensures multiset(s)[e] == multiset(t)[e] {
      OccursOnce(s, e);
      OccursOnce(t, e);
      assert e in s <==> e in t;
    }
  }

  lemma {:induction false} OccursOnce(s: seq<Edge>, e: Edge)
    requires NoDuplicates(s)
    ensures multiset(s)[e] == if e in s then 1 else 0
  {
    if s != [] {
      var n := |s| - 1;
      assert s == s[..n] + [s[n]];
      OccursOnce(s[..n], e);
      assert s[n] !in s[..n];
    }
  }

  lemma {:induction false} ScanConcat(a: seq<Edge>, b: seq<Edge>, u: Id)
    ensures Scan(a + b, u) == Scan(a, u) + Scan(b, u)
  {
    if b == [] {
      assert a + b == a;
    } else {
      var n := |b| - 1;
      assert b == b[..n] + [b[n]] && a + b == (a + b[..n]) + [b[n]];
      ScanConcat(a, b[..n], u);
      ScanSnoc(a + b[..n], b[n], u);
      ScanSnoc(b[..n], b[n], u);
      ConcatAssociative(Scan(a, u), Scan(b[..n], u), EntriesOf(b[n], u));
    }
  }

  lemma {:induction false} ScanSplit(l: seq<Edge>, x: Edge, r: seq<Edge>, u: Id)
    ensures multiset(Scan(l + [x] + r, u)) == multiset(Scan(l + r, u)) + multiset(EntriesOf(x, u))
  {
    ScanConcat(l + [x], r, u);
    ScanSnoc(l, x, u);
    ScanConcat(l, r, u);
  }

  lemma {:induction false} ScanPermutes(a: seq<Edge>, b: seq<Edge>, u: Id)
    requires multiset(a) == multiset(b)
    ensures multiset(Scan(a, u)) == multiset(Scan(b, u))
    decreases |a|
  {
    if a == [] {
      assert |multiset(b)| == 0;
    } else {
      var n := |a| - 1;
      var init, x := a[..n], a[n];
      assert a == init + [x];
      assert x in multiset(b);
      var j :| 0 <= j < |b| && b[j] == x;
      var l, r := b[..j], b[j + 1..];
      assert b == l + [x] + r;
      CancelOne(multiset(init), multiset(l + r), x);
      ScanPermutes(init, l + r, u);
      ScanSplit(l, x, r, u);
      ScanSnoc(init, x, u);
    }
  }

  // the edges of s give every node the same entries as those of t
  ghost predicate SameEntries(s: seq<Edge>, t: seq<Edge>) {
    forall u :: multiset(Scan(s, u)) == multiset(Scan(t, u))
  }

  lemma {:induction false} TableScanIff(log: seq<Edge>)
    ensures SameEntries(Table(log), log) <==> DistinctIds(log)
  {
    if DistinctIds(log) {
      TableOfDistinct(log);
    } else {
      var u := TableStrictlySmaller(log);
      assert |multiset(Scan(Table(log), u))| < |multiset(Scan(log, u))|;
    }
  }

  lemma {:induction false} SameEntriesPermute(s: seq<Edge>, t: seq<Edge>, log: seq<Edge>)
    requires multiset(s) == multiset(t)
    ensures SameEntries(s, log) <==> SameEntries(t, log)
  {
    forall u ensures multiset(Scan(s, u)) == multiset(Scan(t, u)) {
      ScanPermutes(s, t, u);
    }
  }

  // The index agrees with a scan of the edge table, taken in any order, for every node exactly when no
  // edge id was added twice: adding an id again replaces the edge in the table and leaves the old entries
  // in the index.
  lemma {:induction false} IndexMatchesTableIff(g: TemporalHeteroGraphDataset, s: seq<Edge>)
    requires g.Valid() && ListsTable(s, g.edges)
    ensures (forall u :: multiset(Scan(s, u)) == multiset(At(g.incidentAdj, u))) <==> DistinctIds(g.log)
  {
    assert forall u :: multiset(At(g.incidentAdj, u)) == multiset(Scan(g.log, u));
    TableListsEdges(g.log);
    ListingsPermute(s, Table(g.log), g.edges);
    SameEntriesPermute(s, Table(g.log), g.log);
    TableScanIff(g.log);
  }

}
