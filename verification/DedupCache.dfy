// The duplicate cache of the ingestion adapter: a set for the test and a deque of bounded length for the
// eviction order.
// Source: ml-service/graphsage/passive_ingestion.py

module DedupCache {
  import opened Common

  type Id = string

  // the ids in the cache: a set for the test, and a deque of at most `cap` ids for the eviction order
  datatype Cache = Cache(cap: nat, seen: set<Id>, order: seq<Id>)

  // append to a deque of bounded length: a full deque silently drops its oldest element
  function PushBounded(order: seq<Id>, cap: nat, id: Id): seq<Id> {
    if cap == 0 then order
    else if |order| >= cap then order[1..] + [id]
    else order + [id]
  }

  datatype Remembered = Stored(cache: Cache) | EmptyDequeError(cache: Cache)

  function Remember(c: Cache, id: Id): Remembered {
    var seen, order := c.seen + {id}, PushBounded(c.order, c.cap, id);
    if |seen| <= c.cap then Stored(Cache(c.cap, seen, order))
    else if order == [] then EmptyDequeError(Cache(c.cap, seen, order))
    else Stored(Cache(c.cap, seen - {order[0]}, order[1..]))
  }

  // ---------------------------------------------------------------------------
  // The closed form over the ids remembered so far
  // ---------------------------------------------------------------------------

  function LastOnes(kept: seq<Id>, n: nat): seq<Id> {
    if |kept| <= n then kept else kept[|kept| - n..]
  }

  // the deque after the ids `kept`
  function OrderOf(kept: seq<Id>, cap: pos): seq<Id>
  {
    if |kept| <= cap then kept else LastOnes(kept, cap - 1)
  }

  // the set after the ids `kept`: once the deque has overflowed, the very first id is stranded in it
  function SeenOf(kept: seq<Id>, cap: pos): set<Id>
  {
    SetOf(OrderOf(kept, cap)) + (if |kept| <= cap then {} else {kept[0]})
  }

  // c is the cache of capacity at least 1 after the ids `kept`, each new when it came
  ghost predicate Holds(c: Cache, kept: seq<Id>) {
    && c.cap >= 1
    && c.order == OrderOf(kept, c.cap) && c.seen == SeenOf(kept, c.cap)
    && NoDuplicates(c.order)
    && (|kept| > c.cap ==> kept[0] !in c.order)
  }

  lemma {:induction false} SetOfDistinct(s: seq<Id>)
    requires NoDuplicates(s)
    ensures |SetOf(s)| == |s|
  {
    if s != [] {
      var n := |s| - 1;
      SetOfDistinct(s[..n]);
      assert s == s[..n] + [s[n]];
      assert s[n] !in s[..n];
      assert SetOf(s) == SetOf(s[..n]) + {s[n]};
    }
  }

  lemma {:induction false} SetOfSnoc(s: seq<Id>, x: Id)
    ensures SetOf(s + [x]) == SetOf(s) + {x}
  {
  }

  // before the first eviction the cache just grows
  lemma {:induction false} RememberGrows(c: Cache, kept: seq<Id>, id: Id)
    requires Holds(c, kept) && id !in c.seen && |kept| < c.cap
    ensures Remember(c, id) == Stored(Cache(c.cap, SeenOf(kept + [id], c.cap), OrderOf(kept + [id], c.cap)))
    ensures Holds(Remember(c, id).cache, kept + [id])
  {
    SetOfSnoc(kept, id);
    assert NoDuplicates(kept + [id]);
    SetOfDistinct(kept + [id]);
  }

  // one eviction from a full deque, with one id stranded in the set beside it
  lemma {:induction false} Evict(order: seq<Id>, stranded: Id)
    requires order != [] && NoDuplicates(order) && stranded !in order
    ensures |SetOf(order) + {stranded}| == |order| + 1
    ensures (SetOf(order) + {stranded}) - {order[0]} == SetOf(order[1..]) + {stranded}
    ensures NoDuplicates(order[1..]) && stranded !in order[1..]
  {
    SetOfDistinct(order);
    assert order[0] in order;
    assert forall x :: x in order <==> x == order[0] || x in order[1..];
  }

  lemma {:induction false} RememberEvicts(c: Cache, id: Id, order: seq<Id>, stranded: Id)
    requires c.cap >= 1 && |order| == c.cap && NoDuplicates(order) && stranded !in order
    requires PushBounded(c.order, c.cap, id) == order && c.seen + {id} == SetOf(order) + {stranded}
    ensures Remember(c, id) == Stored(Cache(c.cap, SetOf(order[1..]) + {stranded}, order[1..]))
    ensures NoDuplicates(order[1..]) && stranded !in order[1..]
  {
    Evict(order, stranded);
  }

  lemma {:induction false} DistinctSnoc(s: seq<Id>, x: Id)
    requires NoDuplicates(s) && x !in s
    ensures NoDuplicates(s + [x])
  {
  }

  // the first overflow: the deque drops one id by itself, and the explicit eviction removes the next
  lemma {:induction false} RememberOverflows(c: Cache, kept: seq<Id>, id: Id)
    requires Holds(c, kept) && id !in c.seen && |kept| == c.cap
    ensures Remember(c, id).Stored? && Holds(Remember(c, id).cache, kept + [id])
  {
    var order := kept[1..] + [id];
    HeadIsDistinct(kept);
    DistinctSnoc(kept[1..], id);
    SetOfSnoc(kept[1..], id);
    assert SetOf(order) + {kept[0]} == c.seen + {id};
    RememberEvicts(c, id, order, kept[0]);
    LastAfterOverflow(kept, id, c.cap);
  }

  lemma {:induction false} HeadIsDistinct(s: seq<Id>)
    requires s != [] && NoDuplicates(s)
    ensures SetOf(s) == SetOf(s[1..]) + {s[0]} && s[0] !in s[1..] && NoDuplicates(s[1..])
  {
    assert s == [s[0]] + s[1..];
  }

  lemma {:induction false} LastAfterOverflow(kept: seq<Id>, id: Id, cap: pos)
    requires |kept| >= cap
    ensures |kept| == cap ==> OrderOf(kept + [id], cap) == (kept[1..] + [id])[1..]
    ensures |kept| > cap ==> OrderOf(kept + [id], cap) == (OrderOf(kept, cap) + [id])[1..]
  {
    var n := |kept| + 1 - (cap - 1);
    assert OrderOf(kept + [id], cap) == (kept + [id])[n..];
    if |kept| == cap {
      assert (kept + [id])[2..] == (kept[1..] + [id])[1..];
    } else {
      assert OrderOf(kept, cap) == kept[n - 1..];
      assert (kept + [id])[n..] == (kept[n - 1..] + [id])[1..];
    }
  }

  // from then on the deque is one short of full, so only the explicit eviction acts
  lemma {:induction false} RememberRotates(c: Cache, kept: seq<Id>, id: Id)
    requires Holds(c, kept) && id !in c.seen && |kept| > c.cap
    ensures Remember(c, id).Stored? && Holds(Remember(c, id).cache, kept + [id])
  {
    var order := c.order + [id];
    DistinctSnoc(c.order, id);
    SetOfSnoc(c.order, id);
    assert kept[0] in c.seen;
    RememberEvicts(c, id, order, kept[0]);
    LastAfterOverflow(kept, id, c.cap);
  }

  lemma {:induction false} RememberExact(c: Cache, kept: seq<Id>, id: Id)
    requires Holds(c, kept) && id !in c.seen
    ensures Remember(c, id).Stored? && Holds(Remember(c, id).cache, kept + [id])
  {
    if |kept| < c.cap {
      RememberGrows(c, kept, id);
    } else if |kept| == c.cap {
      RememberOverflows(c, kept, id);
    } else {
      RememberRotates(c, kept, id);
    }
  }

  // What the cache remembers, exactly: everything while at most cap ids came, and after that the last
  // cap - 1 ids and, for ever, the first. The set never exceeds the capacity.
  lemma {:induction false} CacheRemembers(c: Cache, kept: seq<Id>, id: Id)
    requires Holds(c, kept)
    ensures id in c.seen <==>
            if |kept| <= c.cap then id in kept else id == kept[0] || id in kept[|kept| - (c.cap - 1)..]
    ensures |c.seen| <= c.cap
    ensures SetOf(c.order) <= c.seen && |c.seen - SetOf(c.order)| <= 1
  {
    SetOfDistinct(c.order);
    if |kept| > c.cap {
      assert c.seen - SetOf(c.order) == {kept[0]};
    } else {
      assert c.seen - SetOf(c.order) == {};
    }
  }

  // So a cache of capacity cap does not remember the last cap ids: once more than cap distinct ids have
  // come, the cap-th last is always forgotten, and would be accepted again.
  lemma {:induction false} CapthLastIsForgotten(c: Cache, kept: seq<Id>)
    requires Holds(c, kept) && |kept| > c.cap && NoDuplicates(kept)
    ensures kept[|kept| - c.cap] !in c.seen
  {
    var id := kept[|kept| - c.cap];
    CacheRemembers(c, kept, id);
    var first := |kept| - (c.cap - 1);
    forall j | 0 <= j < c.cap - 1 ensures kept[first..][j] != id {
      assert kept[first..][j] == kept[first + j];
    }
  }
}
