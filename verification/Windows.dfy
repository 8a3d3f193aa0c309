// Sliding-window features: per-entity lists that are pruned and appended to row by row, and the
// whole-history definitions they stand for.
// Sources: ml-service/data_pipeline/features.py, ml-service/data_pipeline/temporal_features.py

module Windows {
  import opened Common

  datatype Event<T> = Event(t: int, val: T)

  // one row of a table, seen by one feature: the entity it belongs to, its time, its value
  datatype Row<T> = Row(key: Option<string>, t: int, val: T)

  // ---------------------------------------------------------------------------
  // Whole-history definitions
  // ---------------------------------------------------------------------------

  // the events of entity e in the first n rows, oldest row first
  function History<T>(rows: seq<Row<T>>, n: nat, e: string): seq<Event<T>>
    requires n <= |rows|
  {
    if n == 0 then []
    else if rows[n - 1].key == Some(e) then History(rows, n - 1, e) + [Event(rows[n - 1].t, rows[n - 1].val)]
    else History(rows, n - 1, e)
  }

  function Between<T>(h: seq<Event<T>>, lo: int, hi: int): seq<Event<T>> {
    if h == [] then []
    else
      var n := |h| - 1;
      if lo <= h[n].t <= hi then Between(h[..n], lo, hi) + [h[n]] else Between(h[..n], lo, hi)
  }

  function Since<T>(h: seq<Event<T>>, lo: int): seq<Event<T>> {
    if h == [] then []
    else
      var n := |h| - 1;
      if lo <= h[n].t then Since(h[..n], lo) + [h[n]] else Since(h[..n], lo)
  }

  ghost predicate Sorted<T>(h: seq<Event<T>>) {
    forall i, j :: 0 <= i < j < |h| ==> h[i].t <= h[j].t
  }

  // ---------------------------------------------------------------------------
  // The pruned list
  // ---------------------------------------------------------------------------

  // the list without its leading run of events older than lo
  function DropOld<T>(l: seq<Event<T>>, lo: int): seq<Event<T>> {
    if l != [] && l[0].t < lo then DropOld(l[1..], lo) else l
  }

  // what the per-entity list holds after the events of h: each event prunes, then is appended
  function Kept<T>(h: seq<Event<T>>, window: int): seq<Event<T>> {
    if h == [] then []
    else
      var n := |h| - 1;
      DropOld(Kept(h[..n], window), h[n].t - window) + [h[n]]
  }

  lemma {:induction false} SinceExact<T(!new)>(h: seq<Event<T>>, lo: int)
    ensures forall x :: x in Since(h, lo) <==> x in h && lo <= x.t
    ensures |Since(h, lo)| <= |h|
  {
    if h != [] {
      var n := |h| - 1;
      SinceExact(h[..n], lo);
      assert h == h[..n] + [h[n]];
    }
  }

  lemma {:induction false} SinceSnoc<T(!new)>(h: seq<Event<T>>, x: Event<T>, lo: int)
    ensures Since(h + [x], lo) == if lo <= x.t then Since(h, lo) + [x] else Since(h, lo)
  {
    assert (h + [x])[..|h|] == h;
  }

  lemma {:induction false} SortedSnoc<T(!new)>(h: seq<Event<T>>, x: Event<T>)
    ensures Sorted(h + [x]) <==> Sorted(h) && forall y :: y in h ==> y.t <= x.t
  {
    var s := h + [x];
    if Sorted(s) {
      forall y | y in h ensures y.t <= x.t {
        var k :| 0 <= k < |h| && h[k] == y;
        assert s[k] == y && s[|h|] == x;
      }
      forall i, j | 0 <= i < j < |h| ensures h[i].t <= h[j].t {
        assert s[i] == h[i] && s[j] == h[j];
      }
    }
  }

  lemma {:induction false} SinceSorted<T(!new)>(h: seq<Event<T>>, lo: int)
    requires Sorted(h)
    ensures Sorted(Since(h, lo))
  {
    if h != [] {
      var n := |h| - 1;
      assert h == h[..n] + [h[n]];
      SortedSnoc(h[..n], h[n]);
      SinceSorted(h[..n], lo);
      SinceExact(h[..n], lo);
      forall y | y in Since(h[..n], lo) ensures y.t <= h[n].t {
        assert y in h[..n];
      }
      SortedSnoc(Since(h[..n], lo), h[n]);
    }
  }

  lemma {:induction false} SinceConcat<T(!new)>(a: seq<Event<T>>, b: seq<Event<T>>, lo: int)
    ensures Since(a + b, lo) == Since(a, lo) + Since(b, lo)
  {
    if b == [] {
      assert a + b == a;
    } else {
      var n := |b| - 1;
      assert (a + b)[..|a| + n] == a + b[..n];
      SinceConcat(a, b[..n], lo);
    }
  }

  lemma {:induction false} SinceSince<T(!new)>(h: seq<Event<T>>, lo: int, lo': int)
    requires lo <= lo'
    ensures Since(Since(h, lo), lo') == Since(h, lo')
  {
    if h != [] {
      var n := |h| - 1;
      SinceSince(h[..n], lo, lo');
      SinceSnoc(Since(h[..n], lo), h[n], lo');
    }
  }

  lemma {:induction false} DropOldSorted<T(!new)>(l: seq<Event<T>>, lo: int)
    requires Sorted(l)
    ensures DropOld(l, lo) == Since(l, lo)
  {
    if l != [] {
      assert l == [l[0]] + l[1..];
      SinceConcat([l[0]], l[1..], lo);
      DropOldSorted(l[1..], lo);
      if l[0].t >= lo {
        AllSince(l, lo);
      }
    }
  }

  lemma {:induction false} AllSince<T(!new)>(l: seq<Event<T>>, lo: int)
    requires forall x :: x in l ==> lo <= x.t
    ensures Since(l, lo) == l
  {
    if l != [] {
      AllSince(l[..|l| - 1], lo);
    }
  }

  lemma {:induction false} KeptSnoc<T(!new)>(h: seq<Event<T>>, x: Event<T>, window: int)
    ensures Kept(h + [x], window) == DropOld(Kept(h, window), x.t - window) + [x]
  {
    assert (h + [x])[..|h|] == h;
  }

  lemma {:induction false} PrunedSnoc<T(!new)>(g: seq<Event<T>>, x: Event<T>, window: int, lo: int)
    requires Sorted(g + [x]) && x.t - window <= lo
    requires DropOld(Kept(g, window), x.t - window) == Since(g, x.t - window)
    ensures DropOld(Kept(g + [x], window), lo) == Since(g + [x], lo)
  {
    KeptSnoc(g, x, window);
    DropPrunedSnoc(g, x, x.t - window, lo);
  }

  // On sorted input, pruning loses nothing that a later query over at most the window can see.
  lemma {:induction false} PrunedIsSince<T(!new)>(h: seq<Event<T>>, window: int, lo: int)
    requires Sorted(h) && (h != [] ==> lo >= h[|h| - 1].t - window)
    ensures DropOld(Kept(h, window), lo) == Since(h, lo)
  {
    if h != [] {
      var n := |h| - 1;
      var g, x := h[..n], h[n];
      assert h == g + [x];
      SortedSnoc(g, x);
      assert g != [] ==> g[n - 1] in g;
      PrunedIsSince(g, window, x.t - window);
      PrunedSnoc(g, x, window, lo);
    }
  }

  lemma {:induction false} DropPrunedSnoc<T(!new)>(g: seq<Event<T>>, x: Event<T>, lo: int, lo': int)
    requires Sorted(g + [x]) && lo <= lo'
    ensures DropOld(Since(g, lo) + [x], lo') == Since(g + [x], lo')
  {
    SortedSnoc(g, x);
    SinceExact(g, lo);
    SinceSorted(g, lo);
    forall y | y in Since(g, lo) ensures y.t <= x.t {
      assert y in g;
    }
    SortedSnoc(Since(g, lo), x);
    DropOldSorted(Since(g, lo) + [x], lo');
    SinceSnoc(Since(g, lo), x, lo');
    SinceSince(g, lo, lo');
    SinceSnoc(g, x, lo');
  }

  // ---------------------------------------------------------------------------
  // Velocity
  // ---------------------------------------------------------------------------

  // the column as the code computes it
  function Velocity(rows: seq<Row<()>>, i: nat, window: int): nat
    requires i < |rows|
  {
    if rows[i].key.None? then 1 else |Kept(History(rows, i + 1, rows[i].key.value), window)|
  }

  // the column as it is documented: events of the entity in [T - window, T], the row's own included
  function WindowCount(rows: seq<Row<()>>, i: nat, window: int): nat
    requires i < |rows|
  {
    if rows[i].key.None? then 1
    else 1 + |Between(History(rows, i, rows[i].key.value), rows[i].t - window, rows[i].t)|
  }

  ghost predicate EntitySorted<T(!new)>(rows: seq<Row<T>>) {
    forall e :: Sorted(History(rows, |rows|, e))
  }

  // the dictionary of pruned lists after n rows
  ghost predicate Tracks<T(!new)>(m: map<string, seq<Event<T>>>, rows: seq<Row<T>>, n: nat, window: int)
    requires n <= |rows|
  {
    forall e :: Lookup(m, e) == Kept(History(rows, n, e), window)
  }

  lemma {:induction false} KeptStep<T(!new)>(rows: seq<Row<T>>, i: nat, e: string, window: int)
    requires i < |rows|
    ensures Kept(History(rows, i + 1, e), window) ==
            if rows[i].key == Some(e)
            then DropOld(Kept(History(rows, i, e), window), rows[i].t - window) + [Event(rows[i].t, rows[i].val)]
            else Kept(History(rows, i, e), window)
  {
    if rows[i].key == Some(e) {
      var h, x := History(rows, i, e), Event(rows[i].t, rows[i].val);
      assert History(rows, i + 1, e) == h + [x] && (h + [x])[..|h|] == h;
    } else {
      assert History(rows, i + 1, e) == History(rows, i, e);
    }
  }

  lemma {:induction false} TracksStep<T(!new)>(m: map<string, seq<Event<T>>>, rows: seq<Row<T>>, i: nat, window: int)
    requires i < |rows| && Tracks(m, rows, i, window)
    ensures rows[i].key.None? ==> Tracks(m, rows, i + 1, window)
    ensures rows[i].key.Some? ==>
              var e := rows[i].key.value;
              && Lookup(m, e) == Kept(History(rows, i, e), window)
              && Tracks(m[e := DropOld(Lookup(m, e), rows[i].t - window) + [Event(rows[i].t, rows[i].val)]],
                        rows, i + 1, window)
  {
    var m' := if rows[i].key.None? then m
              else m[rows[i].key.value :=
                       DropOld(Lookup(m, rows[i].key.value), rows[i].t - window) + [Event(rows[i].t, rows[i].val)]];
    forall e ensures Lookup(m', e) == Kept(History(rows, i + 1, e), window) {
      TracksAt(m, rows, i, e, window);
      KeptStep(rows, i, e, window);
    }
    if rows[i].key.Some? {
      TracksAt(m, rows, i, rows[i].key.value, window);
    }
  }

  lemma {:induction false} TracksAt<T(!new)>(
    m: map<string, seq<Event<T>>>, rows: seq<Row<T>>, n: nat, e: string, window: int)
    requires n <= |rows| && Tracks(m, rows, n, window)
    ensures Lookup(m, e) == Kept(History(rows, n, e), window)
  {
  }

  // One visit to an entity's list, as every window function makes it: prune the list (if the entity
  // is known), hand the rest out for measuring, and append the current event.
  method Visit<T>(m: map<string, seq<Event<T>>>, e: string, lo: int, x: Event<T>)
    returns (m': map<string, seq<Event<T>>>, past: seq<Event<T>>)
    ensures past == DropOld(Lookup(m, e), lo)
    ensures m' == m[e := past + [x]]
  {
    past := [];
    if e !in m {
      m' := m[e := [x]];
      assert past + [x] == [x];
    } else {
      var idx := 0;
      while idx < |m[e]| && m[e][idx].t < lo
        invariant idx <= |m[e]| && DropOld(m[e], lo) == DropOld(m[e][idx..], lo)
      {
        assert m[e][idx..][1..] == m[e][idx + 1..];
        idx := idx + 1;
      }
      past := m[e][idx..];
      m' := m[e := past + [x]];
    }
  }

  lemma {:induction false} VelocityIsPruned(rows: seq<Row<()>>, i: nat, window: int)
    requires i < |rows| && rows[i].key.Some?
    ensures Velocity(rows, i, window)
            == |DropOld(Kept(History(rows, i, rows[i].key.value), window), rows[i].t - window)| + 1
  {
    KeptStep(rows, i, rows[i].key.value, window);
  }

  ghost predicate VelocityColumn(out: seq<nat>, rows: seq<Row<()>>, window: int) {
    |out| <= |rows| && forall i :: 0 <= i < |out| ==> out[i] == Velocity(rows, i, window)
  }

  lemma {:induction false} VelocityColumnSnoc(out: seq<nat>, rows: seq<Row<()>>, window: int, n: nat)
    requires VelocityColumn(out, rows, window) && |out| < |rows| && n == Velocity(rows, |out|, window)
    ensures VelocityColumn(out + [n], rows, window)
  {
  }

  // the loop body for one row
  method CountPast(m: map<string, seq<Event<()>>>, rows: seq<Row<()>>, i: nat, window: int)
    returns (m': map<string, seq<Event<()>>>, count: nat)
    requires i < |rows| && Tracks(m, rows, i, window)
    ensures Tracks(m', rows, i + 1, window) && count == Velocity(rows, i, window)
  {
    var t := rows[i].t;
    m', count := m, 1;
    TracksStep(m, rows, i, window);
    if rows[i].key.Some? {
      var past;
      VelocityIsPruned(rows, i, window);
      m', past := Visit(m, rows[i].key.value, t - window, Event(t, rows[i].val));
      count := |past| + 1;
    }
  }

  method ComputePointInTimeVelocities(rows: seq<Row<()>>, window: int) returns (velocities: seq<nat>)
    ensures |velocities| == |rows| && VelocityColumn(velocities, rows, window)
  {
    velocities := [];
    var entityTimes: map<string, seq<Event<()>>> := map[];
    for i := 0 to |rows|
      invariant |velocities| == i
      invariant VelocityColumn(velocities, rows, window)
      invariant Tracks(entityTimes, rows, i, window)
    {
      var count;
      entityTimes, count := CountPast(entityTimes, rows, i, window);
      VelocityColumnSnoc(velocities, rows, window, count);
      velocities := velocities + [count];
    }
  }

  // ---------------------------------------------------------------------------
  // Histories and rows
  // ---------------------------------------------------------------------------

  // the rows of an entity among the first n, stamped from lo to hi
  function RowsOf<T>(rows: seq<Row<T>>, n: nat, e: string, lo: int, hi: int): set<int>
    requires n <= |rows|
  {
    set k | 0 <= k < n && rows[k].key == Some(e) && lo <= rows[k].t <= hi
  }

  // and those stamped from lo on
  function RowsSince<T>(rows: seq<Row<T>>, n: nat, e: string, lo: int): set<int>
    requires n <= |rows|
  {
    set k | 0 <= k < n && rows[k].key == Some(e) && lo <= rows[k].t
  }

  lemma {:induction false} SinceCounts<T(!new)>(rows: seq<Row<T>>, n: nat, e: string, lo: int)
    requires n <= |rows|
    ensures |Since(History(rows, n, e), lo)| == |RowsSince(rows, n, e, lo)|
  {
    if n > 0 {
      SinceCounts(rows, n - 1, e, lo);
      SinceSnoc(History(rows, n - 1, e), Event(rows[n - 1].t, rows[n - 1].val), lo);
      assert RowsSince(rows, n, e, lo)
             == RowsSince(rows, n - 1, e, lo)
                + (if rows[n - 1].key == Some(e) && lo <= rows[n - 1].t then {n - 1} else {});
    }
  }

  lemma {:induction false} BetweenCounts<T(!new)>(rows: seq<Row<T>>, n: nat, e: string, lo: int, hi: int)
    requires n <= |rows|
    ensures |Between(History(rows, n, e), lo, hi)| == |RowsOf(rows, n, e, lo, hi)|
  {
    if n > 0 {
      var h, x := History(rows, n - 1, e), Event(rows[n - 1].t, rows[n - 1].val);
      BetweenCounts(rows, n - 1, e, lo, hi);
      assert (h + [x])[..|h|] == h;
      assert RowsOf(rows, n, e, lo, hi)
             == RowsOf(rows, n - 1, e, lo, hi)
                + (if rows[n - 1].key == Some(e) && lo <= rows[n - 1].t <= hi then {n - 1} else {});
    }
  }

  lemma {:induction false} SinceMembers<T(!new)>(rows: seq<Row<T>>, n: nat, e: string, lo: int, x: Event<T>)
    requires n <= |rows|
    ensures x in Since(History(rows, n, e), lo) <==>
            exists k :: 0 <= k < n && rows[k].key == Some(e) && lo <= rows[k].t && Event(rows[k].t, rows[k].val) == x
  {
    if n > 0 {
      SinceMembers(rows, n - 1, e, lo, x);
      SinceSnoc(History(rows, n - 1, e), Event(rows[n - 1].t, rows[n - 1].val), lo);
    }
  }

  lemma {:induction false} HistoryMembers<T(!new)>(rows: seq<Row<T>>, n: nat, e: string, x: Event<T>)
    requires n <= |rows|
    ensures x in History(rows, n, e) <==>
            exists k :: 0 <= k < n && rows[k].key == Some(e) && Event(rows[k].t, rows[k].val) == x
  {
    if n > 0 {
      HistoryMembers(rows, n - 1, e, x);
    }
  }

  // row k is the first, or the last, of the entity's rows among the first n
  predicate FirstRow<T(==)>(rows: seq<Row<T>>, n: nat, e: string, k: nat)
    requires n <= |rows|
  {
    k < n && rows[k].key == Some(e) && forall j :: 0 <= j < k ==> rows[j].key != Some(e)
  }

  predicate LastRow<T(==)>(rows: seq<Row<T>>, n: nat, e: string, k: nat)
    requires n <= |rows|
  {
    k < n && rows[k].key == Some(e) && forall j :: k < j < n ==> rows[j].key != Some(e)
  }

  lemma {:induction false} HistoryEmpty<T(!new)>(rows: seq<Row<T>>, n: nat, e: string)
    requires n <= |rows|
    ensures History(rows, n, e) == [] <==> forall k :: 0 <= k < n ==> rows[k].key != Some(e)
  {
    if n > 0 {
      HistoryEmpty(rows, n - 1, e);
    }
  }

  lemma {:induction false} HistoryFirst<T(!new)>(rows: seq<Row<T>>, n: nat, e: string, k: nat)
    requires n <= |rows| && FirstRow(rows, n, e, k)
    ensures History(rows, n, e) != [] && History(rows, n, e)[0] == Event(rows[k].t, rows[k].val)
  {
    if k < n - 1 {
      HistoryFirst(rows, n - 1, e, k);
    } else {
      HistoryEmpty(rows, k, e);
    }
  }

  lemma {:induction false} HistoryLast<T(!new)>(rows: seq<Row<T>>, n: nat, e: string, k: nat)
    requires n <= |rows| && LastRow(rows, n, e, k)
    ensures var h := History(rows, n, e); h != [] && h[|h| - 1] == Event(rows[k].t, rows[k].val)
  {
    if k < n - 1 {
      HistoryLast(rows, n - 1, e, k);
    }
  }

  // The velocity by row positions: on a table whose entities come in time order, the entity's rows before this
  // one stamped in [T - window, T], and the row itself; 1 for a missing entity.
  lemma {:induction false} VelocityCountsRows(rows: seq<Row<()>>, i: nat, window: int)
    requires i < |rows| && EntitySorted(rows)
    ensures Velocity(rows, i, window)
            == 1 + (if rows[i].key.None? then 0
                    else |RowsOf(rows, i, rows[i].key.value, rows[i].t - window, rows[i].t)|)
  {
    VelocityExactWhenSorted(rows, i, window);
    if rows[i].key.Some? {
      BetweenCounts(rows, i, rows[i].key.value, rows[i].t - window, rows[i].t);
    }
  }

  // pruning drops the leading run of events older than lo, and nothing behind it
  lemma {:induction false} DropOldExact<T(!new)>(l: seq<Event<T>>, lo: int) returns (k: nat)
    ensures k <= |l| && DropOld(l, lo) == l[k..]
    ensures (forall i :: 0 <= i < k ==> l[i].t < lo) && (k < |l| ==> l[k].t >= lo)
  {
    if l != [] && l[0].t < lo {
      var j := DropOldExact(l[1..], lo);
      k := j + 1;
      assert l[1..][j..] == l[k..];
      forall i | 0 <= i < k ensures l[i].t < lo {
        assert i > 0 ==> l[i] == l[1..][i - 1];
      }
    } else {
      k := 0;
    }
  }

  // a history is a matter of the rows up to it
  lemma {:induction false} HistoryCausal<T(!new)>(rows: seq<Row<T>>, rows': seq<Row<T>>, n: nat, e: string)
    requires n <= |rows| && n <= |rows'| && rows[..n] == rows'[..n]
    ensures History(rows, n, e) == History(rows', n, e)
  {
    if n > 0 {
      assert rows[..n - 1] == rows[..n][..n - 1] && rows'[..n - 1] == rows'[..n][..n - 1];
      assert rows[n - 1] == rows[..n][n - 1] && rows'[n - 1] == rows'[..n][n - 1];
      HistoryCausal(rows, rows', n - 1, e);
    }
  }

  // up to a row of a sorted entity its history is sorted and not later than the row
  lemma {:induction false} HistorySorted<T(!new)>(rows: seq<Row<T>>, i: nat, e: string)
    requires i < |rows| && EntitySorted(rows) && rows[i].key == Some(e)
    ensures Sorted(History(rows, i, e)) && forall x :: x in History(rows, i, e) ==> x.t <= rows[i].t
  {
    HistoryPrefix(rows, i + 1, |rows|, e);
    assert Sorted(History(rows, |rows|, e));
    SortedSnoc(History(rows, i, e), Event(rows[i].t, rows[i].val));
  }

  lemma {:induction false} HistoryPrefix<T(!new)>(rows: seq<Row<T>>, m: nat, n: nat, e: string)
    requires m <= n <= |rows|
    ensures History(rows, m, e) <= History(rows, n, e)
    decreases n
  {
    if m < n {
      HistoryPrefix(rows, m, n - 1, e);
    }
  }

  lemma {:induction false} BetweenIsSince<T(!new)>(h: seq<Event<T>>, lo: int, hi: int)
    requires forall x :: x in h ==> x.t <= hi
    ensures Between(h, lo, hi) == Since(h, lo)
  {
    if h != [] {
      BetweenIsSince(h[..|h| - 1], lo, hi);
    }
  }

  lemma {:induction false} BetweenAll<T(!new)>(h: seq<Event<T>>, lo: int, hi: int)
    ensures |Between(h, lo, hi)| <= |h|
    ensures |Between(h, lo, hi)| == |h| ==> forall x :: x in h ==> x.t <= hi
  {
    if h != [] {
      BetweenAll(h[..|h| - 1], lo, hi);
      assert h == h[..|h| - 1] + [h[|h| - 1]];
    }
  }

  lemma {:induction false} KeptAll<T(!new)>(h: seq<Event<T>>, window: int)
    requires forall a, b :: a in h && b in h ==> a.t - b.t <= window
    ensures Kept(h, window) == h
  {
    if h != [] {
      var n := |h| - 1;
      var g, x := h[..n], h[n];
      assert h == g + [x];
      KeptAll(g, window);
      KeptSnoc(g, x, window);
      if n > 0 {
        assert g[0] in h && x in h;
        assert DropOld(g, x.t - window) == g;
      }
    }
  }

  lemma {:induction false} SpreadOf<T(!new)>(h: seq<Event<T>>) returns (lo: int, hi: int)
    ensures forall x :: x in h ==> lo <= x.t <= hi
  {
    if h == [] {
      lo, hi := 0, 0;
    } else {
      lo, hi := SpreadOf(h[1..]);
      lo, hi := if h[0].t < lo then h[0].t else lo, if h[0].t > hi then h[0].t else hi;
    }
  }

  lemma {:induction false} VelocityExactWhenSorted(rows: seq<Row<()>>, i: nat, window: int)
    requires i < |rows| && EntitySorted(rows)
    ensures Velocity(rows, i, window) == WindowCount(rows, i, window)
  {
    if rows[i].key.Some? {
      var e, t := rows[i].key.value, rows[i].t;
      var h := History(rows, i, e);
      HistorySorted(rows, i, e);
      VelocityIsPruned(rows, i, window);
      PrunedSuffices(h, window, t);
      BetweenIsSince(h, t - window, t);
    }
  }

  lemma {:induction false} PrunedSuffices<T(!new)>(h: seq<Event<T>>, window: int, t: int)
    requires Sorted(h) && forall x :: x in h ==> x.t <= t
    ensures DropOld(Kept(h, window), t - window) == Since(h, t - window)
  {
    if h != [] {
      assert h[|h| - 1] in h;
    }
    PrunedIsSince(h, window, t - window);
  }

  lemma {:induction false} OrderFromCount(rows: seq<Row<()>>, i: nat, e: string)
    requires i < |rows| && rows[i].key == Some(e)
    requires forall window :: Velocity(rows, i, window) == WindowCount(rows, i, window)
    ensures forall x :: x in History(rows, i, e) ==> x.t <= rows[i].t
  {
    var h, x := History(rows, i, e), Event(rows[i].t, rows[i].val);
    var lo, hi := SpreadOf(h + [x]);
    var window := hi - lo;
    KeptAll(h + [x], window);
    assert Velocity(rows, i, window) == WindowCount(rows, i, window);
    BetweenAll(h, x.t - window, x.t);
  }

  lemma {:induction false} SortedFromCounts(rows: seq<Row<()>>, n: nat, e: string)
    requires n <= |rows|
    requires forall i, window :: 0 <= i < |rows| ==> Velocity(rows, i, window) == WindowCount(rows, i, window)
    ensures Sorted(History(rows, n, e))
    decreases n
  {
    if n > 0 {
      SortedFromCounts(rows, n - 1, e);
      if rows[n - 1].key == Some(e) {
        OrderFromCount(rows, n - 1, e);
        SortedSnoc(History(rows, n - 1, e), Event(rows[n - 1].t, rows[n - 1].val));
      }
    }
  }

  // The velocity column means what it is documented to mean, for every window length, exactly
  // when each entity's rows come in time order.
  lemma {:induction false} VelocityExactIffSorted(rows: seq<Row<()>>)
    ensures (forall i, window :: 0 <= i < |rows| ==> Velocity(rows, i, window) == WindowCount(rows, i, window))
            <==> EntitySorted(rows)
  {
    if forall i, window :: 0 <= i < |rows| ==> Velocity(rows, i, window) == WindowCount(rows, i, window) {
      forall e ensures Sorted(History(rows, |rows|, e)) {
        SortedFromCounts(rows, |rows|, e);
      }
    }
    if EntitySorted(rows) {
      forall i, window | 0 <= i < |rows| ensures Velocity(rows, i, window) == WindowCount(rows, i, window) {
        VelocityExactWhenSorted(rows, i, window);
      }
    }
  }

  // An out-of-order row is counted with its future: the second row's window [0, 10] holds one event.
  lemma {:induction false} VelocityUnsortedCounterexample()
    ensures var rows := [Row(Some("a"), 50, ()), Row(Some("a"), 10, ())];
            Velocity(rows, 1, 10) == 2 && WindowCount(rows, 1, 10) == 1
  {
    var rows := [Row(Some("a"), 50, ()), Row(Some("a"), 10, ())];
    var x, y := Event(50, ()), Event(10, ());
    assert History(rows, 1, "a") == [x];
    assert History(rows, 2, "a") == [x, y];
    assert [x, y][..1] == [x] && [x][..0] == [];
    assert Kept([x], 10) == [x];
    assert Between([x], 0, 10) == [];
  }
}
