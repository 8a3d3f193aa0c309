// Access concentration: the Herfindahl index of an employee's accesses, the accumulation tracker that
// counts concentrated employees, and the anomaly score built on the index.
// Sources: ml-service/graphsage/relationship_features.py, ml-service/graphsage/collusion_tracker.py

module Concentration {
  import opened Common

  // ---------------------------------------------------------------------------
  // The counter and the index
  // ---------------------------------------------------------------------------

  datatype Count = Count(key: string, n: nat)

  // one more occurrence of x; keys keep the order of their first occurrence
  function Bump(c: seq<Count>, x: string): seq<Count> {
    if c == [] then [Count(x, 1)]
    else if c[0].key == x then [Count(x, c[0].n + 1)] + c[1..]
    else [c[0]] + Bump(c[1..], x)
  }

  function Counter(items: seq<string>): seq<Count> {
    if items == [] then [] else Bump(Counter(items[..|items| - 1]), items[|items| - 1])
  }

  function Square(x: real): real {
    x * x
  }

  function SharesSquared(c: seq<Count>, total: nat): real
    requires total > 0
  {
    if c == [] then 0.0 else Square(c[0].n as real / total as real) + SharesSquared(c[1..], total)
  }

  // the Herfindahl index of a list of accessed accounts, 0 for an empty list
  function Hhi(accounts: seq<string>): real {
    if accounts == [] then 0.0 else SharesSquared(Counter(accounts), |accounts|)
  }

  function Total(c: seq<Count>): nat {
    if c == [] then 0 else c[0].n + Total(c[1..])
  }

  function SquareTotal(c: seq<Count>): nat {
    if c == [] then 0 else c[0].n * c[0].n + SquareTotal(c[1..])
  }

  ghost predicate DistinctKeys(c: seq<Count>) {
    forall i, j :: 0 <= i < j < |c| ==> c[i].key != c[j].key
  }

  ghost predicate Positive(c: seq<Count>) {
    forall x :: x in c ==> x.n >= 1
  }

  lemma {:induction false} BumpKeys(c: seq<Count>, x: string)
    ensures forall k :: HasKey(Bump(c, x), k) <==> HasKey(c, k) || k == x
  {
    if c != [] && c[0].key != x {
      BumpKeys(c[1..], x);
      forall k ensures HasKey(Bump(c, x), k) <==> HasKey(c, k) || k == x {
        HasKeyCons(c[0], c[1..], k);
        HasKeyCons(c[0], Bump(c[1..], x), k);
        assert c == [c[0]] + c[1..];
      }
    } else if c != [] {
      forall k ensures HasKey(Bump(c, x), k) <==> HasKey(c, k) || k == x {
        HasKeyCons(c[0], c[1..], k);
        HasKeyCons(Count(x, c[0].n + 1), c[1..], k);
        assert c == [c[0]] + c[1..];
      }
    } else {
      assert [Count(x, 1)][0].key == x;
    }
  }

  ghost predicate HasKey(c: seq<Count>, k: string) {
    exists i :: 0 <= i < |c| && c[i].key == k
  }

  lemma {:induction false} HasKeyCons(h: Count, t: seq<Count>, k: string)
    ensures HasKey([h] + t, k) <==> h.key == k || HasKey(t, k)
  {
    var c := [h] + t;
    assert c[0] == h;
    if HasKey(t, k) {
      var i :| 0 <= i < |t| && t[i].key == k;
      assert c[i + 1] == t[i];
    }
    if HasKey(c, k) && h.key != k {
      var i :| 0 <= i < |c| && c[i].key == k;
      assert c[i] == t[i - 1];
    }
  }

  lemma {:induction false} DistinctCons(h: Count, t: seq<Count>)
    ensures DistinctKeys([h] + t) <==> DistinctKeys(t) && !HasKey(t, h.key)
  {
    var c := [h] + t;
    assert forall i :: 0 <= i < |t| ==> c[i + 1] == t[i];
    if DistinctKeys(c) {
      forall i, j | 0 <= i < j < |t| ensures t[i].key != t[j].key {
        assert c[i + 1].key != c[j + 1].key;
      }
      forall i | 0 <= i < |t| ensures t[i].key != h.key {
        assert c[0].key != c[i + 1].key;
      }
    }
    if DistinctKeys(t) && !HasKey(t, h.key) {
      forall i, j | 0 <= i < j < |c| ensures c[i].key != c[j].key {
        assert c[j] == t[j - 1];
        if i > 0 {
          assert c[i] == t[i - 1];
        }
      }
    }
  }

  lemma {:induction false} BumpDistinct(c: seq<Count>, x: string)
    requires DistinctKeys(c)
    ensures DistinctKeys(Bump(c, x))
  {
    if c != [] {
      var h, t := c[0], c[1..];
      assert c == [h] + t;
      DistinctCons(h, t);
      if h.key == x {
        DistinctCons(Count(x, h.n + 1), t);
      } else {
        BumpDistinct(t, x);
        BumpKeys(t, x);
        DistinctCons(h, Bump(t, x));
      }
    }
  }

  lemma {:induction false} BumpCounts(c: seq<Count>, x: string)
    requires Positive(c)
    ensures Positive(Bump(c, x)) && Total(Bump(c, x)) == Total(c) + 1
  {
    if c != [] {
      var t := c[1..];
      assert c[0] in c;
      assert forall y :: y in t ==> y in c;
      if c[0].key == x {
        assert ([Count(x, c[0].n + 1)] + t)[1..] == t;
      } else {
        BumpCounts(t, x);
        assert ([c[0]] + Bump(t, x))[1..] == Bump(t, x);
      }
    }
  }

  // the count recorded for a key, 0 where there is none
  function NOf(c: seq<Count>, k: string): nat {
    if c == [] then 0 else if c[0].key == k then c[0].n else NOf(c[1..], k)
  }

  lemma {:induction false} BumpCountsOne(c: seq<Count>, x: string, k: string)
    ensures NOf(Bump(c, x), k) == NOf(c, k) + (if k == x then 1 else 0)
  {
    if c != [] {
      var t := c[1..];
      if c[0].key == x {
        assert ([Count(x, c[0].n + 1)] + t)[1..] == t;
      } else {
        BumpCountsOne(t, x, k);
        assert ([c[0]] + Bump(t, x))[1..] == Bump(t, x);
      }
    }
  }

  lemma {:induction false} CounterCounts(items: seq<string>, k: string)
    ensures NOf(Counter(items), k) == multiset(items)[k]
  {
    if items != [] {
      var n := |items| - 1;
      assert items == items[..n] + [items[n]];
      CounterCounts(items[..n], k);
      BumpCountsOne(Counter(items[..n]), items[n], k);
    }
  }

  lemma {:induction false} NOfEntry(c: seq<Count>, i: nat)
    requires DistinctKeys(c) && i < |c|
    ensures NOf(c, c[i].key) == c[i].n
  {
    if i > 0 {
      assert c[0].key != c[i].key;
      assert forall a, b :: 0 <= a < b < |c| - 1 ==> c[1..][a].key != c[1..][b].key;
      NOfEntry(c[1..], i - 1);
    }
  }

  // the count of each entry is the number of its key's occurrences
  lemma {:induction false} EntriesCount(items: seq<string>)
    ensures forall x :: x in Counter(items) ==> x.n == multiset(items)[x.key]
  {
    var c := Counter(items);
    CounterExact(items);
    forall x | x in c ensures x.n == multiset(items)[x.key] {
      var i :| 0 <= i < |c| && c[i] == x;
      NOfEntry(c, i);
      CounterCounts(items, x.key);
    }
  }

  // the counter of a list: distinct keys, each seen at least once, the counts adding up to its length
  lemma {:induction false} CounterExact(items: seq<string>)
    ensures var c := Counter(items);
            DistinctKeys(c) && Positive(c) && Total(c) == |items| && (forall k :: HasKey(c, k) <==> k in items)
  {
    if items != [] {
      var n := |items| - 1;
      assert items == items[..n] + [items[n]];
      CounterExact(items[..n]);
      BumpDistinct(Counter(items[..n]), items[n]);
      BumpCounts(Counter(items[..n]), items[n]);
      BumpKeys(Counter(items[..n]), items[n]);
    }
  }

  lemma {:induction false} DistinctSize(c: seq<Count>, keys: set<string>)
    requires DistinctKeys(c) && forall k :: k in keys <==> HasKey(c, k)
    ensures |keys| == |c|
  {
    if c == [] {
      assert keys == {};
    } else {
      var h, t := c[0], c[1..];
      assert c == [h] + t;
      DistinctCons(h, t);
      forall k ensures k in keys - {h.key} <==> HasKey(t, k) {
        HasKeyCons(h, t, k);
      }
      DistinctSize(t, keys - {h.key});
      HasKeyCons(h, t, h.key);
      assert h.key in keys;
    }
  }

  // as many counts as distinct accounts
  lemma {:induction false} CounterSize(items: seq<string>)
    ensures |Counter(items)| == |SetOf(items)|
  {
    CounterExact(items);
    DistinctSize(Counter(items), SetOf(items));
  }

  lemma {:induction false} ShareIsQuotient(n: nat, rest: real, total: nat)
    requires total > 0
    ensures Square(n as real / total as real) + rest / (total * total) as real
            == ((n * n) as real + rest) / (total * total) as real
  {
    var x, t := n as real, total as real;
    assert (total * total) as real == t * t;
    assert (n * n) as real == x * x;
    QuotientTimes(x, t);
    var q := x / t;
    assert q * q == (x * x) / (t * t) by {
      assert (q * q) * (t * t) == (q * t) * (q * t);
      QuotientUnique(q * q, x * x, t * t);
    }
  }

  lemma {:induction false} QuotientUnique(q: real, a: real, b: real)
    requires b != 0.0 && q * b == a
    ensures q == a / b
  {
  }

  lemma {:induction false} SharesAreQuotient(c: seq<Count>, total: nat)
    requires total > 0
    ensures SharesSquared(c, total) == SquareTotal(c) as real / (total * total) as real
  {
    if c != [] {
      SharesAreQuotient(c[1..], total);
      ShareIsQuotient(c[0].n, SquareTotal(c[1..]) as real, total);
    }
  }

  // ---------------------------------------------------------------------------
  // Bounds on the sum of squares
  // ---------------------------------------------------------------------------

  lemma {:induction false} SquareNonNegative(d: int)
    ensures d * d >= 0
  {
  }

  lemma {:induction false} TwiceProduct(x: nat, n: nat)
    ensures 2 * (x * n) <= n * n + x * x
  {
    SquareNonNegative(n - x);
    assert (n - x) * (n - x) == n * n - 2 * (x * n) + x * x;
  }

  lemma {:induction false} CrossStep(x: nat, n: nat, t: nat, q: nat, k: nat)
    requires 2 * (x * t) <= q + k * (x * x)
    ensures 2 * (x * (n + t)) <= n * n + q + (k + 1) * (x * x)
  {
    assert x * (n + t) == x * n + x * t;
    assert (k + 1) * (x * x) == k * (x * x) + x * x;
    TwiceProduct(x, n);
  }

  // 2 x * (sum of c) <= (sum of squares of c) + |c| * x * x
  lemma {:induction false} CrossTerms(c: seq<Count>, x: nat)
    ensures 2 * (x * Total(c)) <= SquareTotal(c) + |c| * (x * x)
  {
    if c != [] {
      CrossTerms(c[1..], x);
      CrossStep(x, c[0].n, Total(c[1..]), SquareTotal(c[1..]), |c| - 1);
    }
  }

  lemma {:induction false} SquareOfSum(n: nat, t: nat)
    ensures (n + t) * (n + t) == n * n + 2 * (n * t) + t * t
  {
  }

  lemma {:induction false} CauchyStep(n: nat, t: nat, q: nat, k: nat)
    requires t * t <= k * q && 2 * (n * t) <= q + k * (n * n)
    ensures (n + t) * (n + t) <= (k + 1) * (n * n + q)
  {
    SquareOfSum(n, t);
    assert (k + 1) * (n * n + q) == k * (n * n) + k * q + n * n + q;
  }

  // (sum of c) squared is at most |c| times the sum of squares
  lemma {:induction false} CauchySchwarz(c: seq<Count>)
    ensures Total(c) * Total(c) <= |c| * SquareTotal(c)
  {
    if c != [] {
      CauchySchwarz(c[1..]);
      CrossTerms(c[1..], c[0].n);
      CauchyStep(c[0].n, Total(c[1..]), SquareTotal(c[1..]), |c| - 1);
    }
  }

  lemma {:induction false} SquareStep(n: nat, t: nat, q: nat)
    requires n >= 1 && q <= t * t
    ensures n * n + q <= (n + t) * (n + t)
    ensures t >= 1 ==> n * n + q < (n + t) * (n + t)
  {
    SquareOfSum(n, t);
    if t >= 1 {
      assert n * t >= 1;
    }
  }

  // and at least the sum of squares, with equality exactly for a single key
  lemma {:induction false} SquaresBelow(c: seq<Count>)
    requires Positive(c)
    ensures SquareTotal(c) <= Total(c) * Total(c)
    ensures |c| >= 1 ==> Total(c) >= 1 && (SquareTotal(c) == Total(c) * Total(c) <==> |c| == 1)
  {
    if c != [] {
      assert c[0] in c;
      assert forall x :: x in c[1..] ==> x in c;
      SquaresBelow(c[1..]);
      SquareStep(c[0].n, Total(c[1..]), SquareTotal(c[1..]));
      if |c| == 1 {
        assert c[1..] == [];
      }
    }
  }

  function Ratio(a: nat, b: nat): real
    requires b > 0
  {
    a as real / b as real
  }

  lemma {:induction false} RatioOrder(a: nat, b: nat, c: nat, d: nat)
    requires b > 0 && d > 0
    ensures Ratio(a, b) <= Ratio(c, d) <==> a * d <= c * b
  {
    var x, y, u, v := a as real, b as real, c as real, d as real;
    assert Ratio(a, b) <= Ratio(c, d) <==> x * v <= u * y by {
      CrossMultiply(x, y, u, v);
    }
    assert (a * d) as real == x * v && (c * b) as real == u * y;
  }

  lemma {:induction false} CrossMultiply(x: real, y: real, u: real, v: real)
    requires y > 0.0 && v > 0.0
    ensures x / y <= u / v <==> x * v <= u * y
  {
    var p, q := x / y, u / v;
    QuotientTimes(x, y);
    QuotientTimes(u, v);
    assert u * y - x * v == (q - p) * (y * v) by {
      assert (q - p) * (y * v) == (q * v) * y - (p * y) * v;
    }
    PositiveProduct(y, v);
    PositiveFactor(q - p, y * v);
    PositiveFactor(p - q, y * v);
    assert (p - q) * (y * v) == x * v - u * y;
  }

  lemma {:induction false} HhiIsRatio(accounts: seq<string>)
    requires accounts != []
    ensures |accounts| * |accounts| > 0
            && Hhi(accounts) == Ratio(SquareTotal(Counter(accounts)), |accounts| * |accounts|)
  {
    SharesAreQuotient(Counter(accounts), |accounts|);
  }

  // Over k distinct accounts the index lies between 1/k and 1, and is 1 exactly for k = 1.
  lemma {:induction false} HhiBounds(accounts: seq<string>)
    requires accounts != []
    ensures var k := |SetOf(accounts)|;
            && k >= 1
            && Ratio(1, k) <= Hhi(accounts) <= 1.0
            && (Hhi(accounts) == 1.0 <==> k == 1)
  {
    var c, t := Counter(accounts), |accounts|;
    var q, k := SquareTotal(c), |c|;
    CounterExact(accounts);
    CounterSize(accounts);
    assert HasKey(c, accounts[0]);
    CauchySchwarz(c);
    SquaresBelow(c);
    HhiIsRatio(accounts);
    assert t * t <= k * q;
    RatioOrder(1, k, q, t * t);
    RatioOrder(q, t * t, 1, 1);
    RatioOrder(1, 1, q, t * t);
    assert Ratio(1, 1) == 1.0;
  }

  // the tracker's test
  predicate Concentrated(accounts: seq<string>) {
    |accounts| >= 3 && Hhi(accounts) > 0.25
  }

  // The test in whole numbers: four times the sum of squared counts exceeds the squared total.
  lemma {:induction false} ConcentratedIff(accounts: seq<string>)
    ensures Concentrated(accounts) <==> |accounts| >= 3 && 4 * SquareTotal(Counter(accounts)) > |accounts| * |accounts|
  {
    if accounts != [] {
      HhiIsRatio(accounts);
      RatioOrder(SquareTotal(Counter(accounts)), |accounts| * |accounts|, 1, 4);
    }
  }

  lemma {:induction false} FewStep(t: nat, q: nat, k: nat)
    requires t >= 1 && k <= 3 && t * t <= k * q
    ensures 4 * q > t * t
  {
    assert k * q <= 3 * q;
    assert t * t >= 1;
  }

  // Three or more accesses confined to at most three accounts always count as concentrated.
  lemma {:induction false} FewAccountsAreConcentrated(accounts: seq<string>)
    requires |accounts| >= 3 && |SetOf(accounts)| <= 3
    ensures Concentrated(accounts)
  {
    var c := Counter(accounts);
    CounterExact(accounts);
    CounterSize(accounts);
    CauchySchwarz(c);
    FewStep(|accounts|, SquareTotal(c), |c|);
    ConcentratedIff(accounts);
  }

  ghost predicate Even(c: seq<Count>, n: nat) {
    forall x :: x in c ==> x.n == n
  }

  lemma {:induction false} OneMore(k: nat, m: nat)
    requires k >= 1
    ensures k * m == (k - 1) * m + m
  {
  }

  lemma {:induction false} EvenTotals(c: seq<Count>, n: nat)
    requires Even(c, n)
    ensures Total(c) == |c| * n && SquareTotal(c) == |c| * (n * n)
  {
    if c != [] {
      assert c[0] in c;
      assert forall x :: x in c[1..] ==> x in c;
      EvenTotals(c[1..], n);
      OneMore(|c|, n);
      OneMore(|c|, n * n);
    }
  }

  lemma {:induction false} EvenStep(k: nat, n: nat)
    requires k >= 1 && n >= 1
    ensures 4 * (k * (n * n)) > (k * n) * (k * n) <==> k < 4
  {
    var m := k * (n * n);
    assert (k * n) * (k * n) == k * m by {
      assert (k * n) * (k * n) == k * (n * (k * n));
      assert n * (k * n) == k * (n * n);
    }
    assert m >= 1 by {
      assert n * n >= 1;
    }
    FourTimes(k, m);
  }

  lemma {:induction false} FourTimes(k: nat, m: nat)
    requires m >= 1
    ensures 4 * m > k * m <==> k < 4
  {
    assert (4 - k) * m == 4 * m - k * m;
  }

  // An even spread counts as concentrated exactly when it covers fewer than four accounts.
  lemma {:induction false} EvenSpreadConcentratedIff(accounts: seq<string>, n: nat)
    requires |accounts| >= 3 && forall a :: a in accounts ==> multiset(accounts)[a] == n
    ensures Concentrated(accounts) <==> |SetOf(accounts)| < 4
  {
    var c := Counter(accounts);
    CounterExact(accounts);
    EntriesCount(accounts);
    forall x | x in c ensures x.n == n {
      var i :| 0 <= i < |c| && c[i] == x;
      assert HasKey(c, x.key);
    }
    CounterSize(accounts);
    EvenTotals(c, n);
    assert HasKey(c, accounts[0]);
    assert c[0] in c;
    EvenStep(|c|, n);
    ConcentratedIff(accounts);
  }

  // ---------------------------------------------------------------------------
  // The accumulation tracker
  // ---------------------------------------------------------------------------

  // The fields of an edge that are read here. `hour` and `weekday` are the calendar reading of its stamp `t` and
  // are left free, so what is proved holds for every calendar.
  datatype Edge = Edge(source: string, target: string, kind: string, hour: int, weekday: int, t: int)

  predicate IsAccess(e: Edge) {
    Contains(e.kind, "ACCESS") && StartsWith(e.target, "acct_")
  }

  // the accounts an employee accessed, in order
  function Accesses(log: seq<Edge>, who: string): seq<string> {
    if log == [] then []
    else
      var e := log[|log| - 1];
      if IsAccess(e) && e.source == who then Accesses(log[..|log| - 1], who) + [e.target]
      else Accesses(log[..|log| - 1], who)
  }

  function OffHours(log: seq<Edge>): nat {
    if log == [] then 0
    else
      var e := log[|log| - 1];
      OffHours(log[..|log| - 1]) + (if IsAccess(e) && (e.hour < 7 || e.hour >= 19) then 1 else 0)
  }

  ghost predicate Accumulates(m: map<string, seq<string>>, log: seq<Edge>) {
    && (forall who :: Lookup(m, who) == Accesses(log, who))
    && (forall who :: who in m ==> m[who] != [])
  }

  lemma {:induction false} AccumulateOne(m: map<string, seq<string>>, log: seq<Edge>, e: Edge)
    requires Accumulates(m, log)
    ensures Accumulates(if IsAccess(e) then m[e.source := Lookup(m, e.source) + [e.target]] else m, log + [e])
  {
    assert (log + [e])[..|log|] == log;
    var m' := if IsAccess(e) then m[e.source := Lookup(m, e.source) + [e.target]] else m;
    forall who ensures Lookup(m', who) == Accesses(log + [e], who) {
      assert Lookup(m, who) == Accesses(log, who);
    }
  }

  function Employees(log: seq<Edge>): set<string> {
    if log == [] then {}
    else Employees(log[..|log| - 1]) +
         (if StartsWith(log[|log| - 1].source, "emp_") then {log[|log| - 1].source} else {})
  }

  lemma {:induction false} EmployeesSnoc(log: seq<Edge>, e: Edge)
    ensures Employees(log + [e]) == Employees(log) + (if StartsWith(e.source, "emp_") then {e.source} else {})
  {
    assert (log + [e])[..|log|] == log;
  }

  // the edges of the log whose kind contains the word
  function Mentions(log: seq<Edge>, word: string): nat {
    if log == [] then 0
    else Mentions(log[..|log| - 1], word) + (if Contains(log[|log| - 1].kind, word) then 1 else 0)
  }

  lemma {:induction false} MentionsSnoc(log: seq<Edge>, e: Edge, word: string)
    ensures Mentions(log + [e], word) == Mentions(log, word) + (if Contains(e.kind, word) then 1 else 0)
  {
    assert (log + [e])[..|log|] == log;
  }

  predicate KindsCounted(log: seq<Edge>, approvals: nat, devices: nat, ips: nat) {
    approvals == Mentions(log, "APPROVE") && devices == Mentions(log, "DEVICE") && ips == Mentions(log, "IP")
  }

  class CollusionAccumulationTracker {
    var observedEmployees: set<string>
    var accountAccessMap: map<string, seq<string>>
    var selfApprovalsCount: nat
    var offHoursCount: nat
    var sharedDevicesCount: nat
    var sharedIpsCount: nat
    ghost var log: seq<Edge>

    // the accumulated state is what the whole log of edges gives
    ghost predicate Valid()
      reads this
    {
      && Accumulates(accountAccessMap, log)
      && offHoursCount == OffHours(log)
      && observedEmployees == Employees(log)
      && KindsCounted(log, selfApprovalsCount, sharedDevicesCount, sharedIpsCount)
    }

    constructor ()
      ensures Valid() && log == []
    {
      observedEmployees, accountAccessMap, log := {}, map[], [];
      selfApprovalsCount, offHoursCount, sharedDevicesCount, sharedIpsCount := 0, 0, 0, 0;
    }

    // what one edge changes, field by field
    method ProcessEdge(e: Edge)
      requires Valid()
      modifies this
      ensures Valid() && log == old(log) + [e]
      ensures observedEmployees == old(observedEmployees) + (if StartsWith(e.source, "emp_") then {e.source} else {})
      ensures forall who :: Lookup(accountAccessMap, who) == old(Lookup(accountAccessMap, who))
                + (if who == e.source && Contains(e.kind, "ACCESS") && StartsWith(e.target, "acct_")
                   then [e.target] else [])
      ensures offHoursCount == old(offHoursCount)
                + (if Contains(e.kind, "ACCESS") && StartsWith(e.target, "acct_") && !(7 <= e.hour < 19) then 1 else 0)
      ensures selfApprovalsCount == old(selfApprovalsCount) + (if Contains(e.kind, "APPROVE") then 1 else 0)
      ensures sharedDevicesCount == old(sharedDevicesCount) + (if Contains(e.kind, "DEVICE") then 1 else 0)
      ensures sharedIpsCount == old(sharedIpsCount) + (if Contains(e.kind, "IP") then 1 else 0)
    {
      ObserveEmployee(e);
      RecordAccess(e);
      CountMentions(e);
      log := log + [e];
    }

    method ObserveEmployee(e: Edge)
      requires observedEmployees == Employees(log)
      modifies this`observedEmployees
      ensures observedEmployees == Employees(log + [e])
      ensures observedEmployees == old(observedEmployees) + (if StartsWith(e.source, "emp_") then {e.source} else {})
    {
      EmployeesSnoc(log, e);
      if StartsWith(e.source, "emp_") {
        observedEmployees := observedEmployees + {e.source};
      }
    }

    // the part of the update that concerns account accesses
    method RecordAccess(e: Edge)
      requires Accumulates(accountAccessMap, log) && offHoursCount == OffHours(log)
      modifies this`accountAccessMap, this`offHoursCount
      ensures Accumulates(accountAccessMap, log + [e]) && offHoursCount == OffHours(log + [e])
      ensures forall who :: Lookup(accountAccessMap, who) == old(Lookup(accountAccessMap, who))
                + (if who == e.source && Contains(e.kind, "ACCESS") && StartsWith(e.target, "acct_")
                   then [e.target] else [])
      ensures offHoursCount == old(offHoursCount)
                + (if Contains(e.kind, "ACCESS") && StartsWith(e.target, "acct_") && !(7 <= e.hour < 19) then 1 else 0)
    {
      AccumulateOne(accountAccessMap, log, e);
      assert (log + [e])[..|log|] == log;
      if Contains(e.kind, "ACCESS") && StartsWith(e.target, "acct_") {
        accountAccessMap := accountAccessMap[e.source := Lookup(accountAccessMap, e.source) + [e.target]];
        if e.hour < 7 || e.hour >= 19 {
          offHoursCount := offHoursCount + 1;
        }
      }
    }

    // the three counters that look at the edge kind only
    method CountMentions(e: Edge)
      requires KindsCounted(log, selfApprovalsCount, sharedDevicesCount, sharedIpsCount)
      modifies this`selfApprovalsCount, this`sharedDevicesCount, this`sharedIpsCount
      ensures KindsCounted(log + [e], selfApprovalsCount, sharedDevicesCount, sharedIpsCount)
      ensures selfApprovalsCount == old(selfApprovalsCount) + (if Contains(e.kind, "APPROVE") then 1 else 0)
      ensures sharedDevicesCount == old(sharedDevicesCount) + (if Contains(e.kind, "DEVICE") then 1 else 0)
      ensures sharedIpsCount == old(sharedIpsCount) + (if Contains(e.kind, "IP") then 1 else 0)
    {
      MentionsSnoc(log, e, "APPROVE");
      MentionsSnoc(log, e, "DEVICE");
      MentionsSnoc(log, e, "IP");
      if Contains(e.kind, "APPROVE") {
        selfApprovalsCount := selfApprovalsCount + 1;
      }
      if Contains(e.kind, "DEVICE") {
        sharedDevicesCount := sharedDevicesCount + 1;
      }
      if Contains(e.kind, "IP") {
        sharedIpsCount := sharedIpsCount + 1;
      }
    }

    // the number of concentrated employees, recomputed from the accumulated lists
    method CountConcentrated() returns (n: nat)
      requires Valid()
      ensures n == |ConcentratedIn(accountAccessMap, accountAccessMap.Keys)|
      ensures forall who ::
                who in ConcentratedIn(accountAccessMap, accountAccessMap.Keys) <==> Concentrated(Accesses(log, who))
    {
      n := 0;
      var todo := accountAccessMap.Keys;
      while todo != {}
        invariant todo <= accountAccessMap.Keys
        invariant n == |ConcentratedIn(accountAccessMap, accountAccessMap.Keys - todo)|
        decreases todo
      {
        var who :| who in todo;
        ghost var done := accountAccessMap.Keys - todo;
        assert accountAccessMap.Keys - (todo - {who}) == done + {who};
        ConcentratedStep(accountAccessMap, done, who);
        if |accountAccessMap[who]| >= 3 {
          if Hhi(accountAccessMap[who]) > 0.25 {
            n := n + 1;
          }
        }
        todo := todo - {who};
      }
      assert accountAccessMap.Keys - {} == accountAccessMap.Keys;
      forall who
        ensures who in ConcentratedIn(accountAccessMap, accountAccessMap.Keys) <==> Concentrated(Accesses(log, who))
      {
        CountedAreConcentrated(accountAccessMap, log, who);
      }
    }
  }

  function ConcentratedIn(m: map<string, seq<string>>, who: set<string>): set<string> {
    set w | w in who && w in m && Concentrated(m[w])
  }

  lemma {:induction false} ConcentratedStep(m: map<string, seq<string>>, done: set<string>, who: string)
    requires who in m && who !in done
    ensures |ConcentratedIn(m, done + {who})| == |ConcentratedIn(m, done)| + (if Concentrated(m[who]) then 1 else 0)
  {
    if Concentrated(m[who]) {
      assert ConcentratedIn(m, done + {who}) == ConcentratedIn(m, done) + {who};
    } else {
      assert ConcentratedIn(m, done + {who}) == ConcentratedIn(m, done);
    }
  }

  // Every employee counted, and no other, is concentrated in the accesses of the whole log.
  lemma {:induction false} CountedAreConcentrated(m: map<string, seq<string>>, log: seq<Edge>, who: string)
    requires Accumulates(m, log)
    ensures who in ConcentratedIn(m, m.Keys) <==> Concentrated(Accesses(log, who))
  {
    assert Lookup(m, who) == Accesses(log, who);
  }

  // ---------------------------------------------------------------------------
  // The anomaly score
  // ---------------------------------------------------------------------------

  const NO_PROXIMITY := 999999

  predicate IsTouch(e: Edge) {
    Contains(e.kind, "ACCOUNT") || StartsWith(e.target, "acct_")
  }

  predicate IsOffHours(e: Edge) {
    e.hour < 7 || e.hour >= 19 || e.weekday >= 5
  }

  function Touches(edges: seq<Edge>): seq<string> {
    if edges == [] then []
    else if IsTouch(edges[|edges| - 1]) then Touches(edges[..|edges| - 1]) + [edges[|edges| - 1].target]
    else Touches(edges[..|edges| - 1])
  }

  function OffHoursCount(edges: seq<Edge>): nat {
    if edges == [] then 0 else OffHoursCount(edges[..|edges| - 1]) + (if IsOffHours(edges[|edges| - 1]) then 1 else 0)
  }

  function Proximity(minDelta: int): real
    requires minDelta >= 0
  {
    Min(1.0, 100.0 / (if minDelta > 1 then minDelta else 1) as real)
  }

  function Score(hhi: real, offHoursRatio: real, minDelta: int): real
    requires minDelta >= 0
  {
    hhi * 0.40 + offHoursRatio * 0.30 + Proximity(minDelta) * 0.30
  }

  // d seconds pass from some edge to a later transaction
  ghost predicate Follows(edges: seq<Edge>, txns: seq<Option<int>>, d: int) {
    exists e, t :: e in edges && t in txns && t.Some? && t.value >= e.t && d == t.value - e.t
  }

  // the least such gap, capped
  ghost predicate IsMinDelta(edges: seq<Edge>, txns: seq<Option<int>>, d: int) {
    && 0 <= d <= NO_PROXIMITY && (d == NO_PROXIMITY || Follows(edges, txns, d))
    && forall e, t :: e in edges && t in txns && t.Some? && t.value >= e.t ==> d <= t.value - e.t
  }

  method ExtractScore(edges: seq<Edge>, txns: seq<Option<int>>) returns (hhi: real, score: real, minDelta: int)
    ensures edges == [] ==> hhi == 0.0 && score == 0.0 && minDelta == NO_PROXIMITY
    ensures edges != [] ==> hhi == Hhi(Touches(edges)) && IsMinDelta(edges, txns, minDelta)
    ensures edges != [] ==> score == Score(hhi, OffHoursCount(edges) as real / |edges| as real, minDelta)
  {
    if |edges| == 0 {
      return 0.0, 0.0, NO_PROXIMITY;
    }
    var touches, offHours := [], 0;
    for i := 0 to |edges|
      invariant touches == Touches(edges[..i]) && offHours == OffHoursCount(edges[..i])
    {
      assert edges[..i + 1][..i] == edges[..i];
      if IsTouch(edges[i]) {
        touches := touches + [edges[i].target];
      }
      if IsOffHours(edges[i]) {
        offHours := offHours + 1;
      }
    }
    assert edges[..|edges|] == edges;
    hhi := Hhi(touches);
    minDelta := MinDelta(edges, txns);
    score := Score(hhi, offHours as real / |edges| as real, minDelta);
  }

  // d is the least gap among the pairs examined so far: all pairs of the first i edges, and the
  // first j transactions with edge i
  ghost predicate LeastSoFar(edges: seq<Edge>, txns: seq<Option<int>>, i: nat, j: nat, d: int)
    requires i <= |edges| && j <= |txns|
  {
    && 0 <= d <= NO_PROXIMITY
    && (d == NO_PROXIMITY || Follows(edges, txns, d))
    && (forall k, l :: 0 <= k < i && 0 <= l < |txns| && txns[l].Some? && txns[l].value >= edges[k].t ==>
          d <= txns[l].value - edges[k].t)
    && (i < |edges| ==>
          forall l :: 0 <= l < j && txns[l].Some? && txns[l].value >= edges[i].t ==> d <= txns[l].value - edges[i].t)
  }

  method MinDelta(edges: seq<Edge>, txns: seq<Option<int>>) returns (d: int)
    ensures IsMinDelta(edges, txns, d)
  {
    d := NO_PROXIMITY;
    for i := 0 to |edges|
      invariant LeastSoFar(edges, txns, i, 0, d)
    {
      for j := 0 to |txns|
        invariant LeastSoFar(edges, txns, i, j, d)
      {
        if txns[j].Some? && txns[j].value >= edges[i].t {
          var delta := txns[j].value - edges[i].t;
          if delta < d {
            assert edges[i] in edges && txns[j] in txns;
            d := delta;
          }
        }
      }
    }
  }

  // The score lies in [0, 1], and reaches 1 exactly for accesses to a single account, all off hours,
  // with a transaction at most 100 seconds after one of them.
  lemma {:induction false} ScoreBounds(hhi: real, ratio: real, minDelta: int)
    requires 0.0 <= hhi <= 1.0 && 0.0 <= ratio <= 1.0 && minDelta >= 0
    ensures 0.0 <= Score(hhi, ratio, minDelta) <= 1.0
    ensures Score(hhi, ratio, minDelta) == 1.0 <==> hhi == 1.0 && ratio == 1.0 && minDelta <= 100
  {
    var d := if minDelta > 1 then minDelta else 1;
    QuotientBelow(100.0, d as real, 1.0);
    QuotientBelow(100.0, d as real, 0.0);
  }

  // what each part adds to the score
  lemma {:induction false} ScoreParts(hhi: real, ratio: real, minDelta: int)
    requires minDelta >= 0
    ensures Score(hhi, ratio, minDelta) - Score(0.0, ratio, minDelta) == 0.40 * hhi
    ensures Score(hhi, ratio, minDelta) - Score(hhi, 0.0, minDelta) == 0.30 * ratio
    ensures minDelta <= 100 ==> Score(0.0, 0.0, minDelta) == 0.30
    ensures minDelta >= 100 ==> Score(0.0, 0.0, minDelta) * minDelta as real == 30.0
  {
    var d := if minDelta > 1 then minDelta else 1;
    QuotientBelow(100.0, d as real, 1.0);
    QuotientTimes(100.0, d as real);
  }

  // where an edge names account a
  function NamesAt(edges: seq<Edge>, a: string): set<int> {
    set i | 0 <= i < |edges| && edges[i].target == a && (Contains(edges[i].kind, "ACCOUNT") || StartsWith(a, "acct_"))
  }

  lemma {:induction false} NamesSnoc(edges: seq<Edge>, e: Edge, a: string)
    ensures NamesAt(edges + [e], a)
            == NamesAt(edges, a)
               + (if e.target == a && (Contains(e.kind, "ACCOUNT") || StartsWith(a, "acct_")) then {|edges|} else {})
  {
  }

  lemma {:induction false} OneMoreTouch(touches: seq<string>, x: string, a: string)
    ensures multiset(touches + [x])[a] == multiset(touches)[a] + (if x == a then 1 else 0)
  {
  }

  // the touched accounts are the targets of the edges that name an account, as often as they do
  lemma {:induction false} TouchesExact(edges: seq<Edge>, a: string)
    ensures multiset(Touches(edges))[a] == |NamesAt(edges, a)|
  {
    if edges != [] {
      var n := |edges| - 1;
      var e := edges[n];
      TouchesExact(edges[..n], a);
      assert edges == edges[..n] + [e];
      NamesSnoc(edges[..n], e, a);
      if IsTouch(e) {
        OneMoreTouch(Touches(edges[..n]), e.target, a);
      }
    }
  }

  // the off-hours edges are those before 7, from 19 on, or on the last two days of the week
  lemma {:induction false} OffHoursExact(edges: seq<Edge>)
    ensures OffHoursCount(edges)
            == |set i | 0 <= i < |edges| && !(7 <= edges[i].hour < 19 && edges[i].weekday < 5)|
  {
    if edges != [] {
      var n := |edges| - 1;
      OffHoursExact(edges[..n]);
      var before := set i | 0 <= i < |edges[..n]| && !(7 <= edges[..n][i].hour < 19 && edges[..n][i].weekday < 5);
      var now := set i | 0 <= i < |edges| && !(7 <= edges[i].hour < 19 && edges[i].weekday < 5);
      assert now == before + (if n in now then {n} else {});
    }
  }

  lemma {:induction false} OffHoursAtMostAll(edges: seq<Edge>)
    ensures OffHoursCount(edges) <= |edges|
    ensures OffHoursCount(edges) == |edges| <==> forall e :: e in edges ==> IsOffHours(e)
  {
    if edges != [] {
      var n := |edges| - 1;
      assert edges == edges[..n] + [edges[n]];
      OffHoursAtMostAll(edges[..n]);
    }
  }

  lemma {:induction false} ExtractedScoreBounds(edges: seq<Edge>, minDelta: int)
    requires edges != [] && minDelta >= 0
    ensures var score := Score(Hhi(Touches(edges)), OffHoursCount(edges) as real / |edges| as real, minDelta);
            && 0.0 <= score <= 1.0
            && (score == 1.0 <==>
                  |SetOf(Touches(edges))| == 1 && (forall e :: e in edges ==> IsOffHours(e)) && minDelta <= 100)
  {
    OffHoursAtMostAll(edges);
    var ratio := OffHoursCount(edges) as real / |edges| as real;
    QuotientBelow(OffHoursCount(edges) as real, |edges| as real, 0.0);
    QuotientBelow(OffHoursCount(edges) as real, |edges| as real, 1.0);
    var touches := Touches(edges);
    if touches == [] {
      assert SetOf(touches) == {};
    } else {
      HhiBounds(touches);
      RatioOrder(0, 1, 1, |SetOf(touches)|);
      assert Ratio(0, 1) == 0.0;
    }
    ScoreBounds(Hhi(touches), ratio, minDelta);
  }
}
