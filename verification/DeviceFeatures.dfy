// Device features: multi-window counts and sums, token linkage and reputation, each read from the
// device's history before the current row is added to it.
// Source: ml-service/data_pipeline/features.py

module DeviceFeatures {
  import opened Common
  import opened Windows

  const FIVE_MINUTES := 300
  const HOUR := 3600
  const DAY := 86400

  // a missing, empty or "nan" identifier groups with nothing
  predicate Usable(id: Option<string>) {
    id.Some? && id.value != "" && id.value != "nan"
  }

  function Key(id: Option<string>): Option<string> {
    if Usable(id) then id else None
  }

  function Keyed<T>(rows: seq<Row<T>>): (r: seq<Row<T>>)
    ensures |r| == |rows|
    ensures forall i :: 0 <= i < |rows| ==> r[i] == Row(Key(rows[i].key), rows[i].t, rows[i].val)
  {
    seq(|rows|, i requires 0 <= i < |rows| => Row(Key(rows[i].key), rows[i].t, rows[i].val))
  }

  // the events of row i's entity in the rows before it
  function Past<T>(rows: seq<Row<T>>, i: nat): seq<Event<T>>
    requires i < |rows|
  {
    if rows[i].key.None? then [] else History(rows, i, rows[i].key.value)
  }

  // ---------------------------------------------------------------------------
  // Velocity signals
  // ---------------------------------------------------------------------------

  datatype Signals = Signals(count5m: nat, count1h: nat, sum24h: real, acceleration: real, concentration: real)

  function Sum(h: seq<Event<real>>): real {
    if h == [] then 0.0 else Sum(h[..|h| - 1]) + h[|h| - 1].val
  }

  function Acceleration(count5m: nat, count1h: nat): real {
    if count1h == 0 then 0.0
    else Clip((count5m as real / 300.0) / (count1h as real / 3600.0 + 0.001), 0.0, 1000.0)
  }

  function Concentration(sum5m: real, sum1h: real): real {
    if sum1h > 0.0 then Clip(sum5m / (sum1h + 0.001), 0.0, 1.0) else 0.0
  }

  // the signals over a list of events, all of which enter the 24h sum
  function Measure(l: seq<Event<real>>, t: int): Signals {
    var h5, h1 := Since(l, t - FIVE_MINUTES), Since(l, t - HOUR);
    Signals(|h5|, |h1|, Sum(l), Acceleration(|h5|, |h1|), Concentration(Sum(h5), Sum(h1)))
  }

  // as computed: from the pruned list
  function DeviceSignals(rows: seq<Row<real>>, i: nat): Signals
    requires i < |rows|
  {
    Measure(DropOld(Kept(Past(rows, i), DAY), rows[i].t - DAY), rows[i].t)
  }

  ghost predicate SignalsColumn(out: seq<Signals>, table: seq<Row<real>>) {
    |out| <= |table| && forall i :: 0 <= i < |out| ==> out[i] == DeviceSignals(table, i)
  }

  lemma {:induction false} SignalsColumnSnoc(out: seq<Signals>, table: seq<Row<real>>, s: Signals)
    requires SignalsColumn(out, table) && |out| < |table| && s == DeviceSignals(table, |out|)
    ensures SignalsColumn(out + [s], table)
  {
  }

  method ComputeDeviceVelocitySignals(rows: seq<Row<real>>) returns (out: seq<Signals>)
    ensures |out| == |rows| && SignalsColumn(out, Keyed(rows))
  {
    out := [];
    var deviceEvents: map<string, seq<Event<real>>> := map[];
    ghost var table := Keyed(rows);
    for i := 0 to |rows|
      invariant |out| == i
      invariant SignalsColumn(out, table)
      invariant Tracks(deviceEvents, table, i, DAY)
    {
      var signals;
      deviceEvents, signals := SignalStep(deviceEvents, rows[i], table, i);
      SignalsColumnSnoc(out, table, signals);
      out := out + [signals];
    }
  }

  // the loop body for one row: read the signals, then add the row to its device's list
  method SignalStep(m: map<string, seq<Event<real>>>, row: Row<real>, ghost table: seq<Row<real>>, ghost i: nat)
    returns (m': map<string, seq<Event<real>>>, signals: Signals)
    requires i < |table| && table[i] == Row(Key(row.key), row.t, row.val) && Tracks(m, table, i, DAY)
    ensures Tracks(m', table, i + 1, DAY) && signals == DeviceSignals(table, i)
  {
    TracksStep(m, table, i, DAY);
    if Usable(row.key) {
      var evList;
      m', evList := Visit(m, row.key.value, row.t - DAY, Event(row.t, row.val));
      assert evList == DropOld(Kept(Past(table, i), DAY), row.t - DAY);
      signals := MeasureLoop(evList, row.t);
    } else {
      m', signals := m, Signals(0, 0, 0.0, 0.0, 0.0);
      assert Past(table, i) == [] && signals == Measure([], row.t);
    }
  }

  method MeasureLoop(evList: seq<Event<real>>, t: int) returns (s: Signals)
    ensures s == Measure(evList, t)
  {
    var c5m, c1h := 0, 0;
    var sum24h, sum5m, sum1h := 0.0, 0.0, 0.0;
    for j := 0 to |evList|
      invariant c5m == |Since(evList[..j], t - FIVE_MINUTES)| && c1h == |Since(evList[..j], t - HOUR)|
      invariant sum24h == Sum(evList[..j])
      invariant sum5m == Sum(Since(evList[..j], t - FIVE_MINUTES)) && sum1h == Sum(Since(evList[..j], t - HOUR))
    {
      var e := evList[j];
      assert evList[..j + 1][..j] == evList[..j];
      SumSnoc(Since(evList[..j], t - FIVE_MINUTES), e);
      SumSnoc(Since(evList[..j], t - HOUR), e);
      sum24h := sum24h + e.val;
      if e.t >= t - HOUR {
        c1h := c1h + 1;
        sum1h := sum1h + e.val;
      }
      if e.t >= t - FIVE_MINUTES {
        c5m := c5m + 1;
        sum5m := sum5m + e.val;
      }
    }
    assert evList[..|evList|] == evList;
    s := Signals(c5m, c1h, sum24h, Acceleration(c5m, c1h), Concentration(sum5m, sum1h));
  }

  lemma {:induction false} SumSnoc(h: seq<Event<real>>, x: Event<real>)
    ensures Sum(h + [x]) == Sum(h) + x.val
  {
    assert (h + [x])[..|h|] == h;
  }

  lemma {:induction false} PastIsOlder<T(!new)>(rows: seq<Row<T>>, i: nat)
    requires i < |rows| && EntitySorted(rows)
    ensures Sorted(Past(rows, i)) && forall x :: x in Past(rows, i) ==> x.t <= rows[i].t
  {
    if rows[i].key.Some? {
      var e := rows[i].key.value;
      HistoryPrefix(rows, i + 1, |rows|, e);
      assert Sorted(History(rows, |rows|, e));
      SortedSnoc(History(rows, i, e), Event(rows[i].t, rows[i].val));
    }
  }

  // On a table whose devices come in time order, the pruned list gives every signal the value it
  // has over the device's whole history before the row.
  lemma {:induction false} DeviceSignalsExact(rows: seq<Row<real>>, i: nat)
    requires i < |rows| && EntitySorted(rows)
    ensures var h, t, s := Past(rows, i), rows[i].t, DeviceSignals(rows, i);
            && s.count5m == |Since(h, t - FIVE_MINUTES)|
            && s.count1h == |Since(h, t - HOUR)|
            && s.sum24h == Sum(Since(h, t - DAY))
            && s.acceleration == Acceleration(|Since(h, t - FIVE_MINUTES)|, |Since(h, t - HOUR)|)
            && s.concentration == Concentration(Sum(Since(h, t - FIVE_MINUTES)), Sum(Since(h, t - HOUR)))
  {
    var h, t := Past(rows, i), rows[i].t;
    PastIsOlder(rows, i);
    PrunedSuffices(h, DAY, t);
    SinceSince(h, t - DAY, t - HOUR);
    SinceSince(h, t - DAY, t - FIVE_MINUTES);
  }

  // ---------------------------------------------------------------------------
  // The clips
  // ---------------------------------------------------------------------------

  lemma {:induction false} SumOfSince(h: seq<Event<real>>, lo: int, lo': int)
    requires lo <= lo' && forall x :: x in h ==> x.val >= 0.0
    ensures 0.0 <= Sum(Since(h, lo')) <= Sum(Since(h, lo)) && |Since(h, lo')| <= |Since(h, lo)|
  {
    if h != [] {
      var n := |h| - 1;
      assert h[n] in h;
      SumOfSince(h[..n], lo, lo');
      SumSnoc(Since(h[..n], lo), h[n]);
      SumSnoc(Since(h[..n], lo'), h[n]);
    }
  }

  // With non-negative amounts no upper clip of the velocity signals is ever reached: acceleration
  // stays under 12 and concentration under 1, whatever the order of the rows.
  lemma {:induction false} UpperClipsNeverBite(l: seq<Event<real>>, t: int)
    requires forall x :: x in l ==> x.val >= 0.0
    ensures var s := Measure(l, t);
            && s.count5m <= s.count1h <= |l|
            && 0.0 <= s.acceleration < 12.0
            && 0.0 <= s.concentration < 1.0
            && (s.count1h > 0 ==> s.acceleration == (s.count5m as real / 300.0) / (s.count1h as real / 3600.0 + 0.001))
            && (Sum(Since(l, t - HOUR)) > 0.0 ==>
                  s.concentration == Sum(Since(l, t - FIVE_MINUTES)) / (Sum(Since(l, t - HOUR)) + 0.001))
  {
    SumOfSince(l, t - HOUR, t - FIVE_MINUTES);
    SinceExact(l, t - HOUR);
    var s := Measure(l, t);
    if s.count1h > 0 {
      var a, b := s.count5m as real / 300.0, s.count1h as real / 3600.0 + 0.001;
      assert 12.0 * b == s.count1h as real / 300.0 + 0.012;
      QuotientBelow(a, b, 12.0);
      QuotientBelow(a, b, 0.0);
    }
    var x, y := Sum(Since(l, t - FIVE_MINUTES)), Sum(Since(l, t - HOUR));
    if y > 0.0 {
      QuotientBelow(x, y + 0.001, 1.0);
      QuotientBelow(x, y + 0.001, 0.0);
    }
  }

  // ---------------------------------------------------------------------------
  // Token and device linkage
  // ---------------------------------------------------------------------------

  datatype Link = Link(device: Option<string>, token: Option<string>, t: int)

  function ByDevice(links: seq<Link>): (r: seq<Row<Option<string>>>)
    ensures |r| == |links|
    ensures forall i :: 0 <= i < |links| ==> r[i] == Row(Key(links[i].device), links[i].t, links[i].token)
  {
    seq(|links|, i requires 0 <= i < |links| => Row(Key(links[i].device), links[i].t, links[i].token))
  }

  function ByToken(links: seq<Link>): (r: seq<Row<Option<string>>>)
    ensures |r| == |links|
    ensures forall i :: 0 <= i < |links| ==> r[i] == Row(Key(links[i].token), links[i].t, links[i].device)
  {
    seq(|links|, i requires 0 <= i < |links| => Row(Key(links[i].token), links[i].t, links[i].device))
  }

  function Values<T(==)>(h: seq<Event<T>>): set<T> {
    set x | x in h :: x.val
  }

  // as computed: distinct partners in the list pruned to the last hour
  function Partners(rows: seq<Row<Option<string>>>, i: nat): nat
    requires i < |rows|
  {
    |Values(DropOld(Kept(Past(rows, i), HOUR), rows[i].t - HOUR))|
  }

  ghost predicate PartnersColumn(out: seq<nat>, table: seq<Row<Option<string>>>) {
    |out| <= |table| && forall k :: 0 <= k < |out| ==> out[k] == Partners(table, k)
  }

  lemma {:induction false} PartnersColumnSnoc(out: seq<nat>, table: seq<Row<Option<string>>>, n: nat)
    requires PartnersColumn(out, table) && |out| < |table| && n == Partners(table, |out|)
    ensures PartnersColumn(out + [n], table)
  {
  }

  method ComputeTokenDeviceLinkage(links: seq<Link>) returns (tokensPerDevice: seq<nat>, devicesPerToken: seq<nat>)
    ensures |tokensPerDevice| == |devicesPerToken| == |links|
    ensures PartnersColumn(tokensPerDevice, ByDevice(links)) && PartnersColumn(devicesPerToken, ByToken(links))
  {
    tokensPerDevice, devicesPerToken := [], [];
    var devTokens: map<string, seq<Event<Option<string>>>> := map[];
    var tokDevices: map<string, seq<Event<Option<string>>>> := map[];
    ghost var devTable, tokTable := ByDevice(links), ByToken(links);
    for i := 0 to |links|
      invariant |tokensPerDevice| == |devicesPerToken| == i
      invariant PartnersColumn(tokensPerDevice, devTable) && PartnersColumn(devicesPerToken, tokTable)
      invariant Tracks(devTokens, devTable, i, HOUR) && Tracks(tokDevices, tokTable, i, HOUR)
    {
      var n, m;
      devTokens, n := LinkStep(devTokens, links[i].device, links[i].token, links[i].t, devTable, i);
      tokDevices, m := LinkStep(tokDevices, links[i].token, links[i].device, links[i].t, tokTable, i);
      PartnersColumnSnoc(tokensPerDevice, devTable, n);
      PartnersColumnSnoc(devicesPerToken, tokTable, m);
      tokensPerDevice := tokensPerDevice + [n];
      devicesPerToken := devicesPerToken + [m];
    }
  }

  // one side of the linkage for one row; the two sides differ only in which column is the key
  method LinkStep(m: map<string, seq<Event<Option<string>>>>, id: Option<string>, partner: Option<string>, t: int,
                  ghost table: seq<Row<Option<string>>>, ghost i: nat)
    returns (m': map<string, seq<Event<Option<string>>>>, count: nat)
    requires i < |table| && table[i] == Row(Key(id), t, partner) && Tracks(m, table, i, HOUR)
    ensures Tracks(m', table, i + 1, HOUR) && count == Partners(table, i)
  {
    TracksStep(m, table, i, HOUR);
    if Usable(id) {
      var list;
      m', list := Visit(m, id.value, t - HOUR, Event(t, partner));
      count := |Values(list)|;
      assert Past(table, i) == History(table, i, id.value);
    } else {
      m', count := m, 0;
      assert Past(table, i) == [] && Values<Option<string>>([]) == {};
    }
  }

  lemma {:induction false} LinkageExact(rows: seq<Row<Option<string>>>, i: nat)
    requires i < |rows| && EntitySorted(rows)
    ensures Partners(rows, i) == |Values(Since(Past(rows, i), rows[i].t - HOUR))|
  {
    PastIsOlder(rows, i);
    PrunedSuffices(Past(rows, i), HOUR, rows[i].t);
  }

  // ---------------------------------------------------------------------------
  // Reputation
  // ---------------------------------------------------------------------------

  datatype Reputation = Reputation(score: real, fraudRate: real, disputeRate: real)

  datatype Stats = Stats(total: nat, success: nat, fraud: nat, dispute: nat, firstSeen: int)

  function Frauds(h: seq<Event<bool>>): nat {
    if h == [] then 0 else Frauds(h[..|h| - 1]) + (if h[|h| - 1].val then 1 else 0)
  }

  function StatsOf(h: seq<Event<bool>>): Stats
    requires h != []
  {
    Stats(|h|, Clean(h), Frauds(h), Frauds(h), h[0].t)
  }

  function Clean(h: seq<Event<bool>>): nat {
    if h == [] then 0 else Clean(h[..|h| - 1]) + (if h[|h| - 1].val then 0 else 1)
  }

  function DaysSeen(firstSeen: int, t: int): real {
    Max(0.0, (t - firstSeen) as real / 86400.0)
  }

  function RawScore(s: Stats, t: int): real
    requires s.total > 0
  {
    var days := DaysSeen(s.firstSeen, t);
    0.5
    - (if s.success > 0 then Min(0.3, s.success as real * 0.03) else 0.0)
    - (if days > 0.0 then Min(0.15, days * 0.005) else 0.0)
    + (if s.fraud > 0 then 0.5 else 0.0)
    + (if s.dispute > 0 then Min(0.5, s.dispute as real * 0.25) else 0.0)
    + (if s.total >= 3 && s.dispute as real / s.total as real >= 0.1 then 0.2 else 0.0)
  }

  function Rate(n: nat, total: nat): real
    requires total > 0
  {
    Clip(n as real / total as real, 0.0, 1.0)
  }

  function Rated(s: Stats, t: int): Reputation
    requires s.total > 0
  {
    Reputation(Clip(RawScore(s, t), 0.0, 1.0), Rate(s.fraud, s.total), Rate(s.dispute, s.total))
  }

  function DeviceReputation(rows: seq<Row<bool>>, i: nat): Reputation
    requires i < |rows|
  {
    var h := Past(rows, i);
    if h == [] then Reputation(0.5, 0.0, 0.0) else Rated(StatsOf(h), rows[i].t)
  }

  ghost predicate TracksStats(m: map<string, Stats>, rows: seq<Row<bool>>, n: nat)
    requires n <= |rows|
  {
    forall e :: if History(rows, n, e) == [] then e !in m else e in m && m[e] == StatsOf(History(rows, n, e))
  }

  // the counters after one more row of the device
  function Bump(s: Stats, fraud: bool): Stats {
    var f := if fraud then 1 else 0;
    Stats(s.total + 1, s.success + (1 - f), s.fraud + f, s.dispute + f, s.firstSeen)
  }

  lemma {:induction false} BumpIsSnoc(h: seq<Event<bool>>, x: Event<bool>)
    ensures StatsOf(h + [x]) == if h == [] then Bump(Stats(0, 0, 0, 0, x.t), x.val) else Bump(StatsOf(h), x.val)
  {
    assert (h + [x])[..|h|] == h;
    assert Frauds([]) == 0 && Clean([]) == 0;
    assert h == [] ==> h + [x] == [x];
    var s := StatsOf(h + [x]);
    assert s.fraud == Frauds(h) + (if x.val then 1 else 0) && s.success == Clean(h) + (if x.val then 0 else 1);
  }

  lemma {:induction false} StatsStep(m: map<string, Stats>, rows: seq<Row<bool>>, i: nat)
    requires i < |rows| && TracksStats(m, rows, i)
    ensures rows[i].key.None? ==> TracksStats(m, rows, i + 1)
    ensures rows[i].key.Some? ==>
              var e := rows[i].key.value;
              TracksStats(m[e := Bump(if e in m then m[e] else Stats(0, 0, 0, 0, rows[i].t), rows[i].val)], rows, i + 1)
  {
    if rows[i].key.Some? {
      var e, x := rows[i].key.value, Event(rows[i].t, rows[i].val);
      var h := History(rows, i, e);
      var m' := m[e := Bump(if e in m then m[e] else Stats(0, 0, 0, 0, rows[i].t), rows[i].val)];
      assert if h == [] then e !in m else e in m && m[e] == StatsOf(h);
      BumpIsSnoc(h, x);
      assert History(rows, i + 1, e) == h + [x];
      forall d
        ensures if History(rows, i + 1, d) == [] then d !in m'
                else d in m' && m'[d] == StatsOf(History(rows, i + 1, d))
      {
        assert if History(rows, i, d) == [] then d !in m else d in m && m[d] == StatsOf(History(rows, i, d));
      }
    }
  }

  method ScoreDevice(s: Stats, t: int) returns (r: Reputation)
    requires s.total > 0
    ensures r == Rated(s, t)
  {
    var days := DaysSeen(s.firstSeen, t);
    var score := 0.5;
    score := if s.success > 0 then score - Min(0.3, s.success as real * 0.03) else score;
    score := if days > 0.0 then score - Min(0.15, days * 0.005) else score;
    score := if s.fraud > 0 then score + 0.5 else score;
    score := if s.dispute > 0 then score + Min(0.5, s.dispute as real * 0.25) else score;
    score := if s.total >= 3 && s.dispute as real / s.total as real >= 0.1 then score + 0.2 else score;
    r := Reputation(Clip(score, 0.0, 1.0), Rate(s.fraud, s.total), Rate(s.dispute, s.total));
  }

  ghost predicate ReputationColumn(out: seq<Reputation>, table: seq<Row<bool>>) {
    |out| <= |table| && forall i :: 0 <= i < |out| ==> out[i] == DeviceReputation(table, i)
  }

  lemma {:induction false} ReputationColumnSnoc(out: seq<Reputation>, table: seq<Row<bool>>, r: Reputation)
    requires ReputationColumn(out, table) && |out| < |table| && r == DeviceReputation(table, |out|)
    ensures ReputationColumn(out + [r], table)
  {
  }

  method ComputeReputationSignals(rows: seq<Row<bool>>) returns (out: seq<Reputation>)
    ensures |out| == |rows| && ReputationColumn(out, Keyed(rows))
  {
    out := [];
    var stats: map<string, Stats> := map[];
    ghost var table := Keyed(rows);
    for i := 0 to |rows|
      invariant |out| == i
      invariant ReputationColumn(out, table)
      invariant TracksStats(stats, table, i)
    {
      var r;
      stats, r := ReputationStep(stats, rows[i], table, i);
      ReputationColumnSnoc(out, table, r);
      out := out + [r];
    }
  }

  // the loop body for one row: rate the device, then count the row
  method ReputationStep(m: map<string, Stats>, row: Row<bool>, ghost table: seq<Row<bool>>, ghost i: nat)
    returns (m': map<string, Stats>, r: Reputation)
    requires i < |table| && table[i] == Row(Key(row.key), row.t, row.val) && TracksStats(m, table, i)
    ensures TracksStats(m', table, i + 1) && r == DeviceReputation(table, i)
  {
    StatsStep(m, table, i);
    m', r := m, Reputation(0.5, 0.0, 0.0);
    if Usable(row.key) {
      var dev := row.key.value;
      ghost var h := History(table, i, dev);
      assert if h == [] then dev !in m else dev in m && m[dev] == StatsOf(h);
      if dev !in m {
        var isFraud := if row.val then 1 else 0;
        m' := m[dev := Stats(1, 1 - isFraud, isFraud, isFraud, row.t)];
      } else {
        r := ScoreDevice(m[dev], row.t);
        m' := m[dev := Bump(m[dev], row.val)];
      }
    }
  }

  lemma {:induction false} FraudsAndClean(h: seq<Event<bool>>)
    ensures Frauds(h) + Clean(h) == |h|
    ensures Frauds(h) > 0 <==> exists x :: x in h && x.val
  {
    if h != [] {
      var n := |h| - 1;
      FraudsAndClean(h[..n]);
      assert h == h[..n] + [h[n]];
    }
  }

  // One past fraud separates the scores for good, whatever the order of the rows: a device with
  // one scores at least 0.8, any other scores in [0.05, 0.5], so the lower clip never bites; and
  // the two rates are the exact fraction of past frauds.
  lemma {:induction false} ReputationSeparates(rows: seq<Row<bool>>, i: nat)
    requires i < |rows|
    ensures var r, h := DeviceReputation(rows, i), Past(rows, i);
            && (r.score > 0.5 <==> exists x :: x in h && x.val)
            && (if exists x :: x in h && x.val then 0.8 <= r.score <= 1.0 else 0.05 <= r.score <= 0.5)
            && r.fraudRate == r.disputeRate
            && (h != [] ==> r.fraudRate == Frauds(h) as real / |h| as real)
            && 0.0 <= r.fraudRate <= 1.0
  {
    var h := Past(rows, i);
    FraudsAndClean(h);
    if h != [] {
      var n := |h| as real;
      QuotientBelow(Frauds(h) as real, n, 0.0);
      QuotientBelow(Frauds(h) as real, n, 1.0);
      ScoreBounds(StatsOf(h), rows[i].t);
    }
  }

  lemma {:induction false} ScoreBounds(s: Stats, t: int)
    requires s.total > 0 && s.fraud == s.dispute
    ensures if s.fraud > 0 then RawScore(s, t) >= 0.8 else 0.05 <= RawScore(s, t) <= 0.5
  {
    assert s.dispute == 0 ==> s.dispute as real / s.total as real == 0.0;
  }

  // ---------------------------------------------------------------------------
  // The signals on the table
  // ---------------------------------------------------------------------------

  predicate NoDevice(id: Option<string>) {
    id == None || id == Some("") || id == Some("nan")
  }

  // what the rows before row n of a device, stamped from lo on, add up to
  function AmountSince(rows: seq<Row<real>>, n: nat, e: string, lo: int): real
    requires n <= |rows|
  {
    if n == 0 then 0.0
    else AmountSince(rows, n - 1, e, lo)
         + (if rows[n - 1].key == Some(e) && lo <= rows[n - 1].t then rows[n - 1].val else 0.0)
  }

  lemma {:induction false} KeyedRows<T(!new)>(rows: seq<Row<T>>, n: nat, e: string, lo: int)
    requires n <= |rows| && !NoDevice(Some(e))
    ensures RowsSince(Keyed(rows), n, e, lo) == RowsSince(rows, n, e, lo)
  {
  }

  lemma {:induction false} CountOnTable<T(!new)>(rows: seq<Row<T>>, n: nat, e: string, lo: int)
    requires n <= |rows| && !NoDevice(Some(e))
    ensures |Since(History(Keyed(rows), n, e), lo)| == |RowsSince(rows, n, e, lo)|
  {
    SinceCounts(Keyed(rows), n, e, lo);
    KeyedRows(rows, n, e, lo);
  }

  lemma {:induction false} WindowSumSnoc(h: seq<Event<real>>, x: Event<real>, lo: int)
    ensures Sum(Since(h + [x], lo)) == Sum(Since(h, lo)) + (if lo <= x.t then x.val else 0.0)
  {
    SinceSnoc(h, x, lo);
    SumSnoc(Since(h, lo), x);
  }

  lemma {:induction false} KeyedHistory<T(!new)>(rows: seq<Row<T>>, n: nat, e: string)
    requires 0 < n <= |rows| && !NoDevice(Some(e))
    ensures History(Keyed(rows), n, e)
            == History(Keyed(rows), n - 1, e)
               + (if rows[n - 1].key == Some(e) then [Event(rows[n - 1].t, rows[n - 1].val)] else [])
  {
  }

  lemma {:induction false} SumOnTable(rows: seq<Row<real>>, n: nat, e: string, lo: int)
    requires n <= |rows| && !NoDevice(Some(e))
    ensures Sum(Since(History(Keyed(rows), n, e), lo)) == AmountSince(rows, n, e, lo)
  {
    if n > 0 {
      var h := History(Keyed(rows), n - 1, e);
      SumOnTable(rows, n - 1, e, lo);
      KeyedHistory(rows, n, e);
      if rows[n - 1].key == Some(e) {
        WindowSumSnoc(h, Event(rows[n - 1].t, rows[n - 1].val), lo);
      } else {
        assert h + [] == h;
      }
    }
  }

  lemma {:induction false} AccelerationIs(c5: nat, c1: nat)
    requires c5 <= c1
    ensures Acceleration(c5, c1) * (c1 as real / 3600.0 + 0.001) == c5 as real / 300.0
  {
    if c1 > 0 {
      var a, b := c5 as real / 300.0, c1 as real / 3600.0 + 0.001;
      assert 12.0 * b == c1 as real / 300.0 + 0.012;
      QuotientBelow(a, b, 12.0);
      QuotientBelow(a, b, 0.0);
      QuotientTimes(a, b);
    }
  }

  // the share of the last five minutes in the last hour, clipped to [0, 1]
  ghost predicate IsShare(c: real, s5: real, s1: real) {
    && (s1 <= 0.0 || s5 <= 0.0 ==> c == 0.0)
    && (s1 > 0.0 && 0.0 <= s5 <= s1 + 0.001 ==> c * (s1 + 0.001) == s5)
    && (s1 > 0.0 && s5 > s1 + 0.001 ==> c == 1.0)
  }

  lemma {:induction false} ConcentrationIs(s5: real, s1: real)
    ensures IsShare(Concentration(s5, s1), s5, s1)
  {
    if s1 > 0.0 {
      QuotientBelow(s5, s1 + 0.001, 1.0);
      QuotientBelow(s5, s1 + 0.001, 0.0);
      QuotientTimes(s5, s1 + 0.001);
    }
  }

  lemma {:induction false} NoDeviceNoSignals(rows: seq<Row<real>>, i: nat)
    requires i < |rows| && NoDevice(rows[i].key)
    ensures DeviceSignals(Keyed(rows), i) == Signals(0, 0, 0.0, 0.0, 0.0)
  {
    assert Past(Keyed(rows), i) == [];
  }

  // On a table whose devices come in time order, the counts of a row with a device are those of the rows before it
  // with the same device.
  lemma {:induction false} CountSignalsOnTable(rows: seq<Row<real>>, i: nat, e: string)
    requires i < |rows| && EntitySorted(Keyed(rows)) && rows[i].key == Some(e) && !NoDevice(Some(e))
    ensures var s, t := DeviceSignals(Keyed(rows), i), rows[i].t;
            s.count5m == |RowsSince(rows, i, e, t - 300)| && s.count1h == |RowsSince(rows, i, e, t - 3600)|
  {
    var t := rows[i].t;
    DeviceSignalsExact(Keyed(rows), i);
    CountOnTable(rows, i, e, t - 300);
    CountOnTable(rows, i, e, t - 3600);
  }

  // and the acceleration is the ratio of their rates
  lemma {:induction false} AccelerationOnTable(rows: seq<Row<real>>, i: nat, e: string)
    requires i < |rows| && EntitySorted(Keyed(rows)) && rows[i].key == Some(e) && !NoDevice(Some(e))
    ensures var s := DeviceSignals(Keyed(rows), i);
            s.acceleration * (s.count1h as real / 3600.0 + 0.001) == s.count5m as real / 300.0
  {
    var s := DeviceSignals(Keyed(rows), i);
    CountSignalsOnTable(rows, i, e);
    FewerInFiveMinutes(rows, i, e, rows[i].t);
    MeasuredAcceleration(DropOld(Kept(Past(Keyed(rows), i), DAY), rows[i].t - DAY), rows[i].t);
    AccelerationIs(s.count5m, s.count1h);
  }

  lemma {:induction false} MeasuredAcceleration(l: seq<Event<real>>, t: int)
    ensures Measure(l, t).acceleration == Acceleration(Measure(l, t).count5m, Measure(l, t).count1h)
  {
  }

  // The daily sum is that of these rows, and the concentration the share of five minutes in an hour.
  lemma {:induction false} SumSignalsOnTable(rows: seq<Row<real>>, i: nat, e: string)
    requires i < |rows| && EntitySorted(Keyed(rows)) && rows[i].key == Some(e) && !NoDevice(Some(e))
    ensures var s, t := DeviceSignals(Keyed(rows), i), rows[i].t;
            && s.sum24h == AmountSince(rows, i, e, t - 86400)
            && IsShare(s.concentration, AmountSince(rows, i, e, t - 300), AmountSince(rows, i, e, t - 3600))
  {
    var t := rows[i].t;
    DeviceSignalsExact(Keyed(rows), i);
    SumOnTable(rows, i, e, t - 300);
    SumOnTable(rows, i, e, t - 3600);
    SumOnTable(rows, i, e, t - 86400);
    ConcentrationIs(AmountSince(rows, i, e, t - 300), AmountSince(rows, i, e, t - 3600));
  }

  lemma {:induction false} Subset(a: set<int>, b: set<int>)
    requires a <= b
    ensures |a| <= |b|
  {
    assert b == a + (b - a);
  }

  lemma {:induction false} FewerInFiveMinutes(rows: seq<Row<real>>, n: nat, e: string, t: int)
    requires n <= |rows|
    ensures |RowsSince(rows, n, e, t - 300)| <= |RowsSince(rows, n, e, t - 3600)|
  {
    Subset(RowsSince(rows, n, e, t - 300), RowsSince(rows, n, e, t - 3600));
  }

  // the tokens seen on a device, and the devices seen with a token, before row n and from lo on
  function TokensOn(links: seq<Link>, n: nat, device: string, lo: int): set<Option<string>>
    requires n <= |links|
  {
    set k | 0 <= k < n && links[k].device == Some(device) && lo <= links[k].t :: links[k].token
  }

  function DevicesWith(links: seq<Link>, n: nat, token: string, lo: int): set<Option<string>>
    requires n <= |links|
  {
    set k | 0 <= k < n && links[k].token == Some(token) && lo <= links[k].t :: links[k].device
  }

  lemma {:induction false} TokensOnTable(links: seq<Link>, n: nat, e: string, lo: int)
    requires n <= |links| && !NoDevice(Some(e))
    ensures Values(Since(History(ByDevice(links), n, e), lo)) == TokensOn(links, n, e, lo)
  {
    var h := Since(History(ByDevice(links), n, e), lo);
    forall v ensures v in Values(h) <==> v in TokensOn(links, n, e, lo) {
      if x :| x in h && x.val == v {
        SinceMembers(ByDevice(links), n, e, lo, x);
      }
      if k :| 0 <= k < n && links[k].device == Some(e) && lo <= links[k].t && links[k].token == v {
        SinceMembers(ByDevice(links), n, e, lo, Event(links[k].t, v));
      }
    }
  }

  lemma {:induction false} DevicesOnTable(links: seq<Link>, n: nat, e: string, lo: int)
    requires n <= |links| && !NoDevice(Some(e))
    ensures Values(Since(History(ByToken(links), n, e), lo)) == DevicesWith(links, n, e, lo)
  {
    var h := Since(History(ByToken(links), n, e), lo);
    forall v ensures v in Values(h) <==> v in DevicesWith(links, n, e, lo) {
      if x :| x in h && x.val == v {
        SinceMembers(ByToken(links), n, e, lo, x);
      }
      if k :| 0 <= k < n && links[k].token == Some(e) && lo <= links[k].t && links[k].device == v {
        SinceMembers(ByToken(links), n, e, lo, Event(links[k].t, v));
      }
    }
  }

  // On a table whose devices come in time order: the distinct tokens of a device over the rows of the last hour
  // before this one; 0 for a missing, empty or "nan" id.
  lemma {:induction false} TokenLinkageOnTable(links: seq<Link>, i: nat)
    requires i < |links| && EntitySorted(ByDevice(links))
    ensures NoDevice(links[i].device) ==> Partners(ByDevice(links), i) == 0
    ensures !NoDevice(links[i].device) ==>
              Partners(ByDevice(links), i) == |TokensOn(links, i, links[i].device.value, links[i].t - 3600)|
  {
    LinkageExact(ByDevice(links), i);
    if NoDevice(links[i].device) {
      assert Values<Option<string>>([]) == {};
    } else {
      TokensOnTable(links, i, links[i].device.value, links[i].t - 3600);
    }
  }

  // and the distinct devices of a token
  lemma {:induction false} DeviceLinkageOnTable(links: seq<Link>, i: nat)
    requires i < |links| && EntitySorted(ByToken(links))
    ensures NoDevice(links[i].token) ==> Partners(ByToken(links), i) == 0
    ensures !NoDevice(links[i].token) ==>
              Partners(ByToken(links), i) == |DevicesWith(links, i, links[i].token.value, links[i].t - 3600)|
  {
    LinkageExact(ByToken(links), i);
    if NoDevice(links[i].token) {
      assert Values<Option<string>>([]) == {};
    } else {
      DevicesOnTable(links, i, links[i].token.value, links[i].t - 3600);
    }
  }

  // the rows of a device before row n, and those among them labelled fraud
  function UsesBefore(rows: seq<Row<bool>>, n: nat, e: string): set<int>
    requires n <= |rows|
  {
    set k | 0 <= k < n && rows[k].key == Some(e)
  }

  function FraudsBefore(rows: seq<Row<bool>>, n: nat, e: string): set<int>
    requires n <= |rows|
  {
    set k | 0 <= k < n && rows[k].key == Some(e) && rows[k].val
  }

  lemma {:induction false} UsesOnTable(rows: seq<Row<bool>>, n: nat, e: string)
    requires n <= |rows| && !NoDevice(Some(e))
    ensures |History(Keyed(rows), n, e)| == |UsesBefore(rows, n, e)|
  {
    if n > 0 {
      UsesOnTable(rows, n - 1, e);
      KeyedHistory(rows, n, e);
      assert UsesBefore(rows, n, e)
             == UsesBefore(rows, n - 1, e) + (if rows[n - 1].key == Some(e) then {n - 1} else {});
    }
  }

  lemma {:induction false} FraudsSnoc(h: seq<Event<bool>>, x: Event<bool>)
    ensures Frauds(h + [x]) == Frauds(h) + (if x.val then 1 else 0)
  {
    assert (h + [x])[..|h|] == h;
  }

  lemma {:induction false} FraudsOnTable(rows: seq<Row<bool>>, n: nat, e: string)
    requires n <= |rows| && !NoDevice(Some(e))
    ensures Frauds(History(Keyed(rows), n, e)) == |FraudsBefore(rows, n, e)|
  {
    if n > 0 {
      FraudsOnTable(rows, n - 1, e);
      KeyedHistory(rows, n, e);
      FraudsSnoc(History(Keyed(rows), n - 1, e), Event(rows[n - 1].t, rows[n - 1].val));
      FraudsBeforeStep(rows, n, e);
    }
  }

  lemma {:induction false} FraudsBeforeStep(rows: seq<Row<bool>>, n: nat, e: string)
    requires 0 < n <= |rows|
    ensures |FraudsBefore(rows, n, e)|
            == |FraudsBefore(rows, n - 1, e)| + (if rows[n - 1].key == Some(e) && rows[n - 1].val then 1 else 0)
  {
    assert FraudsBefore(rows, n, e)
           == FraudsBefore(rows, n - 1, e) + (if rows[n - 1].key == Some(e) && rows[n - 1].val then {n - 1} else {});
  }

  // the discounts for clean uses and for days since the first use
  function Discount(clean: nat, days: real): real {
    0.03 * (if clean < 10 then clean else 10) as real + 0.005 * Min(30.0, days)
  }

  lemma {:induction false} ScoreIs(s: Stats, t: int, days: real)
    requires s.total > 0 && s.fraud == s.dispute && s.total == s.success + s.fraud
    requires days == if t >= s.firstSeen then (t - s.firstSeen) as real / 86400.0 else 0.0
    ensures s.fraud == 0 ==> Rated(s, t).score == 0.5 - Discount(s.success, days)
    ensures s.fraud > 0 ==>
              Rated(s, t).score
              == Min(1.0, 1.0 - Discount(s.success, days) + 0.25 * (if s.fraud == 1 then 1.0 else 2.0)
                          + (if s.total >= 3 && 10 * s.fraud >= s.total then 0.2 else 0.0))
  {
    assert DaysSeen(s.firstSeen, t) == days >= 0.0;
    QuotientBelow(s.dispute as real, s.total as real, 0.1);
    ScoreBounds(s, t);
  }

  // The reputation of a row's device by the rows before it: neutral for no device or a new one; else the exact
  // fraction of frauds, and the score from the clean and fraudulent uses and the days since the first.
  lemma {:induction false} ReputationOnTable(rows: seq<Row<bool>>, i: nat)
    requires i < |rows|
    ensures NoDevice(rows[i].key) ==> DeviceReputation(Keyed(rows), i) == Reputation(0.5, 0.0, 0.0)
    ensures !NoDevice(rows[i].key) && (forall k :: 0 <= k < i ==> rows[k].key != rows[i].key) ==>
              DeviceReputation(Keyed(rows), i) == Reputation(0.5, 0.0, 0.0)
  {
    if !NoDevice(rows[i].key) {
      HistoryEmpty(Keyed(rows), i, rows[i].key.value);
    }
  }

  lemma {:induction false} KnownReputationOnTable(rows: seq<Row<bool>>, i: nat, e: string, k: nat, days: real)
    requires k < i < |rows| && !NoDevice(Some(e)) && rows[i].key == Some(e)
    requires rows[k].key == Some(e) && forall j :: 0 <= j < k ==> rows[j].key != Some(e)
    requires days == if rows[i].t >= rows[k].t then (rows[i].t - rows[k].t) as real / 86400.0 else 0.0
    ensures var r := DeviceReputation(Keyed(rows), i);
            var total, frauds := |UsesBefore(rows, i, e)|, |FraudsBefore(rows, i, e)|;
            && 0 <= frauds <= total && total > 0
            && r.fraudRate == r.disputeRate == frauds as real / total as real
            && (frauds == 0 ==> r.score == 0.5 - Discount(total, days))
            && (frauds > 0 ==>
                  r.score == Min(1.0, 1.0 - Discount(total - frauds, days) + 0.25 * (if frauds == 1 then 1.0 else 2.0)
                                      + (if total >= 3 && 10 * frauds >= total then 0.2 else 0.0)))
  {
    var h := History(Keyed(rows), i, e);
    UsesOnTable(rows, i, e);
    FraudsOnTable(rows, i, e);
    HistoryFirst(Keyed(rows), i, e, k);
    FraudsAndClean(h);
    ReputationSeparates(Keyed(rows), i);
    ScoreIs(StatsOf(h), rows[i].t, days);
  }

  // ---------------------------------------------------------------------------
  // Causality, as a property of two tables
  // ---------------------------------------------------------------------------

  lemma {:induction false} PastCausal<T(!new)>(rows: seq<Row<T>>, rows': seq<Row<T>>, i: nat)
    requires i < |rows| && i < |rows'| && rows[..i] == rows'[..i]
    requires rows[i].key == rows'[i].key
    ensures Past(rows, i) == Past(rows', i)
  {
    if rows[i].key.Some? {
      HistoryCausal(rows, rows', i, rows[i].key.value);
    }
  }

  // Two amount tables that agree before row i, and on row i's device and time, give row i the same
  // velocity signals: neither later rows nor the row's own amount matter.
  lemma {:induction false} SignalsCausal(rows: seq<Row<real>>, rows': seq<Row<real>>, i: nat)
    requires i < |rows| && i < |rows'| && rows[..i] == rows'[..i]
    requires rows[i].key == rows'[i].key && rows[i].t == rows'[i].t
    ensures DeviceSignals(Keyed(rows), i) == DeviceSignals(Keyed(rows'), i)
  {
    KeyedCausal(rows, rows', i);
    PastCausal(Keyed(rows), Keyed(rows'), i);
  }

  // The same for reputation: a row's own label and everything after it are invisible to it.
  lemma {:induction false} ReputationCausal(rows: seq<Row<bool>>, rows': seq<Row<bool>>, i: nat)
    requires i < |rows| && i < |rows'| && rows[..i] == rows'[..i]
    requires rows[i].key == rows'[i].key && rows[i].t == rows'[i].t
    ensures DeviceReputation(Keyed(rows), i) == DeviceReputation(Keyed(rows'), i)
  {
    KeyedCausal(rows, rows', i);
    PastCausal(Keyed(rows), Keyed(rows'), i);
  }

  lemma {:induction false} VelocityCausal(rows: seq<Row<()>>, rows': seq<Row<()>>, i: nat, window: int)
    requires i < |rows| && i < |rows'| && rows[..i + 1] == rows'[..i + 1]
    ensures Velocity(rows, i, window) == Velocity(rows', i, window)
  {
    assert rows[i] == rows[..i + 1][i] && rows'[i] == rows'[..i + 1][i];
    if rows[i].key.Some? {
      HistoryCausal(rows, rows', i + 1, rows[i].key.value);
    }
  }

  lemma {:induction false} LinkageCausal(links: seq<Link>, links': seq<Link>, i: nat)
    requires i < |links| && i < |links'| && links[..i + 1] == links'[..i + 1]
    ensures Partners(ByDevice(links), i) == Partners(ByDevice(links'), i)
    ensures Partners(ByToken(links), i) == Partners(ByToken(links'), i)
  {
    assert forall k :: 0 <= k <= i ==> links[k] == links[..i + 1][k] && links'[k] == links'[..i + 1][k];
    assert ByDevice(links)[..i] == ByDevice(links')[..i] && ByToken(links)[..i] == ByToken(links')[..i];
    PastCausal(ByDevice(links), ByDevice(links'), i);
    PastCausal(ByToken(links), ByToken(links'), i);
  }

  lemma {:induction false} KeyedCausal<T(!new)>(rows: seq<Row<T>>, rows': seq<Row<T>>, i: nat)
    requires i <= |rows| && i <= |rows'| && rows[..i] == rows'[..i]
    ensures Keyed(rows)[..i] == Keyed(rows')[..i]
  {
    assert forall k :: 0 <= k < i ==> rows[k] == rows[..i][k] && rows'[k] == rows'[..i][k];
  }
}
