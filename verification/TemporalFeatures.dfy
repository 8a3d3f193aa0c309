// Card and device features over the whole, unpruned history: the second window engine, which
// rescans each card's list of events on every row.
// Source: ml-service/data_pipeline/temporal_features.py

module TemporalFeatures {
  import opened Common
  import opened Windows

  const FIVE_MINUTES := 300
  const HOUR := 3600
  const SIX_HOURS := 21600
  const DAY := 86400
  const WEEK := 7 * 86400

  // card is the joined card and address key; a device the table lacks reads "missing"
  datatype Payment = Payment(card: string, device: string, t: int, amount: real)

  datatype Use = Use(amount: real, device: string)

  predicate Known(device: string) {
    device != "missing" && device != "nan"
  }

  function ByCard(table: seq<Payment>): (r: seq<Row<Use>>)
    ensures |r| == |table|
    ensures forall i :: 0 <= i < |table| ==>
              r[i] == Row(Some(table[i].card), table[i].t, Use(table[i].amount, table[i].device))
  {
    seq(|table|, i requires 0 <= i < |table| =>
      Row(Some(table[i].card), table[i].t, Use(table[i].amount, table[i].device)))
  }

  function ByDevice(table: seq<Payment>): (r: seq<Row<string>>)
    ensures |r| == |table|
    ensures forall i :: 0 <= i < |table| ==>
              r[i] == Row(if Known(table[i].device) then Some(table[i].device) else None, table[i].t, table[i].card)
  {
    seq(|table|, i requires 0 <= i < |table| =>
      Row(if Known(table[i].device) then Some(table[i].device) else None, table[i].t, table[i].card))
  }

  datatype CardFeatures = CardFeatures(
    isNew: bool, sincePrev: int, ageDays: real,
    count5m: nat, count1h: nat, count6h: nat, count24h: nat, count7d: nat,
    sum1h: real, sum24h: real, sum7d: real,
    acceleration: real, devices24h: nat)

  function Sum(h: seq<Event<Use>>): real {
    if h == [] then 0.0 else Sum(h[..|h| - 1]) + h[|h| - 1].val.amount
  }

  function Devices(h: seq<Event<Use>>): set<string> {
    set x | x in h && Known(x.val.device) :: x.val.device
  }

  function Acceleration(count1h: nat, count24h: nat): real {
    if count24h == 0 then 0.0
    else Clip((count1h as real / 3600.0) / (count24h as real / 86400.0), 0.0, 50.0)
  }

  function Measure(h: seq<Event<Use>>, t: int): CardFeatures {
    if h == [] then CardFeatures(true, -1, 0.0, 0, 0, 0, 0, 0, 0.0, 0.0, 0.0, 0.0, 0)
    else CardFeatures(
      false,
      if t - h[|h| - 1].t > 0 then t - h[|h| - 1].t else 0,
      Max(0.0, (t - h[0].t) as real / 86400.0),
      |Since(h, t - FIVE_MINUTES)|, |Since(h, t - HOUR)|, |Since(h, t - SIX_HOURS)|,
      |Since(h, t - DAY)|, |Since(h, t - WEEK)|,
      Sum(Since(h, t - HOUR)), Sum(Since(h, t - DAY)), Sum(Since(h, t - WEEK)),
      Acceleration(|Since(h, t - HOUR)|, |Since(h, t - DAY)|),
      |Devices(Since(h, t - DAY))|)
  }

  function Amounts(h: seq<Event<Use>>): (r: seq<real>)
    ensures |r| == |h|
  {
    if h == [] then [] else Amounts(h[..|h| - 1]) + [h[|h| - 1].val.amount]
  }

  function Total(xs: seq<real>): real {
    if xs == [] then 0.0 else Total(xs[..|xs| - 1]) + xs[|xs| - 1]
  }

  function Mean(xs: seq<real>): real
    requires xs != []
  {
    Total(xs) / |xs| as real
  }

  // the amount's distance from the mean of the list; `deviation` is the library's standard deviation
  function Score(deviation: seq<real> -> real, xs: seq<real>, amount: real): real {
    if |xs| < 2 then 0.0
    else
      var sigma := deviation(xs);
      if sigma > 0.0001 then Clip((amount - Mean(xs)) / sigma, -5.0, 10.0) else 0.0
  }

  function ZScore(deviation: seq<real> -> real, h: seq<Event<Use>>, amount: real): real {
    Score(deviation, Amounts(h), amount)
  }

  datatype PaymentFeatures = PaymentFeatures(card: CardFeatures, zscore: real, newDevice: bool, cardsOnDevice24h: nat)

  function Cards(h: seq<Event<string>>): set<string> {
    set x | x in h :: x.val
  }

  function Features(deviation: seq<real> -> real, table: seq<Payment>, i: nat): PaymentFeatures
    requires i < |table|
  {
    var p := table[i];
    var dh := History(ByDevice(table), i, p.device);
    PaymentFeatures(
      Measure(History(ByCard(table), i, p.card), p.t),
      ZScore(deviation, History(ByCard(table), i, p.card), p.amount),
      !Known(p.device) || dh == [],
      if Known(p.device) then |Cards(Since(dh, p.t - DAY))| else 0)
  }

  // ---------------------------------------------------------------------------
  // The engine
  // ---------------------------------------------------------------------------

  lemma {:induction false} SumSnoc(h: seq<Event<Use>>, x: Event<Use>)
    ensures Sum(h + [x]) == Sum(h) + x.val.amount
  {
    assert (h + [x])[..|h|] == h;
  }

  lemma {:induction false} DevicesSnoc(h: seq<Event<Use>>, x: Event<Use>)
    ensures Devices(h + [x]) == Devices(h) + (if Known(x.val.device) then {x.val.device} else {})
  {
    assert forall y :: y in h + [x] <==> y in h || y == x;
  }

  // what one more event adds to the count, the sum and the devices of a window
  lemma {:induction false} WindowCountSnoc(h: seq<Event<Use>>, e: Event<Use>, lo: int)
    ensures |Since(h + [e], lo)| == |Since(h, lo)| + (if e.t >= lo then 1 else 0)
  {
    SinceSnoc(h, e, lo);
  }

  lemma {:induction false} WindowSumSnoc(h: seq<Event<Use>>, e: Event<Use>, lo: int)
    ensures Sum(Since(h + [e], lo)) == Sum(Since(h, lo)) + (if e.t >= lo then e.val.amount else 0.0)
  {
    SinceSnoc(h, e, lo);
    SumSnoc(Since(h, lo), e);
  }

  lemma {:induction false} WindowDevicesSnoc(h: seq<Event<Use>>, e: Event<Use>, lo: int)
    ensures Devices(Since(h + [e], lo))
            == Devices(Since(h, lo)) + (if e.t >= lo && Known(e.val.device) then {e.val.device} else {})
  {
    SinceSnoc(h, e, lo);
    DevicesSnoc(Since(h, lo), e);
  }

  // the running values of the scan
  datatype Tally = Tally(c5m: nat, c1h: nat, c6h: nat, c24h: nat, c7d: nat, s1h: real, s24h: real, s7d: real,
    devices: set<string>)

  function TallyOf(h: seq<Event<Use>>, t: int): Tally {
    Tally(|Since(h, t - FIVE_MINUTES)|, |Since(h, t - HOUR)|, |Since(h, t - SIX_HOURS)|,
          |Since(h, t - DAY)|, |Since(h, t - WEEK)|,
          Sum(Since(h, t - HOUR)), Sum(Since(h, t - DAY)), Sum(Since(h, t - WEEK)), Devices(Since(h, t - DAY)))
  }

  function Count(y: Tally, e: Event<Use>, t: int): Tally {
    Tally(
      if e.t >= t - FIVE_MINUTES then y.c5m + 1 else y.c5m,
      if e.t >= t - HOUR then y.c1h + 1 else y.c1h,
      if e.t >= t - SIX_HOURS then y.c6h + 1 else y.c6h,
      if e.t >= t - DAY then y.c24h + 1 else y.c24h,
      if e.t >= t - WEEK then y.c7d + 1 else y.c7d,
      if e.t >= t - HOUR then y.s1h + e.val.amount else y.s1h,
      if e.t >= t - DAY then y.s24h + e.val.amount else y.s24h,
      if e.t >= t - WEEK then y.s7d + e.val.amount else y.s7d,
      if e.t >= t - DAY && Known(e.val.device) then y.devices + {e.val.device} else y.devices)
  }

  lemma {:induction false} CountsSnoc(h: seq<Event<Use>>, e: Event<Use>, t: int)
    ensures var y, z := TallyOf(h + [e], t), Count(TallyOf(h, t), e, t);
            y.c5m == z.c5m && y.c1h == z.c1h && y.c6h == z.c6h && y.c24h == z.c24h && y.c7d == z.c7d
  {
    WindowCountSnoc(h, e, t - FIVE_MINUTES);
    WindowCountSnoc(h, e, t - HOUR);
    WindowCountSnoc(h, e, t - SIX_HOURS);
    WindowCountSnoc(h, e, t - DAY);
    WindowCountSnoc(h, e, t - WEEK);
  }

  lemma {:induction false} SumsSnoc(h: seq<Event<Use>>, e: Event<Use>, t: int)
    ensures var y, z := TallyOf(h + [e], t), Count(TallyOf(h, t), e, t);
            y.s1h == z.s1h && y.s24h == z.s24h && y.s7d == z.s7d
  {
    WindowSumSnoc(h, e, t - HOUR);
    WindowSumSnoc(h, e, t - DAY);
    WindowSumSnoc(h, e, t - WEEK);
  }

  lemma {:induction false} DaySnoc(h: seq<Event<Use>>, e: Event<Use>, t: int)
    ensures TallyOf(h + [e], t).devices == Count(TallyOf(h, t), e, t).devices
  {
    WindowDevicesSnoc(h, e, t - DAY);
  }

  lemma {:induction false} TallySnoc(h: seq<Event<Use>>, e: Event<Use>, t: int)
    ensures TallyOf(h + [e], t) == Count(TallyOf(h, t), e, t)
  {
    CountsSnoc(h, e, t);
    SumsSnoc(h, e, t);
    DaySnoc(h, e, t);
  }

  // the scan of one card's history
  method MeasureCard(hist: seq<Event<Use>>, t: int) returns (f: CardFeatures)
    requires hist != []
    ensures f == Measure(hist, t)
  {
    var y := Tally(0, 0, 0, 0, 0, 0.0, 0.0, 0.0, {});
    for j := 0 to |hist|
      invariant y == TallyOf(hist[..j], t)
    {
      assert hist[..j + 1] == hist[..j] + [hist[j]];
      TallySnoc(hist[..j], hist[j], t);
      y := Count(y, hist[j], t);
    }
    assert hist[..|hist|] == hist;
    var gap := t - hist[|hist| - 1].t;
    f := CardFeatures(false, if gap > 0 then gap else 0, Max(0.0, (t - hist[0].t) as real / 86400.0),
                      y.c5m, y.c1h, y.c6h, y.c24h, y.c7d, y.s1h, y.s24h, y.s7d,
                      Acceleration(y.c1h, y.c24h), |y.devices|);
  }

  ghost predicate Holds<T(!new)>(m: map<string, seq<Event<T>>>, rows: seq<Row<T>>, n: nat)
    requires n <= |rows|
  {
    forall e :: Lookup(m, e) == History(rows, n, e) && (e in m <==> History(rows, n, e) != [])
  }

  lemma {:induction false} HoldsStep<T(!new)>(m: map<string, seq<Event<T>>>, rows: seq<Row<T>>, i: nat)
    requires i < |rows| && Holds(m, rows, i)
    ensures rows[i].key.None? ==> Holds(m, rows, i + 1)
    ensures rows[i].key.Some? ==>
              var e := rows[i].key.value;
              && Lookup(m, e) == History(rows, i, e) && (e in m <==> History(rows, i, e) != [])
              && Holds(m[e := Lookup(m, e) + [Event(rows[i].t, rows[i].val)]], rows, i + 1)
  {
    var m' := if rows[i].key.None? then m
              else m[rows[i].key.value := Lookup(m, rows[i].key.value) + [Event(rows[i].t, rows[i].val)]];
    forall d ensures Lookup(m', d) == History(rows, i + 1, d) && (d in m' <==> History(rows, i + 1, d) != []) {
      HoldsAt(m, rows, i, d);
    }
    if rows[i].key.Some? {
      HoldsAt(m, rows, i, rows[i].key.value);
    }
  }

  lemma {:induction false} HoldsAt<T(!new)>(m: map<string, seq<Event<T>>>, rows: seq<Row<T>>, n: nat, e: string)
    requires n <= |rows| && Holds(m, rows, n)
    ensures Lookup(m, e) == History(rows, n, e) && (e in m <==> History(rows, n, e) != [])
  {
  }

  ghost predicate FeaturesColumn(out: seq<PaymentFeatures>, deviation: seq<real> -> real, table: seq<Payment>) {
    |out| <= |table| && forall i :: 0 <= i < |out| ==> out[i] == Features(deviation, table, i)
  }

  lemma {:induction false} FeaturesColumnSnoc(
    out: seq<PaymentFeatures>, deviation: seq<real> -> real, table: seq<Payment>, f: PaymentFeatures)
    requires FeaturesColumn(out, deviation, table) && |out| < |table| && f == Features(deviation, table, |out|)
    ensures FeaturesColumn(out + [f], deviation, table)
  {
  }

  lemma {:induction false} FeaturesAre(f: PaymentFeatures, deviation: seq<real> -> real, table: seq<Payment>, i: nat)
    requires i < |table|
    requires var p := table[i]; var used := History(ByCard(table), i, p.card);
             f.card == Measure(used, p.t) && f.zscore == ZScore(deviation, used, p.amount)
    requires var p := table[i]; var seen := History(ByDevice(table), i, p.device);
             && f.newDevice == (!Known(p.device) || seen == [])
             && f.cardsOnDevice24h == if Known(p.device) then |Cards(Since(seen, p.t - DAY))| else 0
    ensures f == Features(deviation, table, i)
  {
  }

  method ExtractPointInTimeTemporalFeatures(table: seq<Payment>, deviation: seq<real> -> real)
    returns (out: seq<PaymentFeatures>)
    ensures |out| == |table| && FeaturesColumn(out, deviation, table)
  {
    out := [];
    var cardHistory: map<string, seq<Event<Use>>> := map[];
    var deviceHistory: map<string, seq<Event<string>>> := map[];
    var knownDevices: set<string> := {};
    ghost var cards, devices := ByCard(table), ByDevice(table);
    for i := 0 to |table|
      invariant |out| == i && FeaturesColumn(out, deviation, table)
      invariant Holds(cardHistory, cards, i) && Holds(deviceHistory, devices, i)
      invariant knownDevices == deviceHistory.Keys
    {
      var p := table[i];
      var card, zscore, newDevice, cardsOnDevice;
      cardHistory, card, zscore := CardStep(cardHistory, p, deviation, cards, i);
      deviceHistory, knownDevices, newDevice, cardsOnDevice := DeviceStep(deviceHistory, knownDevices, p, devices, i);
      var f := PaymentFeatures(card, zscore, newDevice, cardsOnDevice);
      FeaturesAre(f, deviation, table, i);
      FeaturesColumnSnoc(out, deviation, table, f);
      out := out + [f];
    }
  }

  // the list of past amounts and the score of the current one
  method ScoreAmount(hist: seq<Event<Use>>, amount: real, deviation: seq<real> -> real) returns (z: real)
    ensures z == ZScore(deviation, hist, amount)
  {
    var all: seq<real> := [];
    for j := 0 to |hist|
      invariant all == Amounts(hist[..j])
    {
      assert hist[..j + 1] == hist[..j] + [hist[j]];
      assert hist[..j + 1][..j] == hist[..j];
      all := all + [hist[j].val.amount];
    }
    assert hist[..|hist|] == hist;
    z := 0.0;
    if |all| >= 2 {
      var mu, sigma := Mean(all), deviation(all);
      if sigma > 0.0001 {
        z := Clip((amount - mu) / sigma, -5.0, 10.0);
      }
    }
  }

  // the card part of the loop body: measure, then append
  method CardStep(
    m: map<string, seq<Event<Use>>>, p: Payment, deviation: seq<real> -> real, ghost cards: seq<Row<Use>>, ghost i: nat)
    returns (m': map<string, seq<Event<Use>>>, card: CardFeatures, zscore: real)
    requires i < |cards| && cards[i] == Row(Some(p.card), p.t, Use(p.amount, p.device)) && Holds(m, cards, i)
    ensures Holds(m', cards, i + 1)
    ensures card == Measure(History(cards, i, p.card), p.t)
            && zscore == ZScore(deviation, History(cards, i, p.card), p.amount)
  {
    HoldsStep(m, cards, i);
    var event := Event(p.t, Use(p.amount, p.device));
    if p.card !in m {
      card, zscore := CardFeatures(true, -1, 0.0, 0, 0, 0, 0, 0, 0.0, 0.0, 0.0, 0.0, 0), 0.0;
      m' := m[p.card := [event]];
      assert Lookup(m, p.card) + [event] == [event];
    } else {
      card := MeasureCard(m[p.card], p.t);
      zscore := ScoreAmount(m[p.card], p.amount, deviation);
      m' := m[p.card := m[p.card] + [event]];
    }
  }

  // the device part of the loop body: novelty, the cards of the last day, then append
  method DeviceStep(
    m: map<string, seq<Event<string>>>, known: set<string>, p: Payment, ghost devices: seq<Row<string>>, ghost i: nat)
    returns (m': map<string, seq<Event<string>>>, known': set<string>, newDevice: bool, cards: nat)
    requires i < |devices| && devices[i] == Row(if Known(p.device) then Some(p.device) else None, p.t, p.card)
    requires Holds(m, devices, i) && known == m.Keys
    ensures Holds(m', devices, i + 1) && known' == m'.Keys
    ensures newDevice == (!Known(p.device) || History(devices, i, p.device) == [])
    ensures cards == if Known(p.device) then |Cards(Since(History(devices, i, p.device), p.t - DAY))| else 0
  {
    HoldsStep(m, devices, i);
    m', known', newDevice, cards := m, known, true, 0;
    if Known(p.device) {
      newDevice := p.device !in known;
      known' := known + {p.device};
      if p.device !in m {
        m' := m[p.device := [Event(p.t, p.card)]];
        assert Lookup(m, p.device) + [Event(p.t, p.card)] == [Event(p.t, p.card)];
        assert Cards([]) == {};
      } else {
        cards := CountCards(m[p.device], p.t - DAY);
        m' := m[p.device := m[p.device] + [Event(p.t, p.card)]];
      }
    }
  }

  lemma {:induction false} CardsSnoc(h: seq<Event<string>>, x: Event<string>)
    ensures Cards(h + [x]) == Cards(h) + {x.val}
  {
    assert forall y :: y in h + [x] <==> y in h || y == x;
  }

  method CountCards(hist: seq<Event<string>>, lo: int) returns (n: nat)
    ensures n == |Cards(Since(hist, lo))|
  {
    var cards: set<string> := {};
    for j := 0 to |hist|
      invariant cards == Cards(Since(hist[..j], lo))
    {
      assert hist[..j + 1] == hist[..j] + [hist[j]];
      SinceSnoc(hist[..j], hist[j], lo);
      CardsSnoc(Since(hist[..j], lo), hist[j]);
      if hist[j].t >= lo {
        cards := cards + {hist[j].val};
      }
    }
    assert hist[..|hist|] == hist;
    n := |cards|;
  }

  // ---------------------------------------------------------------------------
  // What the features satisfy
  // ---------------------------------------------------------------------------

  lemma {:induction false} NestedWindows<T(!new)>(h: seq<Event<T>>, lo: int, lo': int)
    requires lo <= lo'
    ensures |Since(h, lo')| <= |Since(h, lo)| <= |h|
  {
    SinceSince(h, lo, lo');
    SinceExact(Since(h, lo), lo');
    SinceExact(h, lo);
  }

  lemma {:induction false} DevicesAtMostEvents(h: seq<Event<Use>>)
    ensures |Devices(h)| <= |h|
  {
    if h != [] {
      var n := |h| - 1;
      assert h == h[..n] + [h[n]];
      DevicesSnoc(h[..n], h[n]);
      DevicesAtMostEvents(h[..n]);
    }
  }

  // the counts, and the sums and devices, whether or not there is a history
  lemma {:induction false} MeasureCounts(h: seq<Event<Use>>, t: int)
    ensures var f := Measure(h, t);
            && f.count5m == |Since(h, t - 300)| && f.count1h == |Since(h, t - 3600)|
            && f.count6h == |Since(h, t - 21600)| && f.count24h == |Since(h, t - 86400)|
            && f.count7d == |Since(h, t - 604800)|
  {
  }

  lemma {:induction false} MeasureSums(h: seq<Event<Use>>, t: int)
    ensures var f := Measure(h, t);
            && f.sum1h == Sum(Since(h, t - 3600)) && f.sum24h == Sum(Since(h, t - 86400))
            && f.sum7d == Sum(Since(h, t - 604800))
  {
  }

  lemma {:induction false} MeasureDevices(h: seq<Event<Use>>, t: int)
    ensures Measure(h, t).devices24h == |Devices(Since(h, t - 86400))|
  {
    if h == [] {
      assert Devices(h) == {};
    }
  }

  // The windows are nested, a day never shows more devices than payments, and the hourly rate is at
  // most 24 times the daily one, so the clip at 50 never bites and the ratio is exact.
  lemma {:induction false} CardFeaturesConsistent(h: seq<Event<Use>>, t: int)
    ensures var f := Measure(h, t);
            && f.count5m <= f.count1h <= f.count6h <= f.count24h <= f.count7d <= |h|
            && f.devices24h <= f.count24h
            && 0.0 <= f.acceleration <= 24.0
            && f.acceleration * f.count24h as real == 24.0 * f.count1h as real
  {
    NestedWindows(h, t - HOUR, t - FIVE_MINUTES);
    NestedWindows(h, t - SIX_HOURS, t - HOUR);
    NestedWindows(h, t - DAY, t - SIX_HOURS);
    NestedWindows(h, t - WEEK, t - DAY);
    DevicesAtMostEvents(Since(h, t - DAY));
    MeasureCounts(h, t);
    MeasureDevices(h, t);
    MeasureRatio(h, t);
  }

  lemma {:induction false} MeasureRatio(h: seq<Event<Use>>, t: int)
    ensures var f := Measure(h, t);
            && 0.0 <= f.acceleration <= 24.0
            && f.acceleration * f.count24h as real == 24.0 * f.count1h as real
  {
    NestedWindows(h, t - DAY, t - HOUR);
    var f := Measure(h, t);
    if h != [] && f.count24h > 0 {
      AccelerationExact(f.count1h, f.count24h);
    }
  }


  lemma {:induction false} AccelerationExact(count1h: nat, count24h: nat)
    requires count1h <= count24h && count24h > 0
    ensures 0.0 <= Acceleration(count1h, count24h) <= 24.0
    ensures Acceleration(count1h, count24h) * count24h as real == 24.0 * count1h as real
  {
    var a, b := count1h as real / 3600.0, count24h as real / 86400.0;
    QuotientBelow(a, b, 0.0);
    QuotientBelow(a, b, 24.0);
    QuotientTimes(a, b);
  }

  function CardColumn(table: seq<Payment>): (r: seq<Row<()>>)
    ensures |r| == |table|
    ensures forall i :: 0 <= i < |table| ==> r[i] == Row(Some(table[i].card), table[i].t, ())
  {
    seq(|table|, i requires 0 <= i < |table| => Row(Some(table[i].card), table[i].t, ()))
  }

  lemma {:induction false} WindowSizeStep<T(!new)>(rows: seq<Row<T>>, n: nat, e: string, lo: int)
    requires 0 < n <= |rows|
    ensures |Since(History(rows, n, e), lo)|
            == |Since(History(rows, n - 1, e), lo)| + if rows[n - 1].key == Some(e) && lo <= rows[n - 1].t then 1 else 0
  {
    SinceSnoc(History(rows, n - 1, e), Event(rows[n - 1].t, rows[n - 1].val), lo);
  }

  // window sizes depend on the keys and times only, not on the values carried along
  lemma {:induction false} SameWindowSize<T(!new)>(rows: seq<Row<()>>, rows': seq<Row<T>>, n: nat, e: string, lo: int)
    requires n <= |rows| == |rows'|
    requires forall i :: 0 <= i < |rows| ==> rows[i].key == rows'[i].key && rows[i].t == rows'[i].t
    ensures |Since(History(rows, n, e), lo)| == |Since(History(rows', n, e), lo)|
  {
    if n > 0 {
      SameWindowSize(rows, rows', n - 1, e, lo);
      WindowSizeStep(rows, n, e, lo);
      WindowSizeStep(rows', n, e, lo);
    }
  }

  // The two window engines agree: on a table whose cards come in time order, the pruned velocity of
  // the card column is the unpruned count plus the row itself, for every window both engines use.
  lemma {:induction false} EnginesAgree(deviation: seq<real> -> real, table: seq<Payment>, i: nat)
    requires i < |table| && EntitySorted(CardColumn(table))
    ensures var f, c := Features(deviation, table, i).card, CardColumn(table);
            && Velocity(c, i, FIVE_MINUTES) == f.count5m + 1
            && Velocity(c, i, HOUR) == f.count1h + 1
            && Velocity(c, i, SIX_HOURS) == f.count6h + 1
            && Velocity(c, i, DAY) == f.count24h + 1
            && Velocity(c, i, WEEK) == f.count7d + 1
  {
    EngineAgrees(table, i, FIVE_MINUTES);
    EngineAgrees(table, i, HOUR);
    EngineAgrees(table, i, SIX_HOURS);
    EngineAgrees(table, i, DAY);
    EngineAgrees(table, i, WEEK);
  }

  lemma {:induction false} EngineAgrees(table: seq<Payment>, i: nat, window: int)
    requires i < |table| && EntitySorted(CardColumn(table))
    ensures Velocity(CardColumn(table), i, window)
            == |Since(History(ByCard(table), i, table[i].card), table[i].t - window)| + 1
  {
    var c, e, t := CardColumn(table), table[i].card, table[i].t;
    VelocityIsPruned(c, i, window);
    HistoryPrefix(c, i + 1, |c|, e);
    assert Sorted(History(c, |c|, e));
    SortedSnoc(History(c, i, e), Event(t, ()));
    PrunedSuffices(History(c, i, e), window, t);
    SameWindowSize(c, ByCard(table), i, e, t - window);
  }

  // The score lies between its clips, and inside them it gives the amount back: mean plus score times
  // deviation. The clips are met exactly from ten deviations above and five below.
  lemma {:induction false} ScoreExact(deviation: seq<real> -> real, xs: seq<real>, amount: real)
    requires |xs| >= 2 && deviation(xs) > 0.0001
    ensures var z, mu, sigma := Score(deviation, xs, amount), Mean(xs), deviation(xs);
            && -5.0 <= z <= 10.0
            && (z == 10.0 <==> amount - mu >= 10.0 * sigma)
            && (z == -5.0 <==> amount - mu <= -5.0 * sigma)
            && (-5.0 < z < 10.0 ==> z * sigma == amount - mu)
  {
    var mu, sigma := Mean(xs), deviation(xs);
    QuotientBelow(amount - mu, sigma, 10.0);
    QuotientBelow(amount - mu, sigma, -5.0);
    QuotientTimes(amount - mu, sigma);
  }

  // the population variance
  function SquaredGaps(xs: seq<real>, mu: real): real {
    if xs == [] then 0.0 else SquaredGaps(xs[..|xs| - 1], mu) + (xs[|xs| - 1] - mu) * (xs[|xs| - 1] - mu)
  }

  function Variance(xs: seq<real>): real
    requires xs != []
  {
    SquaredGaps(xs, Mean(xs)) / |xs| as real
  }

  ghost predicate Constant(xs: seq<real>, c: real) {
    forall i :: 0 <= i < |xs| ==> xs[i] == c
  }

  lemma {:induction false} ConstantTotals(xs: seq<real>, c: real)
    requires Constant(xs, c)
    ensures Total(xs) == |xs| as real * c && SquaredGaps(xs, c) == 0.0
  {
    if xs != [] {
      var n := |xs| - 1;
      ConstantTotals(xs[..n], c);
      assert |xs| as real * c == n as real * c + c;
    }
  }

  lemma {:induction false} ZeroProduct(a: real, b: real)
    requires a * b == 0.0 && a > 0.0
    ensures b <= 0.0
  {
    if b > 0.0 {
      PositiveProduct(a, b);
    }
  }

  // Against a history of equal amounts every amount scores 0, however far off it is.
  lemma {:induction false} ConstantHistoryScoresZero(deviation: seq<real> -> real, xs: seq<real>, c: real, amount: real)
    requires Constant(xs, c) && (xs != [] ==> deviation(xs) * deviation(xs) == Variance(xs))
    ensures Score(deviation, xs, amount) == 0.0
  {
    if xs != [] {
      ConstantTotals(xs, c);
      QuotientBelow(Total(xs), |xs| as real, c);
      assert Variance(xs) == 0.0 / |xs| as real == 0.0;
      if deviation(xs) > 0.0 {
        ZeroProduct(deviation(xs), deviation(xs));
      }
    }
  }

  // Two tables that agree before row i, and on row i's card, device and time, give row i the same
  // features but for the score: neither later rows nor the row's own amount matter. The score depends on
  // the row's own amount and on nothing else besides.
  lemma {:induction false} FeaturesCausal(
    deviation: seq<real> -> real, table: seq<Payment>, table': seq<Payment>, i: nat)
    requires i < |table| && i < |table'| && forall k :: 0 <= k < i ==> table[k] == table'[k]
    requires table[i].card == table'[i].card && table[i].device == table'[i].device && table[i].t == table'[i].t
    ensures var f, g := Features(deviation, table, i), Features(deviation, table', i);
            && f == g.(zscore := f.zscore)
            && (table[i].amount == table'[i].amount ==> f == g)
  {
    assert ByCard(table)[..i] == ByCard(table')[..i];
    assert ByDevice(table)[..i] == ByDevice(table')[..i];
    HistoryCausal(ByCard(table), ByCard(table'), i, table[i].card);
    HistoryCausal(ByDevice(table), ByDevice(table'), i, table[i].device);
  }

  // ---------------------------------------------------------------------------
  // The features on the table
  // ---------------------------------------------------------------------------

  // the rows before row n with a given card, stamped from lo on, and what they add up to
  function PaymentsSince(table: seq<Payment>, n: nat, card: string, lo: int): set<int>
    requires n <= |table|
  {
    set k | 0 <= k < n && table[k].card == card && lo <= table[k].t
  }

  function AmountSince(table: seq<Payment>, n: nat, card: string, lo: int): real
    requires n <= |table|
  {
    if n == 0 then 0.0
    else AmountSince(table, n - 1, card, lo)
         + (if table[n - 1].card == card && lo <= table[n - 1].t then table[n - 1].amount else 0.0)
  }

  function DevicesSince(table: seq<Payment>, n: nat, card: string, lo: int): set<string>
    requires n <= |table|
  {
    set k | 0 <= k < n && table[k].card == card && lo <= table[k].t
            && table[k].device != "missing" && table[k].device != "nan" :: table[k].device
  }

  function CardsSince(table: seq<Payment>, n: nat, device: string, lo: int): set<string>
    requires n <= |table|
  {
    set k | 0 <= k < n && table[k].device == device && lo <= table[k].t :: table[k].card
  }

  // the amounts of the rows before row n with a given card, in table order
  function AmountsOf(table: seq<Payment>, n: nat, card: string): seq<real>
    requires n <= |table|
  {
    if n == 0 then []
    else AmountsOf(table, n - 1, card) + (if table[n - 1].card == card then [table[n - 1].amount] else [])
  }

  lemma {:induction false} CountOnTable(table: seq<Payment>, n: nat, card: string, lo: int)
    requires n <= |table|
    ensures |Since(History(ByCard(table), n, card), lo)| == |PaymentsSince(table, n, card, lo)|
  {
    SinceCounts(ByCard(table), n, card, lo);
    assert RowsSince(ByCard(table), n, card, lo) == PaymentsSince(table, n, card, lo);
  }

  lemma {:induction false} SumOnTable(table: seq<Payment>, n: nat, card: string, lo: int)
    requires n <= |table|
    ensures Sum(Since(History(ByCard(table), n, card), lo)) == AmountSince(table, n, card, lo)
  {
    if n > 0 {
      SumOnTable(table, n - 1, card, lo);
      if table[n - 1].card == card {
        WindowSumSnoc(History(ByCard(table), n - 1, card), Event(table[n - 1].t, ByCard(table)[n - 1].val), lo);
      }
    }
  }

  lemma {:induction false} DevicesOnTable(table: seq<Payment>, n: nat, card: string, lo: int)
    requires n <= |table|
    ensures Devices(Since(History(ByCard(table), n, card), lo)) == DevicesSince(table, n, card, lo)
  {
    var h := Since(History(ByCard(table), n, card), lo);
    forall d ensures d in Devices(h) <==> d in DevicesSince(table, n, card, lo) {
      if x :| x in h && Known(x.val.device) && x.val.device == d {
        SinceMembers(ByCard(table), n, card, lo, x);
      }
      if k :|
        && 0 <= k < n && table[k].card == card && lo <= table[k].t
        && table[k].device == d && d != "missing" && d != "nan"
      {
        SinceMembers(ByCard(table), n, card, lo, Event(table[k].t, ByCard(table)[k].val));
      }
    }
  }

  lemma {:induction false} CardsOnTable(table: seq<Payment>, n: nat, device: string, lo: int)
    requires n <= |table| && Known(device)
    ensures Cards(Since(History(ByDevice(table), n, device), lo)) == CardsSince(table, n, device, lo)
  {
    var h := Since(History(ByDevice(table), n, device), lo);
    forall c ensures c in Cards(h) <==> c in CardsSince(table, n, device, lo) {
      if x :| x in h && x.val == c {
        SinceMembers(ByDevice(table), n, device, lo, x);
      }
      if k :| 0 <= k < n && table[k].device == device && lo <= table[k].t && table[k].card == c {
        SinceMembers(ByDevice(table), n, device, lo, Event(table[k].t, ByDevice(table)[k].val));
      }
    }
  }

  lemma {:induction false} AmountsOnTable(table: seq<Payment>, n: nat, card: string)
    requires n <= |table|
    ensures Amounts(History(ByCard(table), n, card)) == AmountsOf(table, n, card)
  {
    if n > 0 {
      AmountsOnTable(table, n - 1, card);
      var h := History(ByCard(table), n - 1, card);
      if table[n - 1].card == card {
        var x := Event(table[n - 1].t, ByCard(table)[n - 1].val);
        assert (h + [x])[..|h|] == h;
      }
    }
  }

  lemma {:induction false} CardIsMeasure(deviation: seq<real> -> real, table: seq<Payment>, i: nat)
    requires i < |table|
    ensures Features(deviation, table, i).card == Measure(History(ByCard(table), i, table[i].card), table[i].t)
  {
  }

  lemma {:induction false} MeasuredCounts(table: seq<Payment>, n: nat, c: string, t: int)
    requires n <= |table|
    ensures var f := Measure(History(ByCard(table), n, c), t);
            && f.count5m == |PaymentsSince(table, n, c, t - 300)|
            && f.count1h == |PaymentsSince(table, n, c, t - 3600)|
            && f.count6h == |PaymentsSince(table, n, c, t - 21600)|
            && f.count24h == |PaymentsSince(table, n, c, t - 86400)|
            && f.count7d == |PaymentsSince(table, n, c, t - 604800)|
  {
    MeasureCounts(History(ByCard(table), n, c), t);
    CountOnTable(table, n, c, t - 300);
    CountOnTable(table, n, c, t - 3600);
    CountOnTable(table, n, c, t - 21600);
    CountOnTable(table, n, c, t - 86400);
    CountOnTable(table, n, c, t - 604800);
  }

  // Each count of a row is that of the rows before it with its card, stamped no more than the window earlier.
  lemma {:induction false} CountsOnTable(deviation: seq<real> -> real, table: seq<Payment>, i: nat)
    requires i < |table|
    ensures var f, c, t := Features(deviation, table, i).card, table[i].card, table[i].t;
            && f.count5m == |PaymentsSince(table, i, c, t - 300)|
            && f.count1h == |PaymentsSince(table, i, c, t - 3600)|
            && f.count6h == |PaymentsSince(table, i, c, t - 21600)|
            && f.count24h == |PaymentsSince(table, i, c, t - 86400)|
            && f.count7d == |PaymentsSince(table, i, c, t - 604800)|
  {
    var c, t := table[i].card, table[i].t;
    CardIsMeasure(deviation, table, i);
    MeasuredCounts(table, i, c, t);
  }

  // And so is each sum, and the number of distinct devices of a day.
  lemma {:induction false} SumsOnTable(deviation: seq<real> -> real, table: seq<Payment>, i: nat)
    requires i < |table|
    ensures var f, c, t := Features(deviation, table, i).card, table[i].card, table[i].t;
            && f.sum1h == AmountSince(table, i, c, t - 3600)
            && f.sum24h == AmountSince(table, i, c, t - 86400)
            && f.sum7d == AmountSince(table, i, c, t - 604800)
            && f.devices24h == |DevicesSince(table, i, c, t - 86400)|
  {
    var c, t := table[i].card, table[i].t;
    MeasureSums(History(ByCard(table), i, c), t);
    MeasureDevices(History(ByCard(table), i, c), t);
    SumOnTable(table, i, c, t - 3600);
    SumOnTable(table, i, c, t - 86400);
    SumOnTable(table, i, c, t - 604800);
    DevicesOnTable(table, i, c, t - 86400);
  }

  // whether the card was seen, and how long ago last
  lemma {:induction false} RecencyOnTable(deviation: seq<real> -> real, table: seq<Payment>, i: nat)
    requires i < |table|
    ensures var f, c := Features(deviation, table, i).card, table[i].card;
            && (f.isNew <==> forall k :: 0 <= k < i ==> table[k].card != c)
            && (f.isNew ==> f.sincePrev == -1 && f.ageDays == 0.0)
  {
    HistoryEmpty(ByCard(table), i, table[i].card);
  }

  // the time since the last row of the card
  lemma {:induction false} SincePrevOnTable(deviation: seq<real> -> real, table: seq<Payment>, i: nat, k: nat)
    requires k < i < |table| && table[k].card == table[i].card
    requires forall j :: k < j < i ==> table[j].card != table[i].card
    ensures Features(deviation, table, i).card.sincePrev
            == if table[i].t >= table[k].t then table[i].t - table[k].t else 0
  {
    HistoryLast(ByCard(table), i, table[i].card, k);
  }

  // the days since its first one
  lemma {:induction false} AgeOnTable(deviation: seq<real> -> real, table: seq<Payment>, i: nat, k: nat)
    requires k < i < |table| && table[k].card == table[i].card
    requires forall j :: 0 <= j < k ==> table[j].card != table[i].card
    ensures Features(deviation, table, i).card.ageDays * 86400.0
            == if table[i].t >= table[k].t then (table[i].t - table[k].t) as real else 0.0
  {
    HistoryFirst(ByCard(table), i, table[i].card, k);
  }

  // the device columns
  lemma {:induction false} DeviceOnTable(deviation: seq<real> -> real, table: seq<Payment>, i: nat)
    requires i < |table|
    ensures var f, p := Features(deviation, table, i), table[i];
            var known := p.device != "missing" && p.device != "nan";
            && (f.newDevice <==> !known || forall k :: 0 <= k < i ==> table[k].device != p.device)
            && f.cardsOnDevice24h == (if known then |CardsSince(table, i, p.device, p.t - 86400)| else 0)
  {
    var p := table[i];
    if Known(p.device) {
      HistoryEmpty(ByDevice(table), i, p.device);
      CardsOnTable(table, i, p.device, p.t - 86400);
    }
  }

  // the amounts that the score is taken against
  lemma {:induction false} ScoreOnTable(deviation: seq<real> -> real, table: seq<Payment>, i: nat)
    requires i < |table|
    ensures Features(deviation, table, i).zscore
            == Score(deviation, AmountsOf(table, i, table[i].card), table[i].amount)
  {
    AmountsOnTable(table, i, table[i].card);
  }
}
