// Expected calibration error: the digitize-and-clip form and the two interval-mask forms.
// Sources: ml-service/calibration/calibrator.py, ml-service/evaluation/shadow_evaluator.py,
// ml-service/graphsage/evaluate.py

module Calibration {
  import opened Common

  datatype Sample = Sample(truth: int, prob: real)

  ghost predicate Probabilities(s: seq<Sample>) {
    forall x :: x in s ==> 0.0 <= x.prob <= 1.0
  }

  ghost predicate BinaryLabels(s: seq<Sample>) {
    forall x :: x in s ==> x.truth == 0 || x.truth == 1
  }

  function Clipped(s: seq<Sample>): (r: seq<Sample>)
    ensures |r| == |s| && forall i :: 0 <= i < |s| ==> r[i] == s[i].(prob := Clip(s[i].prob, 0.0, 1.0))
  {
    seq(|s|, i requires 0 <= i < |s| => s[i].(prob := Clip(s[i].prob, 0.0, 1.0)))
  }

  // ---------------------------------------------------------------------------
  // Bins
  // ---------------------------------------------------------------------------

  // the j-th of the bins + 1 equally spaced boundaries
  function Boundary(j: nat, bins: pos): real
  {
    j as real / bins as real
  }

  // how many of the first k boundaries are at most p: numpy's digitize once k is bins + 1
  function Digitize(p: real, bins: pos, k: nat): nat
  {
    if k == 0 then 0 else Digitize(p, bins, k - 1) + (if Boundary(k - 1, bins) <= p then 1 else 0)
  }

  function BinOf(p: real, bins: pos): (i: int)
    ensures 0 <= i < bins
  {
    var i := Digitize(p, bins, bins + 1) - 1;
    if i < 0 then 0 else if i > bins - 1 then bins - 1 else i
  }

  predicate InInterval(p: real, i: nat, bins: pos)
    requires i < bins
  {
    Boundary(i, bins) <= p && (if i < bins - 1 then p < Boundary(i + 1, bins) else p <= Boundary(i + 1, bins))
  }

  // where the digitize form puts a sample
  function Home(bins: pos): Sample -> int
  {
    (x: Sample) => BinOf(x.prob, bins)
  }

  // the samples that an assignment of samples to bins puts into bin b
  function Bin(s: seq<Sample>, b: int, home: Sample -> int): seq<Sample> {
    if s == [] then []
    else
      var n := |s| - 1;
      if home(s[n]) == b then Bin(s[..n], b, home) + [s[n]] else Bin(s[..n], b, home)
  }

  function IntervalBin(s: seq<Sample>, b: nat, bins: pos): seq<Sample>
    requires b < bins
  {
    if s == [] then []
    else
      var n := |s| - 1;
      if InInterval(s[n].prob, b, bins) then IntervalBin(s[..n], b, bins) + [s[n]] else IntervalBin(s[..n], b, bins)
  }

  // ---------------------------------------------------------------------------
  // The error
  // ---------------------------------------------------------------------------

  function Truths(s: seq<Sample>): real {
    if s == [] then 0.0 else Truths(s[..|s| - 1]) + s[|s| - 1].truth as real
  }

  function Probs(s: seq<Sample>): real {
    if s == [] then 0.0 else Probs(s[..|s| - 1]) + s[|s| - 1].prob
  }

  function Mean(total: real, n: nat): real
    requires n > 0
  {
    total / n as real
  }

  // |mean label - mean probability| of a non-empty set of samples
  function BinError(s: seq<Sample>): real
    requires s != []
  {
    Abs(Mean(Truths(s), |s|) - Mean(Probs(s), |s|))
  }

  function Signed(s: seq<Sample>): real {
    Truths(s) - Probs(s)
  }

  function Gap(s: seq<Sample>): real {
    Abs(Signed(s))
  }

  function GapSum(s: seq<Sample>, home: Sample -> int, k: nat): real
  {
    if k == 0 then 0.0 else GapSum(s, home, k - 1) + Gap(Bin(s, k - 1, home))
  }

  function IntervalGapSum(s: seq<Sample>, bins: pos, k: nat): real
    requires k <= bins
  {
    if k == 0 then 0.0 else IntervalGapSum(s, bins, k - 1) + Gap(IntervalBin(s, k - 1, bins))
  }

  lemma {:induction false} DifferenceOverSize(x: real, y: real, m: real)
    requires m > 0.0
    ensures Abs(x / m - y / m) == Abs(x - y) / m
  {
    assert x / m - y / m == (x - y) / m;
    QuotientBelow(x - y, m, 0.0);
    assert -((x - y) / m) == (-(x - y)) / m;
  }

  lemma {:induction false} BinErrorIsQuotient(s: seq<Sample>)
    requires s != []
    ensures BinError(s) == Mean(Gap(s), |s|)
  {
    DifferenceOverSize(Truths(s), Probs(s), |s| as real);
  }

  lemma {:induction false} WeightedShare(m: real, n: real, gap: real)
    requires m > 0.0 && n > 0.0
    ensures (m / n) * (gap / m) == gap / n
  {
    assert (m / n) * (gap / m) == ((gap / m) * m) / n;
  }

  lemma {:induction false} MeanAdds(a: real, b: real, n: nat)
    requires n > 0
    ensures Mean(a, n) + Mean(b, n) == Mean(a + b, n)
  {
  }

  // one bin's term of the sum, in the two orders in which it is multiplied out
  method BinShare(bin: seq<Sample>, n: nat) returns (share: real)
    requires bin != [] && n > 0
    ensures share == Mean(Gap(bin), n)
  {
    BinErrorIsQuotient(bin);
    WeightedShare(|bin| as real, n as real, Gap(bin));
    share := (|bin| as real / n as real) * BinError(bin);
  }

  method BinShareByProportion(bin: seq<Sample>, n: nat) returns (share: real)
    requires n > 0
    ensures share == Mean(Gap(bin), n)
  {
    var propInBin := |bin| as real / n as real;
    QuotientBelow(|bin| as real, n as real, 0.0);
    if propInBin > 0.0 {
      BinErrorIsQuotient(bin);
      WeightedShare(|bin| as real, n as real, Gap(bin));
      share := BinError(bin) * propInBin;
    } else {
      share := 0.0;
    }
  }

  // one bin as reported, every number rounded
  datatype BinRecord = BinRecord(idx: nat, lo: real, hi: real, size: nat, meanProb: real, frequency: real, error: real)

  // an empty bin reports its midpoint
  function RecordOf(bin: seq<Sample>, b: nat, bins: pos): BinRecord
  {
    var lo, hi := Boundary(b, bins), Boundary(b + 1, bins);
    if bin == [] then BinRecord(b, Round2(lo), Round2(hi), 0, Round4((lo + hi) / 2.0), Round4(0.0), Round4(0.0))
    else BinRecord(b, Round2(lo), Round2(hi), |bin|, Round4(Mean(Probs(bin), |bin|)), Round4(Mean(Truths(bin), |bin|)),
                   Round4(BinError(bin)))
  }

  function Records(s: seq<Sample>, home: Sample -> int, bins: pos, k: nat): seq<BinRecord>
  {
    if k == 0 then [] else Records(s, home, bins, k - 1) + [RecordOf(Bin(s, k - 1, home), k - 1, bins)]
  }

  // the error after the first k bins
  function PartialEce(s: seq<Sample>, home: Sample -> int, k: nat): real {
    if s == [] then 0.0 else Mean(GapSum(s, home, k), |s|)
  }

  method ComputeExpectedCalibrationError(samples: seq<Sample>, bins: pos) returns (ece: real, records: seq<BinRecord>)
    ensures samples == [] ==> ece == 0.0
    ensures samples != [] ==> ece == Mean(GapSum(Clipped(samples), Home(bins), bins), |samples|)
    ensures records == Records(Clipped(samples), Home(bins), bins, bins)
  {
    var s := Clipped(samples);
    ece, records := 0.0, [];
    PartialStart(s, Home(bins));
    for b := 0 to bins
      invariant ece == PartialEce(s, Home(bins), b)
      invariant records == Records(s, Home(bins), bins, b)
    {
      var mask := SelectBin(s, b, bins);
      ece := AddBin(ece, s, mask, b, bins);
      var record := MakeRecord(mask, b, bins);
      records := records + [record];
    }
  }

  lemma {:induction false} PartialStart(s: seq<Sample>, home: Sample -> int)
    ensures PartialEce(s, home, 0) == 0.0
  {
  }

  // the part of the loop body that adds a bin's share
  method AddBin(ece: real, s: seq<Sample>, mask: seq<Sample>, b: nat, bins: pos) returns (ece': real)
    requires mask == Bin(s, b, Home(bins)) && ece == PartialEce(s, Home(bins), b)
    ensures ece' == PartialEce(s, Home(bins), b + 1)
  {
    BinShorter(s, b, Home(bins));
    ece' := ece;
    if |mask| > 0 {
      var share := BinShare(mask, |s|);
      MeanAdds(GapSum(s, Home(bins), b), Gap(mask), |s|);
      ece' := ece + share;
    }
  }

  // the part of the loop body that reports a bin
  method MakeRecord(mask: seq<Sample>, b: nat, bins: pos) returns (r: BinRecord)
    ensures r == RecordOf(mask, b, bins)
  {
    var lo, hi := Boundary(b, bins), Boundary(b + 1, bins);
    var meanConf, actualAcc, absErr := (lo + hi) / 2.0, 0.0, 0.0;
    if |mask| > 0 {
      meanConf, actualAcc := Mean(Probs(mask), |mask|), Mean(Truths(mask), |mask|);
      absErr := Abs(actualAcc - meanConf);
    }
    r := BinRecord(b, Round2(lo), Round2(hi), |mask|, Round4(meanConf), Round4(actualAcc), Round4(absErr));
  }

  // the boolean mask of one bin, applied
  method SelectBin(s: seq<Sample>, b: nat, bins: pos) returns (r: seq<Sample>)
    ensures r == Bin(s, b, Home(bins))
  {
    r := [];
    for i := 0 to |s|
      invariant r == Bin(s[..i], b, Home(bins))
    {
      assert s[..i + 1][..i] == s[..i];
      if BinOf(s[i].prob, bins) == b {
        r := r + [s[i]];
      }
    }
    assert s[..|s|] == s;
  }

  method SelectInterval(s: seq<Sample>, b: nat, bins: pos) returns (r: seq<Sample>)
    requires b < bins
    ensures r == IntervalBin(s, b, bins)
  {
    r := [];
    for i := 0 to |s|
      invariant r == IntervalBin(s[..i], b, bins)
    {
      assert s[..i + 1][..i] == s[..i];
      if InInterval(s[i].prob, b, bins) {
        r := r + [s[i]];
      }
    }
    assert s[..|s|] == s;
  }

  lemma {:induction false} BinShorter(s: seq<Sample>, b: nat, home: Sample -> int)
    ensures |Bin(s, b, home)| <= |s|
  {
    if s != [] {
      BinShorter(s[..|s| - 1], b, home);
    }
  }

  // ---------------------------------------------------------------------------
  // What the methods return
  // ---------------------------------------------------------------------------

  function CalibratorEce(s: seq<Sample>, bins: pos): real
  {
    if s == [] then 0.0 else Mean(GapSum(Clipped(s), Home(bins), bins), |s|)
  }

  // the shadow evaluator takes the absence of samples for the worst case
  function ShadowEce(s: seq<Sample>, bins: pos): real
  {
    if s == [] then 1.0 else Round4(Mean(IntervalGapSum(s, bins, bins), |s|))
  }

  // the graph evaluator's Brier score fails on an empty sample
  function GraphEce(s: seq<Sample>, bins: pos): Option<real>
  {
    if s == [] then None else Some(Round4(Mean(IntervalGapSum(s, bins, bins), |s|)))
  }

  function LargestRecord(r: seq<BinRecord>): real {
    if r == [] then 0.0
    else if r[|r| - 1].size > 0 then Max(LargestRecord(r[..|r| - 1]), r[|r| - 1].error)
    else LargestRecord(r[..|r| - 1])
  }

  // the largest recorded error of a non-empty bin; the records are already rounded
  function ReportedMaximum(s: seq<Sample>, bins: pos): real
  {
    LargestRecord(Records(Clipped(s), Home(bins), bins, bins))
  }

  method ComputeCalibrationMetrics(samples: seq<Sample>, bins: pos) returns (ece: real, mce: real)
    ensures ece == CalibratorEce(samples, bins) && mce == ReportedMaximum(samples, bins)
  {
    var records;
    ece, records := ComputeExpectedCalibrationError(samples, bins);
    mce := 0.0;
    for i := 0 to |records|
      invariant mce == LargestRecord(records[..i])
    {
      assert records[..i + 1][..i] == records[..i];
      if records[i].size > 0 && records[i].error > mce {
        mce := records[i].error;
      }
    }
    assert records[..|records|] == records;
  }

  // the shadow evaluator's form
  method ComputeEce(s: seq<Sample>, bins: pos) returns (ece: real)
    ensures ece == ShadowEce(s, bins)
  {
    if |s| == 0 {
      return 1.0;
    }
    ece := 0.0;
    for i := 0 to bins
      invariant ece == Mean(IntervalGapSum(s, bins, i), |s|)
    {
      var inBin := SelectInterval(s, i, bins);
      if |inBin| > 0 {
        var share := BinShare(inBin, |s|);
        MeanAdds(IntervalGapSum(s, bins, i), Gap(inBin), |s|);
        ece := ece + share;
      }
    }
    ece := Round4(ece);
  }

  // the graph evaluator's form
  method ComputeGraphEce(s: seq<Sample>, bins: pos) returns (ece: Option<real>)
    ensures ece == GraphEce(s, bins)
  {
    if |s| == 0 {
      return None;
    }
    var sum := 0.0;
    for i := 0 to bins
      invariant sum == Mean(IntervalGapSum(s, bins, i), |s|)
    {
      var inBin := SelectInterval(s, i, bins);
      var share := BinShareByProportion(inBin, |s|);
      MeanAdds(IntervalGapSum(s, bins, i), Gap(inBin), |s|);
      sum := sum + share;
    }
    ece := Some(Round4(sum));
  }

  // ---------------------------------------------------------------------------
  // The three forms agree
  // ---------------------------------------------------------------------------

  lemma {:induction false} BoundaryOrder(i: nat, j: nat, bins: pos)
    ensures i < j <==> Boundary(i, bins) < Boundary(j, bins)
  {
    var n := bins as real;
    QuotientTimes(i as real, n);
    QuotientBelow(i as real, n, Boundary(j, bins));
    QuotientTimes(j as real, n);
  }

  // counting boundaries: those up to position m are the ones at most p
  lemma {:induction false} DigitizeCounts(p: real, bins: pos, k: nat, m: nat)
    requires forall j: nat :: j < k ==> (Boundary(j, bins) <= p <==> j < m)
    ensures Digitize(p, bins, k) == if k <= m then k else m
  {
    if k > 0 {
      DigitizeCounts(p, bins, k - 1, m);
    }
  }

  lemma {:induction false} IntervalFixesBin(p: real, i: nat, bins: pos)
    requires 0.0 <= p <= 1.0 && i < bins && InInterval(p, i, bins)
    ensures BinOf(p, bins) == i
  {
    var m := if p < 1.0 || i < bins - 1 then i + 1 else bins + 1;
    assert Boundary(bins, bins) == 1.0;
    forall j: nat | j < bins + 1 ensures Boundary(j, bins) <= p <==> j < m {
      BoundaryOrder(i, j, bins);
      BoundaryOrder(i + 1, j, bins);
      BoundaryOrder(j, i + 1, bins);
    }
    DigitizeCounts(p, bins, bins + 1, m);
  }

  lemma {:induction false} SomeInterval(p: real, bins: pos, k: nat) returns (i: nat)
    requires 0.0 <= p <= 1.0 && 0 < k <= bins && p <= Boundary(k, bins) && (k < bins ==> p < Boundary(k, bins))
    ensures i < bins && InInterval(p, i, bins)
    decreases k
  {
    if Boundary(k - 1, bins) <= p {
      i := k - 1;
    } else {
      assert k > 1 by {
        assert Boundary(0, bins) == 0.0;
      }
      i := SomeInterval(p, bins, k - 1);
    }
  }

  lemma {:induction false} BinIsInterval(p: real, b: nat, bins: pos)
    requires 0.0 <= p <= 1.0 && b < bins
    ensures BinOf(p, bins) == b <==> InInterval(p, b, bins)
  {
    assert Boundary(bins, bins) == 1.0;
    var i := SomeInterval(p, bins, bins);
    IntervalFixesBin(p, i, bins);
    if InInterval(p, b, bins) {
      IntervalFixesBin(p, b, bins);
    }
  }

  lemma {:induction false} ScaledBoundary(p: real, j: nat, bins: pos)
    ensures Boundary(j, bins) <= p <==> j as real <= p * bins as real
  {
    QuotientTimes(j as real, bins as real);
    QuotientBelow(j as real, bins as real, p);
  }

  // the digitized bin in one formula
  lemma {:induction false} BinIsFloor(p: real, bins: pos)
    requires 0.0 <= p <= 1.0
    ensures BinOf(p, bins) == if p == 1.0 then bins - 1 else (p * bins as real).Floor
  {
    var b := BinOf(p, bins);
    BinIsInterval(p, b, bins);
    ScaledBoundary(p, b, bins);
    ScaledBoundary(p, b + 1, bins);
    ScaledBoundary(p, bins, bins);
    assert Boundary(bins, bins) == 1.0;
  }

  lemma {:induction false} SameBins(s: seq<Sample>, b: nat, bins: pos)
    requires Probabilities(s) && b < bins
    ensures Bin(s, b, Home(bins)) == IntervalBin(s, b, bins)
  {
    if s != [] {
      var n := |s| - 1;
      assert s[n] in s;
      SameBins(s[..n], b, bins);
      BinIsInterval(s[n].prob, b, bins);
    }
  }

  lemma {:induction false} SameGapSum(s: seq<Sample>, bins: pos, k: nat)
    requires Probabilities(s) && k <= bins
    ensures GapSum(s, Home(bins), k) == IntervalGapSum(s, bins, k)
  {
    if k > 0 {
      SameGapSum(s, bins, k - 1);
      SameBins(s, k - 1, bins);
    }
  }

  // On probabilities the two interval-mask forms return the calibrator's value rounded to four decimals, so
  // all agree exactly when there is a sample and rounding changes nothing. Of nothing, the calibrator reports
  // a perfect 0, the shadow evaluator the worst value 1, and the graph evaluator fails.
  lemma {:induction false} FormsAgreeIff(s: seq<Sample>, bins: pos)
    requires Probabilities(s)
    ensures s != [] ==> ShadowEce(s, bins) == Round4(CalibratorEce(s, bins))
    ensures GraphEce(s, bins) == Some(ShadowEce(s, bins)) <==> s != []
    ensures s == [] ==> CalibratorEce(s, bins) == 0.0 && ShadowEce(s, bins) == 1.0 && GraphEce(s, bins) == None
    ensures CalibratorEce(s, bins) == ShadowEce(s, bins) <==>
            s != [] && Round4(CalibratorEce(s, bins)) == CalibratorEce(s, bins)
  {
    ClippedProbabilities(s);
    SameGapSum(s, bins, bins);
  }

  // ---------------------------------------------------------------------------
  // What the error and the records are
  // ---------------------------------------------------------------------------

  // a bin holds every sample of its own as often as the input does, and no other
  lemma {:induction false} BinCounts(s: seq<Sample>, b: int, home: Sample -> int, x: Sample)
    ensures multiset(Bin(s, b, home))[x] == if home(x) == b then multiset(s)[x] else 0
  {
    if s != [] {
      var n := |s| - 1;
      assert s == s[..n] + [s[n]];
      BinCounts(s[..n], b, home, x);
    }
  }

  lemma {:induction false} SumsConcat(a: seq<Sample>, b: seq<Sample>)
    ensures Truths(a + b) == Truths(a) + Truths(b) && Probs(a + b) == Probs(a) + Probs(b)
    ensures |b| == 1 ==> Truths(b) == b[0].truth as real && Probs(b) == b[0].prob
  {
    if b == [] {
      assert a + b == a;
    } else {
      var n := |b| - 1;
      assert (a + b)[..|a| + n] == a + b[..n];
      SumsConcat(a, b[..n]);
    }
  }

  // The record of a bin: its range of width 1 / bins, its size, and for a non-empty bin the rounded mean
  // probability, mean label and distance of the two.
  lemma {:induction false} RecordExact(bin: seq<Sample>, b: nat, bins: pos) returns (prob: real, truth: real)
    requires bin != []
    ensures prob * |bin| as real == Probs(bin) && truth * |bin| as real == Truths(bin)
    ensures RecordOf(bin, b, bins)
         == BinRecord(b, Round2(b as real / bins as real), Round2((b + 1) as real / bins as real), |bin|,
              Round4(prob), Round4(truth), Round4(Abs(truth - prob)))
  {
    prob, truth := Mean(Probs(bin), |bin|), Mean(Truths(bin), |bin|);
    QuotientTimes(Probs(bin), |bin| as real);
    QuotientTimes(Truths(bin), |bin| as real);
  }

  lemma {:induction false} Midpoint(x: real, n: real)
    requires n != 0.0
    ensures (x / n + (x + 1.0) / n) / 2.0 == (x + 0.5) / n
  {
    assert x / n + (x + 1.0) / n == (x + (x + 1.0)) / n;
  }

  // an empty bin reports the middle of its range
  lemma {:induction false} EmptyRecordExact(b: nat, bins: pos)
    ensures RecordOf([], b, bins)
         == BinRecord(b, Round2(b as real / bins as real), Round2((b + 1) as real / bins as real), 0,
              Round4((b as real + 0.5) / bins as real), 0.0, 0.0)
  {
    Midpoint(b as real, bins as real);
  }

  // all the error there is, the ECE without the division
  function Mass(s: seq<Sample>, bins: pos): real {
    CalibratorEce(s, bins) * |s| as real
  }

  lemma {:induction false} MassIsGapSum(s: seq<Sample>, bins: pos)
    requires Probabilities(s)
    ensures Mass(s, bins) == GapSum(s, Home(bins), bins)
  {
    ClippedProbabilities(s);
    if s == [] {
      NoSamplesNoGaps(Home(bins), bins);
    } else {
      QuotientTimes(GapSum(s, Home(bins), bins), |s| as real);
    }
  }

  lemma {:induction false} NoSamplesNoGaps(home: Sample -> int, k: nat)
    ensures GapSum([], home, k) == 0.0
  {
    if k > 0 {
      NoSamplesNoGaps(home, k - 1);
    }
  }

  lemma {:induction false} GapSumSplits(s: seq<Sample>, keep: set<nat>, rest: set<nat>, bins: pos, k: nat)
    requires k <= bins && keep !! rest && forall b: nat :: b < bins ==> b in keep || b in rest
    ensures GapSum(s, Home(bins), k)
         == GapSum(Kept(s, keep, bins), Home(bins), k) + GapSum(Kept(s, rest, bins), Home(bins), k)
  {
    if k > 0 {
      GapSumSplits(s, keep, rest, bins, k - 1);
      KeptBins(s, keep, bins, k - 1);
      KeptBins(s, rest, bins, k - 1);
      assert k - 1 in keep || k - 1 in rest;
    }
  }

  lemma {:induction false} GapSumOfOneBin(t: seq<Sample>, home: Sample -> int, b: nat, k: nat)
    requires forall x :: x in t ==> home(x) == b
    ensures GapSum(t, home, k) == if b < k then Gap(t) else 0.0
  {
    if k > 0 {
      GapSumOfOneBin(t, home, b, k - 1);
      OneBin(t, home, b, k - 1);
    }
  }

  lemma {:induction false} OneBin(t: seq<Sample>, home: Sample -> int, b: nat, c: nat)
    requires forall x :: x in t ==> home(x) == b
    ensures Bin(t, c, home) == if c == b then t else []
  {
    if t != [] {
      var n := |t| - 1;
      assert t[n] in t;
      OneBin(t[..n], home, b, c);
    }
  }

  // The ECE adds up over the bins: split the bins in two, and the error mass of all samples is that of the
  // samples in the one part and of those in the other.
  lemma {:induction false} EceAdds(s: seq<Sample>, keep: set<nat>, rest: set<nat>, bins: pos)
    requires Probabilities(s) && keep !! rest && forall b: nat :: b < bins ==> b in keep || b in rest
    ensures Mass(s, bins) == Mass(Kept(s, keep, bins), bins) + Mass(Kept(s, rest, bins), bins)
  {
    KeptBins(s, keep, bins, 0);
    KeptBins(s, rest, bins, 0);
    MassIsGapSum(s, bins);
    MassIsGapSum(Kept(s, keep, bins), bins);
    MassIsGapSum(Kept(s, rest, bins), bins);
    GapSumSplits(s, keep, rest, bins, bins);
  }

  // Of samples in one bin, it is the distance of the summed labels from the summed probabilities.
  lemma {:induction false} EceOfOneBin(t: seq<Sample>, b: nat, bins: pos)
    requires Probabilities(t) && b < bins && forall x :: x in t ==> InInterval(x.prob, b, bins)
    ensures Mass(t, bins) == Abs(Truths(t) - Probs(t))
  {
    forall x | x in t ensures Home(bins)(x) == b {
      BinIsInterval(x.prob, b, bins);
    }
    MassIsGapSum(t, bins);
    GapSumOfOneBin(t, Home(bins), b, bins);
  }

  // ---------------------------------------------------------------------------
  // Bounds
  // ---------------------------------------------------------------------------

  function SizeSum(s: seq<Sample>, home: Sample -> int, k: nat): nat
  {
    if k == 0 then 0 else SizeSum(s, home, k - 1) + |Bin(s, k - 1, home)|
  }

  function SignedSum(s: seq<Sample>, home: Sample -> int, k: nat): real
  {
    if k == 0 then 0.0
    else SignedSum(s, home, k - 1) + Signed(Bin(s, k - 1, home))
  }

  lemma {:induction false} SignedSnoc(s: seq<Sample>, x: Sample)
    ensures Signed(s + [x]) == Signed(s) + (x.truth as real - x.prob)
  {
    assert (s + [x])[..|s|] == s;
  }

  // the samples in the first k bins
  function Below(s: seq<Sample>, k: int, home: Sample -> int): seq<Sample> {
    if s == [] then []
    else
      var n := |s| - 1;
      if home(s[n]) < k then Below(s[..n], k, home) + [s[n]] else Below(s[..n], k, home)
  }

  lemma {:induction false} OneMoreBin(s: seq<Sample>, home: Sample -> int, k: nat)
    ensures |Below(s, k + 1, home)| == |Below(s, k, home)| + |Bin(s, k, home)|
    ensures Signed(Below(s, k + 1, home)) == Signed(Below(s, k, home)) + Signed(Bin(s, k, home))
  {
    if s != [] {
      var n := |s| - 1;
      OneMoreBin(s[..n], home, k);
      SignedSnoc(Below(s[..n], k + 1, home), s[n]);
      SignedSnoc(Below(s[..n], k, home), s[n]);
      SignedSnoc(Bin(s[..n], k, home), s[n]);
    }
  }

  ghost predicate InRange(s: seq<Sample>, home: Sample -> int, bins: pos) {
    forall x :: x in s ==> 0 <= home(x) < bins
  }

  lemma {:induction false} BelowEnds(s: seq<Sample>, home: Sample -> int, bins: pos)
    requires InRange(s, home, bins)
    ensures Below(s, 0, home) == [] && Below(s, bins, home) == s
  {
    if s != [] {
      var n := |s| - 1;
      assert s[n] in s;
      BelowEnds(s[..n], home, bins);
    }
  }

  lemma {:induction false} SumsAreBelow(s: seq<Sample>, home: Sample -> int, bins: pos, k: nat)
    requires InRange(s, home, bins)
    ensures SizeSum(s, home, k) == |Below(s, k, home)| && SignedSum(s, home, k) == Signed(Below(s, k, home))
  {
    if k == 0 {
      BelowEnds(s, home, bins);
    } else {
      SumsAreBelow(s, home, bins, k - 1);
      OneMoreBin(s, home, k - 1);
    }
  }

  // the bins partition the samples
  lemma {:induction false} BinsPartition(s: seq<Sample>, home: Sample -> int, bins: pos)
    requires InRange(s, home, bins)
    ensures SizeSum(s, home, bins) == |s|
    ensures SignedSum(s, home, bins) == Signed(s)
  {
    SumsAreBelow(s, home, bins, bins);
    BelowEnds(s, home, bins);
  }

  lemma {:induction false} Triangle(s: seq<Sample>, home: Sample -> int, k: nat)
    ensures Abs(SignedSum(s, home, k)) <= GapSum(s, home, k)
  {
    if k > 0 {
      Triangle(s, home, k - 1);
    }
  }

  // every non-empty bin errs by at most `worst`
  ghost predicate ErrorsAtMost(s: seq<Sample>, home: Sample -> int, bins: pos, worst: real)
  {
    forall b: nat :: b < bins && Bin(s, b, home) != [] ==> BinError(Bin(s, b, home)) <= worst
  }

  lemma {:induction false} GapWithin(s: seq<Sample>, worst: real)
    requires s != []
    ensures BinError(s) <= worst <==> Gap(s) <= worst * |s| as real
  {
    BinErrorIsQuotient(s);
    QuotientBelow(Gap(s), |s| as real, worst);
  }

  function Allowance(worst: real, size: nat): real {
    worst * size as real
  }

  lemma {:induction false} AllowanceAdds(worst: real, a: nat, b: nat)
    ensures Allowance(worst, a + b) == Allowance(worst, a) + Allowance(worst, b)
  {
  }

  // the same bound on every bin, without the division
  ghost predicate GapsAtMost(s: seq<Sample>, home: Sample -> int, bins: pos, worst: real)
  {
    forall b: nat :: b < bins ==> Gap(Bin(s, b, home)) <= Allowance(worst, |Bin(s, b, home)|)
  }

  lemma {:induction false} GapsFromErrors(s: seq<Sample>, home: Sample -> int, bins: pos, worst: real)
    requires ErrorsAtMost(s, home, bins, worst)
    ensures GapsAtMost(s, home, bins, worst)
  {
    forall b: nat | b < bins ensures Gap(Bin(s, b, home)) <= Allowance(worst, |Bin(s, b, home)|) {
      if Bin(s, b, home) != [] {
        GapWithin(Bin(s, b, home), worst);
      }
    }
  }

  lemma {:induction false} GapSumAtMost(s: seq<Sample>, home: Sample -> int, bins: pos, k: nat, worst: real)
    requires k <= bins && GapsAtMost(s, home, bins, worst)
    ensures GapSum(s, home, k) <= Allowance(worst, SizeSum(s, home, k))
  {
    if k == 0 {
      assert Allowance(worst, 0) == 0.0;
    } else {
      GapSumAtMost(s, home, bins, k - 1, worst);
      var b := Bin(s, k - 1, home);
      assert GapSum(s, home, k) == GapSum(s, home, k - 1) + Gap(b);
      assert Gap(b) <= Allowance(worst, |b|);
      AllowanceAdds(worst, SizeSum(s, home, k - 1), |b|);
    }
  }

  lemma {:induction false} GapAtMostGapSum(s: seq<Sample>, home: Sample -> int, bins: pos)
    requires InRange(s, home, bins)
    ensures Gap(s) <= GapSum(s, home, bins)
  {
    BinsPartition(s, home, bins);
    Triangle(s, home, bins);
  }

  lemma {:induction false} GapAtMostSize(s: seq<Sample>)
    requires Probabilities(s) && BinaryLabels(s)
    ensures Gap(s) <= |s| as real
    ensures 0.0 <= Truths(s) <= |s| as real && 0.0 <= Probs(s) <= |s| as real
  {
    if s != [] {
      var n := |s| - 1;
      assert s[n] in s;
      GapAtMostSize(s[..n]);
    }
  }

  lemma {:induction false} BinMembers(s: seq<Sample>, b: nat, home: Sample -> int)
    ensures forall x :: x in Bin(s, b, home) ==> x in s
  {
    if s != [] {
      BinMembers(s[..|s| - 1], b, home);
    }
  }

  lemma {:induction false} ClippedProbabilities(s: seq<Sample>)
    requires Probabilities(s)
    ensures Clipped(s) == s
  {
    forall i | 0 <= i < |s| ensures Clipped(s)[i] == s[i] {
      assert s[i] in s;
    }
  }

  lemma {:induction false} MeanBetween(a: real, b: real, worst: real, n: nat)
    requires n > 0 && a <= b <= Allowance(worst, n)
    ensures Mean(a, n) <= Mean(b, n) <= worst
  {
    QuotientBelow(b, n as real, worst);
    QuotientBelow(b, n as real, Mean(a, n));
    QuotientTimes(a, n as real);
  }

  lemma {:induction false} EceAtMost(s: seq<Sample>, home: Sample -> int, bins: pos, worst: real)
    requires s != [] && InRange(s, home, bins) && GapsAtMost(s, home, bins, worst)
    ensures Mean(Gap(s), |s|) <= Mean(GapSum(s, home, bins), |s|) <= worst
  {
    GapAtMostGapSum(s, home, bins);
    BinsPartition(s, home, bins);
    GapSumAtMost(s, home, bins, bins, worst);
    MeanBetween(Gap(s), GapSum(s, home, bins), worst, |s|);
  }

  // Overall miscalibration is at most the ECE, and the ECE is at most any bound on the bin errors.
  lemma {:induction false} EceBounds(s: seq<Sample>, bins: pos, worst: real)
    requires s != [] && Probabilities(s) && ErrorsAtMost(s, Home(bins), bins, worst)
    ensures BinError(s) <= CalibratorEce(s, bins) <= worst
  {
    ClippedProbabilities(s);
    GapsFromErrors(s, Home(bins), bins, worst);
    EceAtMost(s, Home(bins), bins, worst);
    BinErrorIsQuotient(s);
  }

  lemma {:induction false} ErrorAtMostOne(m: seq<Sample>)
    requires m != [] && Probabilities(m) && BinaryLabels(m)
    ensures BinError(m) <= 1.0
  {
    GapAtMostSize(m);
    GapWithin(m, 1.0);
  }

  // with 0/1 labels no bin errs by more than 1, so neither does the ECE
  lemma {:induction false} BinErrorsAtMostOne(s: seq<Sample>, bins: pos)
    requires Probabilities(s) && BinaryLabels(s)
    ensures ErrorsAtMost(s, Home(bins), bins, 1.0)
  {
    forall b: nat | b < bins && Bin(s, b, Home(bins)) != [] ensures BinError(Bin(s, b, Home(bins))) <= 1.0 {
      BinMembers(s, b, Home(bins));
      ErrorAtMostOne(Bin(s, b, Home(bins)));
    }
  }

  // every non-empty bin's rounded error is at most `worst`
  ghost predicate RoundedErrorsAtMost(s: seq<Sample>, home: Sample -> int, k: nat, worst: real) {
    forall b: nat :: b < k && Bin(s, b, home) != [] ==> Round4(BinError(Bin(s, b, home))) <= worst
  }

  ghost predicate RecordsAtMost(r: seq<BinRecord>, worst: real) {
    forall i :: 0 <= i < |r| && r[i].size > 0 ==> r[i].error <= worst
  }

  // the largest record is the least bound on the records of the non-empty bins
  lemma {:induction false} LargestIsBound(r: seq<BinRecord>)
    ensures LargestRecord(r) >= 0.0 && RecordsAtMost(r, LargestRecord(r))
  {
    if r != [] {
      LargestIsBound(r[..|r| - 1]);
    }
  }

  lemma {:induction false} LargestIsLeast(r: seq<BinRecord>, worst: real)
    requires worst >= 0.0 && RecordsAtMost(r, worst)
    ensures LargestRecord(r) <= worst
  {
    if r != [] {
      LargestIsLeast(r[..|r| - 1], worst);
    }
  }

  lemma {:induction false} RecordsAre(s: seq<Sample>, home: Sample -> int, bins: pos, k: nat)
    ensures var r := Records(s, home, bins, k);
            |r| == k && forall b: nat :: b < k ==> r[b] == RecordOf(Bin(s, b, home), b, bins)
  {
    if k > 0 {
      RecordsAre(s, home, bins, k - 1);
    }
  }

  lemma {:induction false} RecordOfBin(bin: seq<Sample>, b: nat, bins: pos)
    ensures bin == [] ==> RecordOf(bin, b, bins).size == 0
    ensures bin != [] ==> RecordOf(bin, b, bins).size > 0 && RecordOf(bin, b, bins).error == Round4(BinError(bin))
  {
  }

  lemma {:induction false} RecordsAtMostIff(s: seq<Sample>, home: Sample -> int, bins: pos, worst: real)
    ensures RecordsAtMost(Records(s, home, bins, bins), worst) <==> RoundedErrorsAtMost(s, home, bins, worst)
  {
    var r := Records(s, home, bins, bins);
    RecordsAre(s, home, bins, bins);
    forall b: nat | b < bins
      ensures (r[b].size > 0 ==> r[b].error <= worst)
              <==> (Bin(s, b, home) != [] ==> Round4(BinError(Bin(s, b, home))) <= worst)
    {
      RecordOfBin(Bin(s, b, home), b, bins);
    }
  }

  lemma {:induction false} MaximumIsBound(s: seq<Sample>, bins: pos)
    requires Probabilities(s)
    ensures ReportedMaximum(s, bins) >= 0.0 && RoundedErrorsAtMost(s, Home(bins), bins, ReportedMaximum(s, bins))
  {
    ClippedProbabilities(s);
    LargestIsBound(Records(s, Home(bins), bins, bins));
    RecordsAtMostIff(s, Home(bins), bins, ReportedMaximum(s, bins));
  }

  // The reported maximum error is taken over rounded bin errors, so the ECE may exceed it, by at most
  // half a unit of the last reported decimal.
  lemma {:induction false} EceAtMostReportedMaximum(s: seq<Sample>, bins: pos)
    requires s != [] && Probabilities(s)
    ensures CalibratorEce(s, bins) <= ReportedMaximum(s, bins) + 0.00005
  {
    ClippedProbabilities(s);
    MaximumIsBound(s, bins);
    forall b: nat | b < bins && Bin(s, b, Home(bins)) != []
      ensures BinError(Bin(s, b, Home(bins))) <= ReportedMaximum(s, bins) + 0.00005
    {
      Round4Near(BinError(Bin(s, b, Home(bins))));
    }
    EceBounds(s, bins, ReportedMaximum(s, bins) + 0.00005);
  }

  // the samples in some of the bins
  function Kept(s: seq<Sample>, keep: set<nat>, bins: pos): seq<Sample> {
    if s == [] then []
    else
      var n := |s| - 1;
      if BinOf(s[n].prob, bins) in keep then Kept(s[..n], keep, bins) + [s[n]] else Kept(s[..n], keep, bins)
  }

  lemma {:induction false} BinSnoc(s: seq<Sample>, x: Sample, b: int, home: Sample -> int)
    ensures Bin(s + [x], b, home) == if home(x) == b then Bin(s, b, home) + [x] else Bin(s, b, home)
  {
    assert (s + [x])[..|s|] == s;
  }

  lemma {:induction false} KeptBins(s: seq<Sample>, keep: set<nat>, bins: pos, b: nat)
    ensures Bin(Kept(s, keep, bins), b, Home(bins)) == if b in keep then Bin(s, b, Home(bins)) else []
    ensures forall x :: x in Kept(s, keep, bins) ==> x in s
  {
    if s != [] {
      var n := |s| - 1;
      KeptBins(s[..n], keep, bins, b);
      BinSnoc(Kept(s[..n], keep, bins), s[n], b, Home(bins));
    }
  }

  lemma {:induction false} OneKeptIsBin(s: seq<Sample>, bins: pos, b: nat)
    ensures Kept(s, {b}, bins) == Bin(s, b, Home(bins))
  {
    if s != [] {
      OneKeptIsBin(s[..|s| - 1], bins, b);
    }
  }

  lemma {:induction false} Round4Monotone(x: real, y: real)
    requires x <= y
    ensures Round4(x) <= Round4(y)
  {
    HalfEvenMonotone(x * 10000.0, y * 10000.0);
  }

  // some bin's error becomes smaller by rounding
  ghost predicate RoundsSomeErrorDown(s: seq<Sample>, bins: pos) {
    exists b: nat :: b < bins && Bin(s, b, Home(bins)) != []
      && Round4(BinError(Bin(s, b, Home(bins)))) < BinError(Bin(s, b, Home(bins)))
  }

  lemma {:induction false} KeptWithinMaximum(s: seq<Sample>, keep: set<nat>, bins: pos)
    requires Probabilities(s) && !RoundsSomeErrorDown(s, bins)
    ensures CalibratorEce(Kept(s, keep, bins), bins) <= ReportedMaximum(Kept(s, keep, bins), bins)
  {
    var t := Kept(s, keep, bins);
    KeptBins(s, keep, bins, 0);
    ClippedProbabilities(t);
    MaximumIsBound(t, bins);
    forall b: nat | b < bins && Bin(t, b, Home(bins)) != []
      ensures BinError(Bin(t, b, Home(bins))) <= ReportedMaximum(t, bins)
    {
      KeptBins(s, keep, bins, b);
    }
    if t != [] {
      EceBounds(t, bins, ReportedMaximum(t, bins));
    }
  }

  lemma {:induction false} SingleBinMaximum(t: seq<Sample>, bins: pos, b: nat)
    requires Probabilities(t) && t != []
    requires forall c: nat :: c < bins && Bin(t, c, Home(bins)) != [] ==> c == b && Bin(t, c, Home(bins)) == t
    ensures ReportedMaximum(t, bins) <= Round4(BinError(t))
  {
    ClippedProbabilities(t);
    Round4Monotone(0.0, BinError(t));
    RecordsAtMostIff(t, Home(bins), bins, Round4(BinError(t)));
    LargestIsLeast(Records(t, Home(bins), bins, bins), Round4(BinError(t)));
  }

  // samples of one bin alone
  lemma {:induction false} BinExceedsMaximum(s: seq<Sample>, bins: pos, b: nat)
    requires Probabilities(s) && b < bins && Bin(s, b, Home(bins)) != []
    requires Round4(BinError(Bin(s, b, Home(bins)))) < BinError(Bin(s, b, Home(bins)))
    ensures CalibratorEce(Kept(s, {b}, bins), bins) > ReportedMaximum(Kept(s, {b}, bins), bins)
  {
    var t := Kept(s, {b}, bins);
    OneKeptIsBin(s, bins, b);
    BinMembers(s, b, Home(bins));
    forall c: nat | c < bins && Bin(t, c, Home(bins)) != [] ensures c == b && Bin(t, c, Home(bins)) == t {
      KeptBins(s, {b}, bins, c);
    }
    SingleBinMaximum(t, bins, b);
    ErrorAtMostEce(t, bins);
  }

  lemma {:induction false} ErrorAtMostEce(t: seq<Sample>, bins: pos)
    requires t != [] && Probabilities(t)
    ensures BinError(t) <= CalibratorEce(t, bins)
  {
    ClippedProbabilities(t);
    GapAtMostGapSum(t, Home(bins), bins);
    BinErrorIsQuotient(t);
    MeanBetween(Gap(t), GapSum(t, Home(bins), bins), Mean(GapSum(t, Home(bins), bins), |t|), |t|);
  }

  // The reported maximum bounds the ECE, of the samples of any choice of bins, exactly when no bin's error
  // is rounded down.
  lemma {:induction false} MaximumBoundsEceIff(s: seq<Sample>, bins: pos)
    requires Probabilities(s)
    ensures (forall keep: set<nat> ::
               CalibratorEce(Kept(s, keep, bins), bins) <= ReportedMaximum(Kept(s, keep, bins), bins))
            <==> !RoundsSomeErrorDown(s, bins)
  {
    if b: nat :|
      b < bins && Bin(s, b, Home(bins)) != []
      && Round4(BinError(Bin(s, b, Home(bins)))) < BinError(Bin(s, b, Home(bins)))
    {
      BinExceedsMaximum(s, bins, b);
    } else {
      forall keep: set<nat>
        ensures CalibratorEce(Kept(s, keep, bins), bins) <= ReportedMaximum(Kept(s, keep, bins), bins)
      {
        KeptWithinMaximum(s, keep, bins);
      }
    }
  }

  // one clean sample scored 0.00004 in a single bin
  lemma {:induction false} EceCanExceedReportedMaximum()
    ensures var s := [Sample(0, 0.00004)];
            CalibratorEce(s, 1) == 0.00004 && ReportedMaximum(s, 1) == 0.0
  {
    var s := [Sample(0, 0.00004)];
    assert s[..0] == [];
    assert Clipped(s) == s;
    assert BinOf(0.00004, 1) == 0;
    assert Bin(s, 0, Home(1)) == s;
    assert Truths(s) == 0.0 && Probs(s) == 0.00004;
    assert GapSum(s, Home(1), 1) == GapSum(s, Home(1), 0) + Gap(Bin(s, 0, Home(1)));
    assert BinError(s) == 0.00004;
    assert Round4(0.00004) == 0.0;
    var r := RecordOf(s, 0, 1);
    assert r.size == 1 && r.error == 0.0;
    assert Records(s, Home(1), 1, 0) == [];
    assert Records(s, Home(1), 1, 1) == [r];
    assert [r][..0] == [];
  }
}
