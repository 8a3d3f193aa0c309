// The four-action expected loss by which models are compared.
// Source: ml-service/evaluation/shadow_evaluator.py

module ExpectedLoss {
  import opened Common

  datatype Config = Config(baseFp: real, maxFp: real, review: real, challenge: real, friction: real, declineRate: real)

  function FpCostFrom(k: Config, amount: real, share: real): real {
    if amount < 250.0 then Max(k.baseFp, Min(k.maxFp, 2.0 * amount)) else Max(k.maxFp, share)
  }

  function FpCost(k: Config, amount: real): real {
    FpCostFrom(k, amount, amount * k.declineRate)
  }

  // one action's cost, linear in the probability: intercept + p * slope
  datatype Line = Line(atZero: real, slope: real)

  function At(l: Line, p: real): real {
    l.atZero + p * l.slope
  }

  function LossAllow(p: real, amount: real): real {
    p * amount
  }

  function LossDecline(p: real, fpCost: real): real {
    (1.0 - p) * fpCost
  }

  function LossReview(k: Config, p: real, amount: real): real {
    k.review + 0.05 * (p * amount)
  }

  function LossChallenge(k: Config, p: real, amount: real): real {
    (1.0 - p) * (k.friction * amount) + k.challenge
  }

  function Least4(a: real, b: real, c: real, d: real): real {
    Min(Min(a, b), Min(c, d))
  }

  function ExpectedLoss(k: Config, prob: real, amount: real): real {
    var p := Clip(prob, 0.0, 1.0);
    Least4(LossAllow(p, amount), LossDecline(p, FpCost(k, amount)),
           LossReview(k, p, amount), LossChallenge(k, p, amount))
  }

  // what an action costs once it is known whether the payment was a fraud: a review lets five percent of the
  // amount through, and a challenge puts friction on good customers only
  datatype Action = Allow | Decline | Review | Challenge

  function Outcome(k: Config, a: Action, fraud: bool, amount: real): real {
    match a
    case Allow => if fraud then amount else 0.0
    case Decline => if fraud then 0.0 else FpCost(k, amount)
    case Review => k.review + (if fraud then amount / 20.0 else 0.0)
    case Challenge => k.challenge + (if fraud then 0.0 else k.friction * amount)
  }

  function MeanLoss(k: Config, a: Action, p: real, amount: real): real {
    p * Outcome(k, a, true, amount) + (1.0 - p) * Outcome(k, a, false, amount)
  }

  lemma {:induction false} MeanOf(p: real, fixed: real, x: real, y: real)
    ensures p * (fixed + x) + (1.0 - p) * (fixed + y) == fixed + p * x + (1.0 - p) * y
  {
    assert p * (fixed + x) == p * fixed + p * x;
    assert (1.0 - p) * (fixed + y) == (1.0 - p) * fixed + (1.0 - p) * y;
    assert (1.0 - p) * fixed == fixed - p * fixed;
  }

  lemma {:induction false} MeansAre(k: Config, p: real, amount: real)
    ensures MeanLoss(k, Allow, p, amount) == LossAllow(p, amount)
    ensures MeanLoss(k, Decline, p, amount) == LossDecline(p, FpCost(k, amount))
    ensures MeanLoss(k, Review, p, amount) == LossReview(k, p, amount)
    ensures MeanLoss(k, Challenge, p, amount) == LossChallenge(k, p, amount)
  {
    MeanOf(p, k.review, amount / 20.0, 0.0);
    MeanOf(p, k.challenge, 0.0, k.friction * amount);
  }

  // The expected loss is the least of the four actions' mean costs: none is below it, and one meets it.
  lemma {:induction false} LossIsLeastMean(k: Config, p: real, amount: real)
    requires 0.0 <= p <= 1.0
    ensures forall a :: ExpectedLoss(k, p, amount) <= MeanLoss(k, a, p, amount)
    ensures exists a :: ExpectedLoss(k, p, amount) == MeanLoss(k, a, p, amount)
  {
    MeansAre(k, p, amount);
    assert Clip(p, 0.0, 1.0) == p;
  }

  // The false-positive cost: below 250 twice the amount, kept between the two bounds, and from 250 on the
  // declined share of the amount, but at least the upper bound.
  lemma {:induction false} FpCostCases(k: Config, amount: real)
    ensures amount < 250.0 && k.baseFp <= 2.0 * amount <= k.maxFp ==> FpCost(k, amount) == amount + amount
    ensures amount < 250.0 && (2.0 * amount < k.baseFp || k.maxFp < k.baseFp) ==> FpCost(k, amount) == k.baseFp
    ensures amount < 250.0 && k.baseFp <= k.maxFp < 2.0 * amount ==> FpCost(k, amount) == k.maxFp
    ensures amount >= 250.0 && k.declineRate * amount >= k.maxFp ==> FpCost(k, amount) == k.declineRate * amount
    ensures amount >= 250.0 && k.declineRate * amount < k.maxFp ==> FpCost(k, amount) == k.maxFp
  {
  }

  // a line nowhere below f on the probabilities
  ghost predicate IsAbove(l: Line, f: real -> real) {
    forall q :: 0.0 <= q <= 1.0 ==> f(q) <= At(l, q)
  }

  function LossAt(k: Config, amount: real): real -> real {
    q => ExpectedLoss(k, q, amount)
  }

  function Least4Index(a: real, b: real, c: real, d: real): (i: nat)
    ensures i < 4 && Least4(a, b, c, d) == [a, b, c, d][i]
  {
    if a <= b && a <= c && a <= d then 0 else if b <= c && b <= d then 1 else if c <= d then 2 else 3
  }

  // one action's cost as a line in the probability
  function ActionLine(k: Config, amount: real, i: nat): Line
    requires i < 4
  {
    if i == 0 then Line(0.0, amount)
    else if i == 1 then Line(FpCost(k, amount), -FpCost(k, amount))
    else if i == 2 then Line(k.review, 0.05 * amount)
    else Line(k.friction * amount + k.challenge, -(k.friction * amount))
  }

  lemma {:induction false} ActionLineExact(k: Config, amount: real, p: real)
    requires 0.0 <= p <= 1.0
    ensures At(ActionLine(k, amount, 0), p) == LossAllow(p, amount)
    ensures At(ActionLine(k, amount, 1), p) == LossDecline(p, FpCost(k, amount))
    ensures At(ActionLine(k, amount, 2), p) == LossReview(k, p, amount)
    ensures At(ActionLine(k, amount, 3), p) == LossChallenge(k, p, amount)
  {
  }

  lemma {:induction false} ActionLineAbove(k: Config, amount: real, i: nat)
    requires i < 4
    ensures IsAbove(ActionLine(k, amount, i), LossAt(k, amount))
  {
    forall q | 0.0 <= q <= 1.0 ensures LossAt(k, amount)(q) <= At(ActionLine(k, amount, i), q) {
      ActionLineExact(k, amount, q);
    }
  }

  // the line is nowhere below f and meets it at p
  ghost predicate Supports(l: Line, f: real -> real, p: real) {
    IsAbove(l, f) && f(p) == At(l, p)
  }

  ghost predicate Supported(f: real -> real, p: real) {
    exists l :: Supports(l, f, p)
  }

  ghost predicate Concave(f: real -> real) {
    forall p :: 0.0 <= p <= 1.0 ==> Supported(f, p)
  }

  lemma {:induction false} ActiveLine(k: Config, amount: real, p: real) returns (l: Line)
    requires 0.0 <= p <= 1.0
    ensures Supports(l, LossAt(k, amount), p)
  {
    var i := Least4Index(LossAllow(p, amount), LossDecline(p, FpCost(k, amount)),
                         LossReview(k, p, amount), LossChallenge(k, p, amount));
    l := ActionLine(k, amount, i);
    ActionLineAbove(k, amount, i);
    ActionLineExact(k, amount, p);
  }

  // the loss is the lower envelope of the four action lines
  lemma {:induction false} LossIsConcave(k: Config, amount: real)
    ensures Concave(LossAt(k, amount))
  {
    forall p | 0.0 <= p <= 1.0 ensures Supported(LossAt(k, amount), p) {
      var l := ActiveLine(k, amount, p);
    }
  }

  function SumOf(ps: seq<real>): real {
    if ps == [] then 0.0 else SumOf(ps[..|ps| - 1]) + ps[|ps| - 1]
  }

  // the total of f over a portfolio of probabilities
  function Total(f: real -> real, ps: seq<real>): real {
    if ps == [] then 0.0 else Total(f, ps[..|ps| - 1]) + f(ps[|ps| - 1])
  }

  ghost predicate Probabilities(ps: seq<real>) {
    forall i :: 0 <= i < |ps| ==> 0.0 <= ps[i] <= 1.0
  }

  lemma {:induction false} LineStep(n: real, l: Line, sum: real, p: real)
    ensures n * l.atZero + sum * l.slope + At(l, p) == (n + 1.0) * l.atZero + (sum + p) * l.slope
  {
  }

  lemma {:induction false} TotalBelowLine(f: real -> real, l: Line, ps: seq<real>)
    requires Probabilities(ps) && IsAbove(l, f)
    ensures Total(f, ps) <= |ps| as real * l.atZero + SumOf(ps) * l.slope
  {
    if ps != [] {
      var n := |ps| - 1;
      TotalBelowLine(f, l, ps[..n]);
      assert f(ps[n]) <= At(l, ps[n]);
      LineStep(n as real, l, SumOf(ps[..n]), ps[n]);
    }
  }

  lemma {:induction false} SumOfProbabilities(ps: seq<real>)
    requires Probabilities(ps)
    ensures 0.0 <= SumOf(ps) <= |ps| as real
  {
    if ps != [] {
      SumOfProbabilities(ps[..|ps| - 1]);
    }
  }

  lemma {:induction false} MeanOfProbabilities(ps: seq<real>)
    requires ps != [] && Probabilities(ps)
    ensures 0.0 <= SumOf(ps) / |ps| as real <= 1.0
    ensures (SumOf(ps) / |ps| as real) * |ps| as real == SumOf(ps)
  {
    SumOfProbabilities(ps);
    QuotientBelow(SumOf(ps), |ps| as real, 0.0);
    QuotientBelow(SumOf(ps), |ps| as real, 1.0);
    QuotientTimes(SumOf(ps), |ps| as real);
  }

  lemma {:induction false} LineMean(n: real, l: Line, mean: real)
    ensures n * At(l, mean) == n * l.atZero + (mean * n) * l.slope
  {
    assert n * (mean * l.slope) == (mean * n) * l.slope;
    assert n * At(l, mean) == n * l.atZero + n * (mean * l.slope);
  }

  lemma {:induction false} Jensen(f: real -> real, ps: seq<real>)
    requires ps != [] && Probabilities(ps) && Concave(f)
    ensures Total(f, ps) <= |ps| as real * f(SumOf(ps) / |ps| as real)
  {
    var mean := SumOf(ps) / |ps| as real;
    MeanOfProbabilities(ps);
    assert Supported(f, mean);
    var l :| Supports(l, f, mean);
    TotalBelowLine(f, l, ps);
    LineMean(|ps| as real, l, mean);
  }

  // Scoring a portfolio of equal amounts one by one never has a higher expected loss than scoring
  // every payment at the mean probability.
  lemma {:induction false} AveragingScoresCosts(k: Config, ps: seq<real>, amount: real)
    requires ps != [] && Probabilities(ps)
    ensures Total(LossAt(k, amount), ps) <= |ps| as real * LossAt(k, amount)(SumOf(ps) / |ps| as real)
  {
    LossIsConcave(k, amount);
    Jensen(LossAt(k, amount), ps);
  }

  // ---------------------------------------------------------------------------
  // Monotonicity in the amount
  // ---------------------------------------------------------------------------

  predicate RatesNonNegative(k: Config) {
    k.friction >= 0.0 && k.declineRate >= 0.0
  }

  predicate CostsNonNegative(k: Config) {
    k.review >= 0.0 && k.challenge >= 0.0 && RatesNonNegative(k)
  }

  // the least false-positive cost from 250 on
  function EdgeCost(k: Config): real {
    Max(k.maxFp, 250.0 * k.declineRate)
  }

  // the false-positive cost does not drop at the 250 boundary
  predicate NoDrop(k: Config) {
    k.baseFp <= EdgeCost(k)
  }

  // a challenge has no fixed cost, and up to the boundary its friction costs at most what declining costs
  // just above it
  predicate Shielded(k: Config) {
    k.challenge == 0.0 && EdgeCost(k) >= k.friction * 250.0
  }

  lemma {:induction false} FpCostFromMonotone(k: Config, a: real, b: real, shareA: real, shareB: real, edge: real)
    requires a <= b && shareA <= shareB && k.baseFp <= Max(k.maxFp, edge) && (b >= 250.0 ==> edge <= shareB)
    ensures FpCostFrom(k, a, shareA) <= FpCostFrom(k, b, shareB)
  {
  }

  lemma {:induction false} Shares(rate: real, a: real, b: real) returns (x: real, y: real, edge: real)
    requires rate >= 0.0 && a <= b
    ensures x == a * rate && y == b * rate && edge == 250.0 * rate
    ensures x <= y && (b >= 250.0 ==> edge <= y)
  {
    x, y, edge := a * rate, b * rate, 250.0 * rate;
    ScaleOrder(a, b, rate);
    if b >= 250.0 {
      ScaleOrder(250.0, b, rate);
    }
  }

  lemma {:induction false} FpCostMonotone(k: Config, a: real, b: real)
    requires RatesNonNegative(k) && NoDrop(k) && 0.0 <= a <= b
    ensures FpCost(k, a) <= FpCost(k, b)
  {
    var x, y, edge := Shares(k.declineRate, a, b);
    FpCostFromMonotone(k, a, b, x, y, edge);
  }

  lemma {:induction false} ScaleOrderLeft(c: real, a: real, b: real)
    requires a <= b && c >= 0.0
    ensures c * a <= c * b
  {
  }

  lemma {:induction false} Least4Monotone(a: real, b: real, c: real, d: real, a': real, b': real, c': real, d': real)
    requires a <= a' && b <= b' && c <= c' && d <= d'
    ensures Least4(a, b, c, d) <= Least4(a', b', c', d')
  {
  }

  lemma {:induction false} ChallengeMonotone(k: Config, p: real, a: real, b: real)
    requires RatesNonNegative(k) && p <= 1.0 && a <= b
    ensures LossChallenge(k, p, a) <= LossChallenge(k, p, b)
  {
    ScaleOrderLeft(k.friction, a, b);
    ScaleOrderLeft(1.0 - p, k.friction * a, k.friction * b);
  }

  lemma {:induction false} DeclineMonotone(p: real, f: real, g: real)
    requires p <= 1.0 && f <= g
    ensures LossDecline(p, f) <= LossDecline(p, g)
  {
    ScaleOrderLeft(1.0 - p, f, g);
  }

  lemma {:induction false} AllowMonotone(k: Config, p: real, a: real, b: real)
    requires p >= 0.0 && a <= b
    ensures LossAllow(p, a) <= LossAllow(p, b) && LossReview(k, p, a) <= LossReview(k, p, b)
  {
    ScaleOrderLeft(p, a, b);
  }

  lemma {:induction false} LossMonotoneFrom(k: Config, p: real, a: real, b: real)
    requires RatesNonNegative(k) && 0.0 <= p <= 1.0 && a <= b && FpCost(k, a) <= FpCost(k, b)
    ensures ExpectedLoss(k, p, a) <= ExpectedLoss(k, p, b)
  {
    AllowMonotone(k, p, a, b);
    DeclineMonotone(p, FpCost(k, a), FpCost(k, b));
    ChallengeMonotone(k, p, a, b);
    Least4Monotone(LossAllow(p, a), LossDecline(p, FpCost(k, a)), LossReview(k, p, a), LossChallenge(k, p, a),
                   LossAllow(p, b), LossDecline(p, FpCost(k, b)), LossReview(k, p, b), LossChallenge(k, p, b));
  }

  lemma {:induction false} LossMonotoneInAmount(k: Config, prob: real, a: real, b: real)
    requires RatesNonNegative(k) && NoDrop(k) && 0.0 <= a <= b
    ensures ExpectedLoss(k, prob, a) <= ExpectedLoss(k, prob, b)
  {
    FpCostMonotone(k, a, b);
    LossMonotoneFrom(k, Clip(prob, 0.0, 1.0), a, b);
  }

  lemma {:induction false} FpCostSameSide(k: Config, a: real, b: real)
    requires RatesNonNegative(k) && a <= b && (b < 250.0 || a >= 250.0)
    ensures FpCost(k, a) <= FpCost(k, b)
  {
    var x, y, edge := Shares(k.declineRate, a, b);
    assert FpCostFrom(k, a, x) <= FpCostFrom(k, b, y);
  }

  lemma {:induction false} EdgeIsLeast(k: Config, b: real)
    requires RatesNonNegative(k) && b >= 250.0
    ensures EdgeCost(k) <= FpCost(k, b)
  {
    var edge, y, e := Shares(k.declineRate, 250.0, b);
    assert FpCostFrom(k, b, y) >= Max(k.maxFp, edge);
  }

  lemma {:induction false} Least4Under(a: real, b: real, c: real, d: real, a': real, b': real, c': real, d': real)
    requires a <= a' && d <= b' && c <= c' && d <= d'
    ensures Least4(a, b, c, d) <= Least4(a', b', c', d')
  {
  }

  lemma {:induction false} ScaledPair(c: real, a: real, b: real) returns (x: real, y: real)
    requires a <= b && c >= 0.0
    ensures x == c * a && y == c * b && x <= y
  {
    x, y := c * a, c * b;
    ScaleOrderLeft(c, a, b);
  }

  lemma {:induction false} FrictionUnderEdge(k: Config, a: real) returns (f: real)
    requires RatesNonNegative(k) && Shielded(k) && a <= 250.0
    ensures f == k.friction * a && f <= EdgeCost(k)
  {
    var g;
    f, g := ScaledPair(k.friction, a, 250.0);
    assert g <= EdgeCost(k);
  }

  lemma {:induction false} ChallengeUnderDecline(k: Config, p: real, a: real, b: real)
    requires RatesNonNegative(k) && Shielded(k) && p <= 1.0 && a <= 250.0 <= b
    ensures LossChallenge(k, p, a) <= LossDecline(p, FpCost(k, b))
  {
    var f := FrictionUnderEdge(k, a);
    EdgeIsLeast(k, b);
    DeclineMonotone(p, f, FpCost(k, b));
    assert LossChallenge(k, p, a) == LossDecline(p, f);
  }

  lemma {:induction false} ShieldedLossMonotone(k: Config, p: real, a: real, b: real)
    requires RatesNonNegative(k) && Shielded(k) && 0.0 <= p <= 1.0 && 0.0 <= a <= b
    ensures ExpectedLoss(k, p, a) <= ExpectedLoss(k, p, b)
  {
    if b < 250.0 || a >= 250.0 {
      FpCostSameSide(k, a, b);
      LossMonotoneFrom(k, p, a, b);
    } else {
      AllowMonotone(k, p, a, b);
      ChallengeMonotone(k, p, a, b);
      ChallengeUnderDecline(k, p, a, b);
      Least4Under(LossAllow(p, a), LossDecline(p, FpCost(k, a)), LossReview(k, p, a), LossChallenge(k, p, a),
                  LossAllow(p, b), LossDecline(p, FpCost(k, b)), LossReview(k, p, b), LossChallenge(k, p, b));
    }
  }

  // how far from certainty declining still costs at most the budget
  lemma {:induction false} SmallDoubt(budget: real, base: real) returns (e: real)
    requires budget > 0.0 && base > 0.0
    ensures 0.0 < e <= 0.5 && e * base <= budget
  {
    e := Min(budget / base, 0.5);
    QuotientBelow(budget, base, 0.0);
    QuotientTimes(budget, base);
    ScaleOrder(e, budget / base, base);
  }

  // Below the boundary at an amount of at least 125, and with a doubt of at most one half: allowing costs more
  // than 3 and so does reviewing. So if a bound is below 3, below declining and below challenging, it is
  // below the loss.
  lemma {:induction false} BelowEveryAction(
    k: Config, e: real, amount: real, bound: real, decline: real, friction: real)
    requires CostsNonNegative(k) && 0.0 < e <= 0.5 && amount >= 125.0 && bound < 3.0
    requires decline == e * FpCost(k, amount) && friction == e * (k.friction * amount)
    requires bound < decline && bound < friction + k.challenge
    ensures bound < ExpectedLoss(k, 1.0 - e, amount)
  {
    var p := 1.0 - e;
    AllowAtLeast(p, amount);
    assert LossDecline(p, FpCost(k, amount)) == decline;
    assert LossReview(k, p, amount) == k.review + 0.05 * LossAllow(p, amount);
    assert LossChallenge(k, p, amount) == friction + k.challenge;
  }

  lemma {:induction false} AllowAtLeast(p: real, amount: real)
    requires p >= 0.5 && amount >= 125.0
    ensures LossAllow(p, amount) >= 62.5
  {
    ScaleOrder(0.5, p, amount);
  }

  lemma {:induction false} ProductOrder(e: real, a: real, b: real) returns (x: real, y: real)
    requires e > 0.0 && a > b
    ensures x == e * a && y == e * b && x > y
  {
    x, y := e * a, e * b;
    PositiveProduct(e, a - b);
    Distribute(e, b, a);
  }

  lemma {:induction false} DeclineBoundsLoss(k: Config, e: real, amount: real, cost: real)
    requires 0.0 <= e <= 1.0 && cost == e * FpCost(k, amount)
    ensures ExpectedLoss(k, 1.0 - e, amount) <= cost
  {
    assert LossDecline(1.0 - e, FpCost(k, amount)) == cost;
  }

  // an amount below the boundary at which the friction of a challenge already exceeds the edge cost, if it
  // does at the boundary
  lemma {:induction false} FrictionBelowEdge(friction: real, edge: real) returns (amount: real)
    requires edge >= 0.0 && edge < friction * 250.0
    ensures 125.0 <= amount < 250.0 && edge < friction * amount
  {
    PositiveFactor(friction, 250.0);
    QuotientBelow(edge, friction, 250.0);
    QuotientBelow(edge, friction, 0.0);
    QuotientTimes(edge, friction);
    amount := (edge / friction + 250.0) / 2.0;
    var x, y := ProductOrder(friction, amount, edge / friction);
  }

  lemma {:induction false} FpCostBelowEdge(k: Config, amount: real)
    requires RatesNonNegative(k) && !NoDrop(k) && 0.0 <= amount < 250.0
    ensures FpCost(k, amount) == k.baseFp > FpCost(k, 250.0) == EdgeCost(k) >= 0.0
  {
    ScaleOrderLeft(250.0, 0.0, k.declineRate);
  }

  lemma {:induction false} DropAt(k: Config, e: real, amount: real, low: real, friction: real)
    requires CostsNonNegative(k) && !NoDrop(k) && 0.0 < e <= 0.5 && 125.0 <= amount < 250.0
    requires low == e * EdgeCost(k) && friction == e * (k.friction * amount)
    requires low < 3.0 && low < friction + k.challenge
    ensures ExpectedLoss(k, 1.0 - e, amount) > ExpectedLoss(k, 1.0 - e, 250.0)
  {
    FpCostBelowEdge(k, amount);
    var decline, x := ProductOrder(e, FpCost(k, amount), EdgeCost(k));
    BelowEveryAction(k, e, amount, low, decline, friction);
    DeclineBoundsLoss(k, e, 250.0, low);
  }

  // a doubt at which declining at the boundary costs less than the budget
  lemma {:induction false} EdgeDoubt(k: Config, budget: real) returns (e: real, low: real)
    requires RatesNonNegative(k) && !NoDrop(k) && budget > 0.0
    ensures 0.0 < e <= 0.5 && low == e * EdgeCost(k) && low < budget
  {
    FpCostBelowEdge(k, 0.0);
    e := SmallDoubt(budget, k.baseFp);
    var top;
    top, low := ProductOrder(e, k.baseFp, EdgeCost(k));
  }

  lemma {:induction false} ChallengeFriction(k: Config, e: real, amount: real) returns (friction: real)
    requires RatesNonNegative(k) && e >= 0.0 && amount >= 0.0
    ensures friction == e * (k.friction * amount) && friction >= 0.0
  {
    friction := e * (k.friction * amount);
    ScaleOrderLeft(k.friction, 0.0, amount);
    ScaleOrderLeft(e, 0.0, k.friction * amount);
  }

  // close to certain fraud, declining is the cheapest action just above the boundary and dearer below it
  lemma {:induction false} DropIsVisible(k: Config) returns (p: real, amount: real)
    requires CostsNonNegative(k) && !NoDrop(k) && !Shielded(k)
    ensures 0.0 <= p <= 1.0 && 0.0 <= amount < 250.0 && ExpectedLoss(k, p, amount) > ExpectedLoss(k, p, 250.0)
  {
    var e, low, friction;
    if k.challenge > 0.0 {
      amount := 125.0;
      e, low := EdgeDoubt(k, Min(k.challenge, 3.0));
      friction := ChallengeFriction(k, e, amount);
    } else {
      FpCostBelowEdge(k, 0.0);
      amount := FrictionBelowEdge(k.friction, EdgeCost(k));
      e, low := EdgeDoubt(k, 3.0);
      var y;
      friction, y := ProductOrder(e, k.friction * amount, EdgeCost(k));
    }
    DropAt(k, e, amount, low, friction);
    p := 1.0 - e;
  }

  // The expected loss never falls as the amount grows, for any probability, exactly when the base
  // false-positive cost does not exceed what declining costs from 250 on, or a challenge shields the drop.
  lemma {:induction false} LossMonotoneIff(k: Config)
    requires CostsNonNegative(k)
    ensures (forall p, a, b :: 0.0 <= p <= 1.0 && 0.0 <= a <= b ==> ExpectedLoss(k, p, a) <= ExpectedLoss(k, p, b))
            <==> NoDrop(k) || Shielded(k)
  {
    if NoDrop(k) || Shielded(k) {
      forall p, a, b | 0.0 <= p <= 1.0 && 0.0 <= a <= b ensures ExpectedLoss(k, p, a) <= ExpectedLoss(k, p, b) {
        if NoDrop(k) {
          LossMonotoneInAmount(k, p, a, b);
        } else {
          ShieldedLossMonotone(k, p, a, b);
        }
      }
    } else {
      var p, amount := DropIsVisible(k);
      assert ExpectedLoss(k, p, amount) > ExpectedLoss(k, p, 250.0);
    }
  }

}
