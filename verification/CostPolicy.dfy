// The expected-cost policy: the three-action choice, made on costs rounded to cents.
// Source: ml-service/calibration/cost_policy.py

module CostPolicy {
  import opened Common

  datatype Action = Allow | ManualReview | Decline

  function Rank(a: Action): nat {
    match a
    case Allow => 0
    case ManualReview => 1
    case Decline => 2
  }

  datatype Costs = Costs(allow: real, review: real, decline: real)

  function CostOf(c: Costs, a: Action): real {
    match a
    case Allow => c.allow
    case ManualReview => c.review
    case Decline => c.decline
  }

  datatype Engine = Engine(fpCost: real, reviewCost: real, multiplier: real, residualRate: real)

  // the parameter ranges under which the costs mean what they are called
  predicate Sensible(k: Engine) {
    k.fpCost >= 0.0 && k.multiplier >= 0.0 && 0.0 <= k.residualRate <= 1.0
  }

  // what a fraud would cost, and the exact expected costs
  function Stake(k: Engine, amount: real): real {
    Max(amount, 1.0) * k.multiplier
  }

  // from the expected fraud loss, the part of it that review lets through, and the expected cost of
  // blocking a good customer
  function CostsFrom(k: Engine, fraud: real, missed: real, block: real): Costs {
    Costs(fraud, k.reviewCost + missed, block)
  }

  function CostsOf(k: Engine, fraud: real, block: real): Costs {
    CostsFrom(k, fraud, k.residualRate * fraud, block)
  }

  function CostsAt(k: Engine, p: real, stake: real): Costs {
    CostsOf(k, p * stake, (1.0 - p) * k.fpCost)
  }

  function ExactCosts(k: Engine, prob: real, amount: real): Costs {
    CostsAt(k, Clip(prob, 0.0, 1.0), Stake(k, amount))
  }

  function Rounded(c: Costs): Costs {
    Costs(Round2(c.allow), Round2(c.review), Round2(c.decline))
  }

  // the first of the cheapest, in the order ALLOW, MANUAL_REVIEW, DECLINE
  function Cheapest(c: Costs): Action {
    if c.allow <= c.review && c.allow <= c.decline then Allow
    else if c.review <= c.decline then ManualReview
    else Decline
  }

  function Choose(c: Costs, allowReview: bool): Action {
    if allowReview then Cheapest(c) else if c.allow <= c.decline then Allow else Decline
  }

  // the engine's choice, on rounded costs
  function SelectAction(k: Engine, prob: real, amount: real, allowReview: bool): Action {
    Choose(Rounded(ExactCosts(k, prob, amount)), allowReview)
  }

  predicate Available(a: Action, allowReview: bool) {
    allowReview || a != ManualReview
  }

  lemma {:induction false} ChooseIsCheapest(c: Costs, allowReview: bool)
    ensures Available(Choose(c, allowReview), allowReview)
    ensures forall a :: Available(a, allowReview) ==> CostOf(c, Choose(c, allowReview)) <= CostOf(c, a)
    ensures forall a :: Available(a, allowReview) && Rank(a) < Rank(Choose(c, allowReview)) ==>
                          CostOf(c, Choose(c, allowReview)) < CostOf(c, a)
  {
  }

  // what an action costs once it is known whether the transaction was a fraud worth v
  function Outcome(k: Engine, a: Action, fraud: bool, v: real): real {
    match a
    case Allow => if fraud then v else 0.0
    case ManualReview => k.reviewCost + (if fraud then k.residualRate * v else 0.0)
    case Decline => if fraud then 0.0 else k.fpCost
  }

  lemma {:induction false} MeanOfReview(p: real, review: real, rate: real, v: real)
    ensures review + rate * (p * v) == p * (review + rate * v) + (1.0 - p) * review
  {
    assert p * (review + rate * v) == p * review + p * (rate * v);
    assert (1.0 - p) * review == review - p * review;
    assert p * (rate * v) == rate * (p * v);
  }

  // Each exact cost is the mean of its two outcomes; amounts below 1 count as 1, and scores outside [0, 1] as
  // the nearer end.
  lemma {:induction false} ExactCostsAreMeans(k: Engine, p: real, amount: real, a: Action)
    ensures 0.0 <= p <= 1.0 && amount >= 1.0 ==>
              var v := amount * k.multiplier;
              CostOf(ExactCosts(k, p, amount), a)
              == p * Outcome(k, a, true, v) + (1.0 - p) * Outcome(k, a, false, v)
    ensures amount < 1.0 ==> ExactCosts(k, p, amount) == ExactCosts(k, p, 1.0)
    ensures p < 0.0 ==> ExactCosts(k, p, amount) == ExactCosts(k, 0.0, amount)
    ensures p > 1.0 ==> ExactCosts(k, p, amount) == ExactCosts(k, 1.0, amount)
  {
    MeanOfReview(p, k.reviewCost, k.residualRate, amount * k.multiplier);
  }

  lemma {:induction false} Round2Monotone(x: real, y: real)
    requires x <= y
    ensures Round2(x) <= Round2(y)
  {
    HalfEvenMonotone(x * 100.0, y * 100.0);
  }

  lemma {:induction false} HalfEvenIs(y: real, r: int)
    requires -0.5 < y - r as real < 0.5
    ensures HalfEven(y) == r
  {
    var h := HalfEven(y);
    assert -1.0 < h as real - r as real < 1.0;
  }

  // what a rounding to r/100 amounts to
  lemma {:induction false} Round2Is(x: real, r: int)
    requires -0.5 < x * 100.0 - r as real < 0.5
    ensures Round2(x) == r as real / 100.0
  {
    HalfEvenIs(x * 100.0, r);
  }

  // Choosing on rounded costs loses at most one cent against the true minimum of the available actions.
  lemma {:induction false} ChoiceWithinOneCent(k: Engine, prob: real, amount: real, allowReview: bool, other: Action)
    requires Available(other, allowReview)
    ensures var c := ExactCosts(k, prob, amount);
            CostOf(c, SelectAction(k, prob, amount, allowReview)) <= CostOf(c, other) + 0.01
  {
    var c := ExactCosts(k, prob, amount);
    var chosen := SelectAction(k, prob, amount, allowReview);
    ChooseIsCheapest(Rounded(c), allowReview);
    assert CostOf(Rounded(c), chosen) == Round2(CostOf(c, chosen));
    assert CostOf(Rounded(c), other) == Round2(CostOf(c, other));
    Round2Near(CostOf(c, chosen));
    Round2Near(CostOf(c, other));
  }

  // ---------------------------------------------------------------------------
  // Monotonicity in the probability
  // ---------------------------------------------------------------------------

  lemma {:induction false} PartOfGap(rate: real, gap: real) returns (part: real)
    requires 0.0 <= rate <= 1.0 && gap >= 0.0
    ensures part == rate * gap && 0.0 <= part <= gap && (rate > 0.0 && gap > 0.0 ==> part > 0.0)
  {
    part := rate * gap;
    ScaleOrder(0.0, rate, gap);
    ScaleOrder(rate, 1.0, gap);
    if rate > 0.0 && gap > 0.0 {
      PositiveProduct(rate, gap);
    }
  }

  lemma {:induction false} ReviewedShare(rate: real, a: real, b: real) returns (r: real, s: real)
    requires 0.0 <= rate <= 1.0 && a <= b
    ensures r == rate * a && s == rate * b && r <= s && a - r <= b - s
  {
    var part := PartOfGap(rate, b - a);
    Distribute(rate, a, b);
    r := rate * a;
    s := r + part;
  }

  // allowing and reviewing get dearer and declining cheaper, and allowing gains on reviewing
  predicate MovesToDecline(c: Costs, d: Costs) {
    c.allow <= d.allow && c.review <= d.review && d.decline <= c.decline && c.allow - c.review <= d.allow - d.review
  }

  lemma {:induction false} CostsFromMove(k: Engine, a: real, b: real, r: real, s: real, m: real, n: real)
    requires a <= b && r <= s && a - r <= b - s && n <= m
    ensures MovesToDecline(CostsFrom(k, a, r, m), CostsFrom(k, b, s, n))
  {
  }

  lemma {:induction false} CostsOfMove(k: Engine, a: real, b: real, m: real, n: real)
    requires Sensible(k) && a <= b && n <= m
    ensures MovesToDecline(CostsOf(k, a, m), CostsOf(k, b, n))
  {
    var r, s := ReviewedShare(k.residualRate, a, b);
    CostsFromMove(k, a, b, r, s, m, n);
  }

  lemma {:induction false} CostsAtMove(k: Engine, x: real, y: real, stake: real)
    requires Sensible(k) && x <= y && stake >= 0.0
    ensures MovesToDecline(CostsAt(k, x, stake), CostsAt(k, y, stake))
  {
    ScaleOrder(x, y, stake);
    ScaleOrder(1.0 - y, 1.0 - x, k.fpCost);
    CostsOfMove(k, x * stake, y * stake, (1.0 - x) * k.fpCost, (1.0 - y) * k.fpCost);
  }

  lemma {:induction false} CostsMove(k: Engine, p: real, q: real, amount: real)
    requires Sensible(k) && p <= q
    ensures MovesToDecline(ExactCosts(k, p, amount), ExactCosts(k, q, amount))
  {
    ScaleOrder(0.0, Max(amount, 1.0), k.multiplier);
    CostsAtMove(k, Clip(p, 0.0, 1.0), Clip(q, 0.0, 1.0), Stake(k, amount));
  }

  // On exact costs the choice only moves from ALLOW over MANUAL_REVIEW to DECLINE as the probability grows.
  lemma {:induction false} ExactChoiceMonotone(k: Engine, p: real, q: real, amount: real, allowReview: bool)
    requires Sensible(k) && p <= q
    ensures Rank(Choose(ExactCosts(k, p, amount), allowReview)) <= Rank(Choose(ExactCosts(k, q, amount), allowReview))
  {
    CostsMove(k, p, q, amount);
  }

  // The rounded choice keeps that order with one exception: MANUAL_REVIEW may fall back to ALLOW, and
  // then the exact costs of those two are within a cent of each other at both probabilities.
  lemma {:induction false} RoundedChoiceMonotoneExceptNearTies(
    k: Engine, p: real, q: real, amount: real, allowReview: bool)
    requires Sensible(k) && p <= q
    ensures var a, b := SelectAction(k, p, amount, allowReview), SelectAction(k, q, amount, allowReview);
            var c, d := ExactCosts(k, p, amount), ExactCosts(k, q, amount);
            Rank(a) <= Rank(b)
            || (a == ManualReview && b == Allow && Abs(c.allow - c.review) <= 0.01 && Abs(d.allow - d.review) <= 0.01)
    ensures !allowReview ==>
              Rank(SelectAction(k, p, amount, allowReview)) <= Rank(SelectAction(k, q, amount, allowReview))
  {
    var c, d := ExactCosts(k, p, amount), ExactCosts(k, q, amount);
    CostsMove(k, p, q, amount);
    Round2Monotone(c.allow, d.allow);
    Round2Monotone(c.review, d.review);
    Round2Monotone(d.decline, c.decline);
    Round2Near(c.allow);
    Round2Near(c.review);
    Round2Near(d.allow);
    Round2Near(d.review);
  }

  function ExampleEngine(): Engine {
    Engine(500.0, 0.0, 1.0, 0.5)
  }

  lemma {:induction false} RoundedIs(c: Costs, a: int, r: int, d: int)
    requires -0.5 < c.allow * 100.0 - a as real < 0.5
    requires -0.5 < c.review * 100.0 - r as real < 0.5
    requires -0.5 < c.decline * 100.0 - d as real < 0.5
    ensures Rounded(c) == Costs(a as real / 100.0, r as real / 100.0, d as real / 100.0)
  {
    Round2Is(c.allow, a);
    Round2Is(c.review, r);
    Round2Is(c.decline, d);
  }

  lemma {:induction false} ExactIs(k: Engine, p: real, stake: real, fraud: real, missed: real, block: real)
    requires 0.0 <= p <= 1.0 && Stake(k, 1.0) == stake && k.reviewCost == 0.0
    requires fraud == p * stake && missed == k.residualRate * fraud && block == (1.0 - p) * k.fpCost
    ensures ExactCosts(k, p, 1.0) == Costs(fraud, missed, block)
  {
    assert Clip(p, 0.0, 1.0) == p;
  }

  lemma {:induction false} ExampleStake()
    ensures Stake(ExampleEngine(), 1.0) == 1.0
  {
  }

  lemma {:induction false} ExampleLow()
    ensures ExactCosts(ExampleEngine(), 0.0051, 1.0) == Costs(0.0051, 0.00255, 497.45)
  {
    ExampleStake();
    ExactIs(ExampleEngine(), 0.0051, 1.0, 0.0051, 0.00255, 497.45);
  }

  lemma {:induction false} ExampleHigh()
    ensures ExactCosts(ExampleEngine(), 0.0149, 1.0) == Costs(0.0149, 0.00745, 492.55)
  {
    ExampleStake();
    ExactIs(ExampleEngine(), 0.0149, 1.0, 0.0149, 0.00745, 492.55);
  }

  // The exception occurs: reviews at no fixed cost that halve the loss, and a stake of 1.
  lemma {:induction false} RoundedChoiceNotMonotone()
    ensures Sensible(ExampleEngine())
    ensures SelectAction(ExampleEngine(), 0.0051, 1.0, true) == ManualReview
    ensures SelectAction(ExampleEngine(), 0.0149, 1.0, true) == Allow
  {
    ExampleLow();
    ExampleHigh();
    RoundedIs(Costs(0.0051, 0.00255, 497.45), 1, 0, 49745);
    RoundedIs(Costs(0.0149, 0.00745, 492.55), 1, 1, 49255);
  }

  // ---------------------------------------------------------------------------
  // Which engines reverse
  // ---------------------------------------------------------------------------

  // what review costs, in cents, where allowing costs x cents
  function ReviewCents(k: Engine, x: real): real {
    100.0 * k.reviewCost + k.residualRate * x
  }

  // Where allowing costs n cents after rounding, review rounds below n at the lower end of that range and
  // no more at its upper end, and declining can still cost n.
  predicate ReversesAt(k: Engine, n: nat) {
    var edge := n as real - 0.5;
    && ReviewCents(k, Max(edge, 0.0)) < edge
    && (edge < ReviewCents(k, edge + 1.0) || (n % 2 == 0 && edge == ReviewCents(k, edge + 1.0)))
    && edge < 100.0 * k.fpCost
  }

  // a higher probability never moves the choice back
  ghost predicate NeverReverses(k: Engine) {
    forall p, q, amount, allowReview | p <= q ::
      Rank(SelectAction(k, p, amount, allowReview)) <= Rank(SelectAction(k, q, amount, allowReview))
  }

  function CheapestInCents(allow: int, review: int, decline: int): Action {
    if allow <= review && allow <= decline then Allow else if review <= decline then ManualReview else Decline
  }

  function InCents(c: Costs): Action {
    CheapestInCents(HalfEven(c.allow * 100.0), HalfEven(c.review * 100.0), HalfEven(c.decline * 100.0))
  }

  lemma {:induction false} CheapestOfCents(allow: int, review: int, decline: int)
    ensures Cheapest(Costs(allow as real / 100.0, review as real / 100.0, decline as real / 100.0))
            == CheapestInCents(allow, review, decline)
  {
  }

  lemma {:induction false} RoundedChoiceInCents(c: Costs)
    ensures Choose(Rounded(c), true) == InCents(c)
  {
    var allow, review, decline := HalfEven(c.allow * 100.0), HalfEven(c.review * 100.0), HalfEven(c.decline * 100.0);
    assert Rounded(c) == Costs(allow as real / 100.0, review as real / 100.0, decline as real / 100.0);
    CheapestOfCents(allow, review, decline);
  }

  lemma {:induction false} ReviewInCents(k: Engine, fraud: real, block: real)
    ensures CostsOf(k, fraud, block).review * 100.0 == ReviewCents(k, fraud * 100.0)
  {
    assert (k.residualRate * fraud) * 100.0 == k.residualRate * (fraud * 100.0);
  }

  lemma {:induction false} ReviewAtInCents(k: Engine, p: real, stake: real)
    ensures CostsAt(k, p, stake).review * 100.0 == ReviewCents(k, CostsAt(k, p, stake).allow * 100.0)
  {
    ReviewInCents(k, p * stake, (1.0 - p) * k.fpCost);
  }

  lemma {:induction false} ChoiceInCents(k: Engine, p: real, amount: real)
    ensures SelectAction(k, p, amount, true) == InCents(ExactCosts(k, p, amount))
    ensures ExactCosts(k, p, amount).review * 100.0 == ReviewCents(k, ExactCosts(k, p, amount).allow * 100.0)
  {
    ReviewAtInCents(k, Clip(p, 0.0, 1.0), Stake(k, amount));
    assert SelectAction(k, p, amount, true) == InCents(ExactCosts(k, p, amount)) by {
      RoundedChoiceInCents(ExactCosts(k, p, amount));
    }
  }

  lemma {:induction false} ReviewRises(k: Engine, x: real, y: real)
    requires Sensible(k) && x <= y
    ensures 0.0 <= ReviewCents(k, y) - ReviewCents(k, x) <= y - x
    ensures x < y && ReviewCents(k, x) == ReviewCents(k, y) ==> k.residualRate == 0.0
  {
    var part := PartOfGap(k.residualRate, y - x);
    Distribute(k.residualRate, x, y);
  }

  // which numbers round below n
  lemma {:induction false} RoundsBelow(x: real, n: int)
    ensures HalfEven(x) < n <==> x < n as real - 0.5 || (x == n as real - 0.5 && n % 2 != 0)
  {
    var edge := n as real - 0.5;
    assert edge.Floor == n - 1;
    if x <= edge {
      HalfEvenMonotone(x, edge);
    } else {
      HalfEvenMonotone(edge, x);
    }
  }

  // The level of a reversal is where the higher probability puts the cost of allowing.
  lemma {:induction false} CrossingLevel(k: Engine, x: real, y: real, n: nat)
    requires Sensible(k) && 0.0 <= x <= y && HalfEven(y) == n
    requires HalfEven(ReviewCents(k, x)) < HalfEven(x) && n <= HalfEven(ReviewCents(k, y))
    ensures var edge := n as real - 0.5;
            && ReviewCents(k, Max(edge, 0.0)) < edge
            && (edge < ReviewCents(k, edge + 1.0) || (n % 2 == 0 && edge == ReviewCents(k, edge + 1.0)))
  {
    var edge := n as real - 0.5;
    RoundsBelow(ReviewCents(k, y), n);
    RoundsBelow(y, n + 1);
    ReviewRises(k, y, edge + 1.0);
    LowerEnd(k, x, y, n);
  }

  lemma {:induction false} LowerEnd(k: Engine, x: real, y: real, n: nat)
    requires Sensible(k) && 0.0 <= x <= y && HalfEven(y) == n
    requires HalfEven(ReviewCents(k, x)) < HalfEven(x) && n <= HalfEven(ReviewCents(k, y))
    ensures ReviewCents(k, Max(n as real - 0.5, 0.0)) < n as real - 0.5
  {
    var low := Max(n as real - 0.5, 0.0);
    HalfEvenMonotone(x, y);
    if ReviewCents(k, x) >= x {
      HalfEvenMonotone(x, ReviewCents(k, x));
    }
    if low <= x {
      RoundsBelow(ReviewCents(k, x), n);
      RoundsBelow(ReviewCents(k, y), n);
      RoundsBelow(x, n);
      ReviewRises(k, low, x);
      ReviewRises(k, x, y);
    } else {
      ReviewRises(k, x, low);
    }
  }

  lemma {:induction false} FraudCost(k: Engine, p: real, amount: real)
    requires Sensible(k)
    ensures ExactCosts(k, p, amount).allow >= 0.0
    ensures k.multiplier == 0.0 || Clip(p, 0.0, 1.0) == 0.0 ==> ExactCosts(k, p, amount).allow == 0.0
  {
    ScaleOrder(0.0, Max(amount, 1.0), k.multiplier);
    ScaleOrder(0.0, Clip(p, 0.0, 1.0), Stake(k, amount));
  }

  lemma {:induction false} Complement(x: real, f: real)
    ensures (1.0 - x) * f == f - x * f
  {
  }

  lemma {:induction false} DeclineCost(k: Engine, p: real, amount: real)
    requires Sensible(k)
    ensures 0.0 <= ExactCosts(k, p, amount).decline <= k.fpCost
    ensures Clip(p, 0.0, 1.0) > 0.0 && k.fpCost > 0.0 ==> ExactCosts(k, p, amount).decline < k.fpCost
  {
    var x := Clip(p, 0.0, 1.0);
    var part := PartOfGap(x, k.fpCost);
    Complement(x, k.fpCost);
  }

  // two pairs of costs between which the choice falls back from review to allow
  lemma {:induction false} FallbackHasLevel(k: Engine, c: Costs, d: Costs) returns (n: nat)
    requires Sensible(k) && InCents(c) == ManualReview && InCents(d) == Allow
    requires c.review * 100.0 == ReviewCents(k, c.allow * 100.0) && d.review * 100.0 == ReviewCents(k, d.allow * 100.0)
    requires 0.0 <= c.allow <= d.allow && d.decline <= c.decline
    requires d.decline < k.fpCost || (d.decline == 0.0 && k.fpCost == 0.0)
    ensures ReversesAt(k, n)
  {
    var x, y, z := c.allow * 100.0, d.allow * 100.0, d.decline * 100.0;
    HalfEvenMonotone(0.0, y);
    n := HalfEven(y);
    HalfEvenMonotone(x, y);
    HalfEvenMonotone(z, c.decline * 100.0);
    CrossingLevel(k, x, y, n);
    RoundsBelow(z, n);
  }

  predicate Falls(k: Engine, p: real, q: real, amount: real) {
    SelectAction(k, p, amount, true) == ManualReview && SelectAction(k, q, amount, true) == Allow
  }

  lemma {:induction false} FallbackCosts(k: Engine, p: real, q: real, amount: real)
    requires Sensible(k) && p <= q
    ensures var c, d := ExactCosts(k, p, amount), ExactCosts(k, q, amount);
            Falls(k, p, q, amount) ==>
              && k.multiplier != 0.0
              && 0.0 <= c.allow <= d.allow && d.decline <= c.decline
              && (d.decline < k.fpCost || (d.decline == 0.0 && k.fpCost == 0.0))
  {
    CostsMove(k, p, q, amount);
    FraudCost(k, p, amount);
    FraudCost(k, q, amount);
    DeclineCost(k, q, amount);
    ChoiceInCents(k, p, amount);
    ChoiceInCents(k, q, amount);
    DeclineCost(k, p, amount);
  }

  lemma {:induction false} ReversalHasLevel(k: Engine, p: real, q: real, amount: real)
    requires Sensible(k) && p <= q
    ensures Falls(k, p, q, amount) ==> k.multiplier != 0.0 && exists n: nat :: ReversesAt(k, n)
  {
    if Falls(k, p, q, amount) {
      FallbackCosts(k, p, q, amount);
      ChoiceInCents(k, p, amount);
      ChoiceInCents(k, q, amount);
      var n := FallbackHasLevel(k, ExactCosts(k, p, amount), ExactCosts(k, q, amount));
    }
  }

  // two costs of allowing that round to n, review cheaper than n at the lower one only
  lemma {:induction false} LevelPoints(k: Engine, n: nat) returns (x: real, y: real)
    requires Sensible(k) && ReversesAt(k, n)
    ensures 0.0 <= x <= y && y > 0.0 && HalfEven(x) == n == HalfEven(y)
    ensures HalfEven(ReviewCents(k, x)) < n <= HalfEven(ReviewCents(k, y))
  {
    var edge := n as real - 0.5;
    x, y := Max(edge, 0.0), edge + 1.0;
    if n % 2 != 0 {
      x := edge + Min(edge - ReviewCents(k, edge), 0.5);
      y := edge + 1.0 - Min((ReviewCents(k, edge + 1.0) - edge) / 2.0, 0.5);
      ReviewRises(k, edge, x);
      ReviewRises(k, y, edge + 1.0);
    }
    RoundsBelow(x, n);
    RoundsBelow(x, n + 1);
    RoundsBelow(y, n);
    RoundsBelow(y, n + 1);
    RoundsBelow(ReviewCents(k, x), n);
    RoundsBelow(ReviewCents(k, y), n);
  }

  lemma {:induction false} Over(a: real, w: real)
    requires 0.0 <= a <= w && w > 0.0
    ensures 0.0 <= a / w <= 1.0 && (a / w) * w == a
  {
    QuotientTimes(a, w);
    QuotientBelow(a, w, 0.0);
    QuotientBelow(a, w, 1.0);
  }

  // a scale at which y has a small enough share of a decline's cost
  lemma {:induction false} LargeScale(y: real, f: real, gap: real, least: real) returns (w: real)
    requires 0.0 <= y && 0.0 <= f && 0.0 < gap && 0.0 <= least
    ensures w > y && w > least && (y / w) * f < gap
  {
    var u := (y * f) / gap;
    QuotientTimes(y * f, gap);
    ScaleOrder(0.0, y, f);
    QuotientBelow(y * f, gap, 0.0);
    w := y + least + u + 1.0;
    SmallShare(y, f, gap, u, w);
  }

  lemma {:induction false} SmallShare(y: real, f: real, gap: real, u: real, w: real)
    requires 0.0 < gap && u * gap == y * f && u < w && w > 0.0
    ensures (y / w) * f < gap
  {
    PositiveProduct(w - u, gap);
    assert (w - u) * gap == w * gap - u * gap;
    assert (y / w) * f == (y * f) / w;
    QuotientBelow(y * f, w, gap);
  }

  // a probability a/w on a stake of w/100 makes allowing cost a cents
  lemma {:induction false} CostsAtScale(k: Engine, a: real, w: real)
    requires Sensible(k) && 0.0 <= a <= w && w > 0.0 && k.multiplier > 0.0 && w >= 100.0 * k.multiplier
    ensures var c := ExactCosts(k, a / w, (w / 100.0) / k.multiplier);
            0.0 <= a / w <= 1.0 && c.allow * 100.0 == a && c.decline == (1.0 - a / w) * k.fpCost
  {
    Over(a, w);
    QuotientBelow(w / 100.0, k.multiplier, 1.0);
    QuotientTimes(w / 100.0, k.multiplier);
    assert Stake(k, (w / 100.0) / k.multiplier) == w / 100.0;
    assert ((a / w) * (w / 100.0)) * 100.0 == (a / w) * w;
  }

  lemma {:induction false} Fallback(n: nat, c: Costs, d: Costs)
    requires HalfEven(c.allow * 100.0) == n == HalfEven(d.allow * 100.0)
    requires HalfEven(c.review * 100.0) < n <= HalfEven(d.review * 100.0)
    requires n as real - 0.5 < d.decline * 100.0 && d.decline <= c.decline
    ensures InCents(c) == ManualReview && InCents(d) == Allow
  {
    DeclineCents(n, d.decline, c.decline);
    assert HalfEven(c.review * 100.0) < n <= HalfEven(c.decline * 100.0);
    assert n <= HalfEven(d.review * 100.0) && n <= HalfEven(d.decline * 100.0);
  }

  lemma {:induction false} DeclineCents(n: nat, d: real, c: real)
    requires n as real - 0.5 < d * 100.0 && d <= c
    ensures n <= HalfEven(d * 100.0) <= HalfEven(c * 100.0)
  {
    RoundsBelow(d * 100.0, n);
    HalfEvenMonotone(d * 100.0, c * 100.0);
  }

  lemma {:induction false} DeclineShare(x: real, f: real, c: real, edge: real)
    requires x * (100.0 * f) < 100.0 * f - edge && c == (1.0 - x) * f
    ensures edge < c * 100.0
  {
    Complement(x, f);
    assert x * (100.0 * f) == 100.0 * (x * f);
  }

  // two probabilities and an amount at which a level of reversal is met
  lemma {:induction false} LevelIsMet(k: Engine, n: nat, x: real, y: real) returns (p: real, q: real, amount: real)
    requires Sensible(k) && k.multiplier > 0.0 && 0.0 <= x <= y && n as real - 0.5 < 100.0 * k.fpCost
    ensures p <= q
    ensures var c, d := ExactCosts(k, p, amount), ExactCosts(k, q, amount);
            c.allow * 100.0 == x && d.allow * 100.0 == y && n as real - 0.5 < d.decline * 100.0
  {
    var edge := n as real - 0.5;
    var w := LargeScale(y, 100.0 * k.fpCost, 100.0 * k.fpCost - edge, 100.0 * k.multiplier);
    amount := (w / 100.0) / k.multiplier;
    p, q := x / w, y / w;
    CostsAtScale(k, x, w);
    CostsAtScale(k, y, w);
    ShareOrder(x, y, w);
    DeclineShare(q, k.fpCost, ExactCosts(k, q, amount).decline, edge);
  }

  lemma {:induction false} ShareOrder(x: real, y: real, w: real)
    requires x <= y && w > 0.0
    ensures x / w <= y / w
  {
    QuotientTimes(y, w);
    QuotientBelow(x, w, y / w);
  }

  lemma {:induction false} FallReverses(k: Engine, p: real, q: real, amount: real)
    ensures p <= q && Falls(k, p, q, amount) ==> !NeverReverses(k)
  {
    if p <= q && Falls(k, p, q, amount) {
      assert Rank(SelectAction(k, p, amount, true)) > Rank(SelectAction(k, q, amount, true));
    }
  }

  // any level of reversal is met at some amount
  lemma {:induction false} LevelReverses(k: Engine, n: nat)
    requires Sensible(k) && k.multiplier > 0.0 && ReversesAt(k, n)
    ensures !NeverReverses(k)
  {
    var x, y := LevelPoints(k, n);
    var p, q, amount := LevelIsMet(k, n, x, y);
    ChoiceInCents(k, p, amount);
    ChoiceInCents(k, q, amount);
    CostsMove(k, p, q, amount);
    Fallback(n, ExactCosts(k, p, amount), ExactCosts(k, q, amount));
    FallReverses(k, p, q, amount);
  }

  // The rounded choice of an engine moves only towards DECLINE, for all amounts, exactly when fraud costs
  // nothing or there is no level of reversal.
  lemma {:induction false} NeverReversesIff(k: Engine)
    requires Sensible(k)
    ensures NeverReverses(k) <==> k.multiplier == 0.0 || forall n: nat :: !ReversesAt(k, n)
  {
    if n: nat :| k.multiplier != 0.0 && ReversesAt(k, n) {
      LevelReverses(k, n);
    } else {
      forall p, q, amount, allowReview | p <= q
        ensures Rank(SelectAction(k, p, amount, allowReview)) <= Rank(SelectAction(k, q, amount, allowReview))
      {
        RoundedChoiceMonotoneExceptNearTies(k, p, q, amount, allowReview);
        ReversalHasLevel(k, p, q, amount);
      }
    }
  }

  // ---------------------------------------------------------------------------
  // One level decides
  // ---------------------------------------------------------------------------

  // the cost of allowing, in cents, from which review is the cheaper of the two
  function BreakEvenCents(k: Engine): real
    requires k.residualRate != 1.0
  {
    100.0 * k.reviewCost / (1.0 - k.residualRate)
  }

  function LevelAboveBreakEven(k: Engine): nat
    requires k.reviewCost >= 0.0 && k.residualRate < 1.0
  {
    QuotientBelow(100.0 * k.reviewCost, 1.0 - k.residualRate, 0.0);
    (BreakEvenCents(k) + 0.5).Floor + 1
  }

  lemma {:induction false} BreakEvenSplits(k: Engine, x: real)
    requires Sensible(k) && k.residualRate < 1.0
    ensures ReviewCents(k, x) < x <==> BreakEvenCents(k) < x
  {
    var c, m := 100.0 * k.reviewCost, 1.0 - k.residualRate;
    QuotientBelow(c, m, x);
    Complement(k.residualRate, x);
    assert x * m == x - k.residualRate * x;
  }

  lemma {:induction false} LevelsAboveBreakEven(k: Engine, n: nat)
    requires Sensible(k) && k.reviewCost >= 0.0 && k.residualRate < 1.0
    ensures ReviewCents(k, Max(n as real - 0.5, 0.0)) < n as real - 0.5 <==> LevelAboveBreakEven(k) <= n
  {
    var edge := n as real - 0.5;
    BreakEvenSplits(k, edge);
    if n == 0 {
      ReviewAtLeast(k, 0.0);
    } else {
      assert LevelAboveBreakEven(k) <= n <==> BreakEvenCents(k) + 0.5 < n as real;
    }
  }

  // only the first level above break-even can reverse
  lemma {:induction false} LowestLevelReverses(k: Engine, n: nat)
    requires Sensible(k) && k.reviewCost >= 0.0 && k.residualRate < 1.0 && ReversesAt(k, n)
    ensures ReversesAt(k, LevelAboveBreakEven(k))
  {
    var l := LevelAboveBreakEven(k);
    LevelsAboveBreakEven(k, n);
    LevelsAboveBreakEven(k, l);
    if l < n {
      BreakEvenStrict(k, l as real + 0.5, n as real + 0.5);
    }
  }

  lemma {:induction false} ReviewAtLeast(k: Engine, x: real)
    requires Sensible(k) && k.reviewCost >= 0.0 && x >= 0.0
    ensures ReviewCents(k, x) >= 0.0
  {
    ScaleOrder(0.0, k.residualRate, x);
  }

  lemma {:induction false} BreakEvenStrict(k: Engine, x: real, y: real)
    requires Sensible(k) && k.residualRate < 1.0 && x < y
    ensures ReviewCents(k, y) - ReviewCents(k, x) < y - x
  {
    var part := PartOfGap(1.0 - k.residualRate, y - x);
    Complement(k.residualRate, y - x);
    Distribute(k.residualRate, x, y);
  }

  lemma {:induction false} FullRateHasNoLevel(k: Engine, n: nat)
    requires Sensible(k) && k.reviewCost >= 0.0
    ensures ReversesAt(k, n) ==> k.residualRate < 1.0
  {
    if k.residualRate == 1.0 {
      var low := Max(n as real - 0.5, 0.0);
      assert ReviewCents(k, low) == 100.0 * k.reviewCost + low;
    }
  }

  // For a non-negative review cost one test decides: of the level just above break-even, where the
  // residual rate is below 1; at rate 1 nothing reverses.
  lemma {:induction false} OneLevelDecides(k: Engine)
    requires Sensible(k) && k.reviewCost >= 0.0
    ensures NeverReverses(k) <==>
            k.multiplier == 0.0 || k.residualRate == 1.0 || !ReversesAt(k, LevelAboveBreakEven(k))
  {
    NeverReversesIff(k);
    forall n: nat | ReversesAt(k, n)
      ensures k.residualRate < 1.0 && ReversesAt(k, LevelAboveBreakEven(k))
    {
      FullRateHasNoLevel(k, n);
      LowestLevelReverses(k, n);
    }
  }

  // the engine's default parameters
  function DefaultEngine(): Engine {
    Engine(500.0, 100.0, 1.0, 0.05)
  }

  // With its defaults the rounded choice moves only towards DECLINE.
  lemma {:induction false} DefaultsNeverReverse()
    ensures NeverReverses(DefaultEngine())
  {
    var k := DefaultEngine();
    var b := BreakEvenCents(k);
    QuotientBelow(10000.0, 0.95, 10526.3);
    QuotientBelow(10000.0, 0.95, 10526.4);
    assert 10526.3 < b < 10526.4;
    assert LevelAboveBreakEven(k) == 10527;
    assert ReviewCents(k, 10527.5) == 10526.375;
    OneLevelDecides(k);
  }

  // an engine with a given rate that reverses at the first level high enough for a non-negative review cost
  lemma {:induction false} RateReverses(rate: real) returns (k: Engine)
    requires 0.0 < rate < 1.0
    ensures Sensible(k) && k.reviewCost >= 0.0 && k.residualRate == rate && !NeverReverses(k)
  {
    var u := 1.0 / (1.0 - rate);
    QuotientTimes(1.0, 1.0 - rate);
    QuotientBelow(1.0, 1.0 - rate, 0.0);
    var n: nat := u.Floor + 1;
    var c := n as real - 0.5 - rate * n as real;
    EnoughLevels(rate, n as real, u);
    k := Engine(n as real, c / 100.0, 1.0, rate);
    Distribute(rate, n as real - 0.5, n as real);
    Distribute(rate, n as real, n as real + 0.5);
    assert ReversesAt(k, n);
    LevelReverses(k, n);
  }

  lemma {:induction false} EnoughLevels(rate: real, n: real, u: real)
    requires rate < 1.0 && u * (1.0 - rate) == 1.0 && u <= n
    ensures n - rate * n >= 1.0
  {
    ScaleOrder(u, n, 1.0 - rate);
    assert n * (1.0 - rate) == n - rate * n;
  }

  // The rates at which no engine with a non-negative review cost reverses are 0 and 1.
  lemma {:induction false} RateNeverReversesIff(rate: real)
    requires 0.0 <= rate <= 1.0
    ensures (forall k | Sensible(k) && k.reviewCost >= 0.0 && k.residualRate == rate :: NeverReverses(k))
            <==> rate == 0.0 || rate == 1.0
  {
    if 0.0 < rate < 1.0 {
      var k := RateReverses(rate);
    } else {
      forall k | Sensible(k) && k.reviewCost >= 0.0 && k.residualRate == rate ensures NeverReverses(k) {
        OneLevelDecides(k);
      }
    }
  }
}
