// The two forms of the decline decision: the scorer compares two expected losses, the gateway
// compares the probability with a hurdle; and the shadow floor that raises the hurdle.
// Sources: ml-service/serve.py, ml-service/monitoring/production_shadow_gateway.py

module BayesRisk {
  import opened Common

  datatype Decision = Allow | Decline

  // cost of a wrongly declined payment, and the multiple of the amount lost to a fraud
  datatype Costs = Costs(falsePositive: real, surcharge: real)

  const DEFAULT_COSTS := Costs(25.0, 1.05)
  const DEFAULT_FLOOR := 0.040

  function LossAllow(k: Costs, p: real, amount: real): real {
    p * amount * k.surcharge
  }

  function LossDecline(k: Costs, p: real): real {
    (1.0 - p) * k.falsePositive
  }

  function Scorer(k: Costs, p: real, amount: real): Decision {
    if LossDecline(k, p) < LossAllow(k, p, amount) then Decline else Allow
  }

  function Exposure(k: Costs, amount: real): real {
    k.surcharge * amount + k.falsePositive
  }

  function Hurdle(k: Costs, amount: real): real {
    if Exposure(k, amount) > 0.0 then k.falsePositive / Exposure(k, amount) else 0.5
  }

  function Gateway(k: Costs, p: real, amount: real): Decision {
    if p > Hurdle(k, amount) then Decline else Allow
  }

  function Shadow(k: Costs, floor: real, p: real, amount: real): Decision {
    if p > Hurdle(k, amount) && p >= floor then Decline else Allow
  }

  predicate IsFlip(k: Costs, floor: real, p: real, amount: real) {
    Gateway(k, p, amount) == Decline && Shadow(k, floor, p, amount) == Allow
  }

  function Loss(k: Costs, d: Decision, p: real, amount: real): real {
    if d == Allow then LossAllow(k, p, amount) else LossDecline(k, p)
  }

  lemma {:induction false} LossGap(k: Costs, p: real, amount: real)
    ensures LossAllow(k, p, amount) - LossDecline(k, p) == p * Exposure(k, amount) - k.falsePositive
  {
    assert p * Exposure(k, amount) == p * (k.surcharge * amount) + p * k.falsePositive;
    assert p * (k.surcharge * amount) == p * amount * k.surcharge;
  }

  // what an action costs once it is known whether the payment was a fraud
  function Outcome(k: Costs, d: Decision, fraud: bool, amount: real): real {
    match d
    case Allow => if fraud then k.surcharge * amount else 0.0
    case Decline => if fraud then 0.0 else k.falsePositive
  }

  // the losses that the scorer compares are the means of the two outcomes
  lemma {:induction false} LossIsMean(k: Costs, d: Decision, p: real, amount: real)
    ensures Loss(k, d, p, amount) == p * Outcome(k, d, true, amount) + (1.0 - p) * Outcome(k, d, false, amount)
  {
    assert p * (k.surcharge * amount) == p * amount * k.surcharge;
  }

  lemma {:induction false} HurdleIsLossTest(k: Costs, p: real, amount: real)
    requires Exposure(k, amount) > 0.0
    ensures Gateway(k, p, amount) == Scorer(k, p, amount)
  {
    var d := Exposure(k, amount);
    LossGap(k, p, amount);
    QuotientBelow(k.falsePositive, d, p);
  }

  // The scorer and the gateway decide alike at every probability exactly when the exposure is
  // positive, that is, whenever the gateway does not fall back on its constant hurdle of one half.
  lemma {:induction false} FormsAgreeIff(k: Costs, amount: real)
    requires k.falsePositive >= 0.0
    ensures (forall p :: 0.0 <= p <= 1.0 ==> Scorer(k, p, amount) == Gateway(k, p, amount))
            <==> Exposure(k, amount) > 0.0
    ensures Exposure(k, amount) <= 0.0 ==> forall p :: Gateway(k, p, amount) == Decline <==> p > 0.5
  {
    if Exposure(k, amount) > 0.0 {
      forall p | 0.0 <= p <= 1.0 ensures Scorer(k, p, amount) == Gateway(k, p, amount) {
        HurdleIsLossTest(k, p, amount);
      }
    } else {
      LossGap(k, 1.0, amount);
      assert Scorer(k, 1.0, amount) != Gateway(k, 1.0, amount);
    }
  }

  // With any costs and a positive exposure both forms make the same decision, and it carries the least
  // expected loss of the two actions.
  lemma {:induction false} EnforcedDecisionIsOptimal(k: Costs, p: real, amount: real)
    requires Exposure(k, amount) > 0.0
    ensures Scorer(k, p, amount) == Gateway(k, p, amount)
    ensures forall d :: Loss(k, Gateway(k, p, amount), p, amount) <= Loss(k, d, p, amount)
  {
    HurdleIsLossTest(k, p, amount);
  }

  // The production costs have a positive exposure at every non-negative amount.
  lemma {:induction false} DefaultDecisionIsOptimal(p: real, amount: real)
    requires amount >= 0.0
    ensures Exposure(DEFAULT_COSTS, amount) > 0.0
    ensures Gateway(DEFAULT_COSTS, p, amount) == Decline <==> 25.0 < p * (1.05 * amount + 25.0)
    ensures Scorer(DEFAULT_COSTS, p, amount) == Gateway(DEFAULT_COSTS, p, amount)
    ensures forall d ::
              Loss(DEFAULT_COSTS, Gateway(DEFAULT_COSTS, p, amount), p, amount) <= Loss(DEFAULT_COSTS, d, p, amount)
  {
    EnforcedDecisionIsOptimal(DEFAULT_COSTS, p, amount);
    LossGap(DEFAULT_COSTS, p, amount);
  }

  // The shadow policy never declines what production allows, and what a flip gives up is the loss
  // gap, which is positive and below floor * exposure - cost.
  lemma {:induction false} ShadowNeverStricter(k: Costs, floor: real, p: real, amount: real)
    requires Exposure(k, amount) > 0.0
    ensures Shadow(k, floor, p, amount) == Decline ==> Gateway(k, p, amount) == Decline
    ensures IsFlip(k, floor, p, amount) <==> Hurdle(k, amount) < p < floor
    ensures IsFlip(k, floor, p, amount) ==>
              0.0 < LossAllow(k, p, amount) - LossDecline(k, p) < floor * Exposure(k, amount) - k.falsePositive
  {
    LossGap(k, p, amount);
    var d := Exposure(k, amount);
    if IsFlip(k, floor, p, amount) {
      QuotientBelow(k.falsePositive, d, p);
      assert (floor - p) * d > 0.0;
      assert (floor - p) * d == floor * d - p * d;
    }
  }

  // Some probability flips at this amount exactly when the false-positive cost is below the floor's
  // share of the exposure.
  lemma {:induction false} FlipPossibleIff(k: Costs, floor: real, amount: real)
    requires Exposure(k, amount) > 0.0 && 0.0 < floor <= 1.0 && k.falsePositive >= 0.0
    ensures (exists p :: 0.0 <= p <= 1.0 && IsFlip(k, floor, p, amount))
            <==> k.falsePositive < floor * Exposure(k, amount)
  {
    QuotientBelow(k.falsePositive, Exposure(k, amount), floor);
    QuotientBelow(k.falsePositive, Exposure(k, amount), 0.0);
    var h := Hurdle(k, amount);
    if h < floor {
      assert IsFlip(k, floor, (h + floor) / 2.0, amount);
    }
  }

  // With the production costs and floor: only amounts above 4000/7 (about 571.43) can flip, and all do.
  lemma {:induction false} DefaultFlipThreshold(amount: real)
    requires amount >= 0.0
    ensures (exists p :: 0.0 <= p <= 1.0 && IsFlip(DEFAULT_COSTS, DEFAULT_FLOOR, p, amount)) <==> amount > 4000.0 / 7.0
  {
    FlipPossibleIff(DEFAULT_COSTS, DEFAULT_FLOOR, amount);
  }
}
