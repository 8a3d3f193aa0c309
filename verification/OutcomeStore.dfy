// The shadow evaluation store: immutable prediction snapshots, delayed outcomes with conflict
// resolution, and the promotion gates that read them.
// Source: ml-service/evaluation/shadow_evaluator.py

module OutcomeStore {
  import opened Common

  type Id = string

  const LIVE := "LIVE_PRODUCTION"
  const SYNTHETIC := "SYNTHETIC"
  const REPLAY := "REPLAY"

  datatype Telemetry = Telemetry(
    id: Id, provenance: string, isSynthetic: bool, isReplay: bool, environment: string,
    timestamp: int, disagreement: bool, payload: string)

  // payload stands for the fields that are copied and not read here
  datatype Prediction = Prediction(id: Id, provenance: string, environment: string, timestamp: int, disagreement: bool,
    payload: string)

  datatype Label = Label(isFraud: int, source: string, at: int, matured: bool, conflict: bool)

  datatype Store = Store(preds: map<Id, Prediction>, labels: map<Id, Label>)

  datatype RecordResult = Recorded(id: Id) | MissingId

  datatype AttributeResult = Orphan | PredatesTransaction
                           | Noop(matured: bool) | ConflictResolved(isFraud: int, matured: bool)
                           | Attributed(matured: bool)

  function Snapshot(t: Telemetry): Prediction {
    var prov := if t.provenance != "" then t.provenance
                else if t.isSynthetic || t.environment == "test" then SYNTHETIC
                else if t.isReplay then REPLAY else LIVE;
    Prediction(t.id, prov, t.environment, t.timestamp, t.disagreement, t.payload)
  }

  function Record(s: Store, t: Telemetry): Store {
    if t.id == "" || t.id in s.preds then s else s.(preds := s.preds[t.id := Snapshot(t)])
  }

  predicate Accepts(s: Store, id: Id, at: int) {
    id in s.preds && at >= s.preds[id].timestamp
  }

  function Matured(p: Prediction, at: int, minSeconds: int): bool {
    at - p.timestamp >= minSeconds || minSeconds == 0
  }

  function Attribute(s: Store, minSeconds: int, id: Id, isFraud: int, source: string, at: int): Store {
    if !Accepts(s, id, at) then s
    else
      var matured := Matured(s.preds[id], at, minSeconds);
      if id !in s.labels then s.(labels := s.labels[id := Label(isFraud, source, at, matured, false)])
      else if s.labels[id].isFraud == isFraud then s
      else
        var resolved := if s.labels[id].isFraud == 1 || isFraud == 1 then 1 else 0;
        s.(labels := s.labels[id := Label(resolved, source + "_OVERRIDE", at, matured, true)])
  }

  class ShadowEvaluationTelemetryStore {
    const minMaturationSeconds: int
    var predictions: map<Id, Prediction>
    var labels: map<Id, Label>

    ghost function State(): Store
      reads this
    {
      Store(predictions, labels)
    }

    constructor (minSeconds: int)
      ensures minMaturationSeconds == minSeconds && State() == Store(map[], map[])
    {
      minMaturationSeconds, predictions, labels := minSeconds, map[], map[];
    }

    method RecordPrediction(t: Telemetry) returns (r: RecordResult)
      modifies this
      ensures State() == Record(old(State()), t)
      ensures r == if t.id == "" then MissingId else Recorded(t.id)
    {
      if t.id == "" {
        return MissingId;
      }
      if t.id in predictions {
        return Recorded(t.id);
      }
      var prov := t.provenance;
      if prov == "" {
        if t.isSynthetic || t.environment == "test" {
          prov := SYNTHETIC;
        } else if t.isReplay {
          prov := REPLAY;
        } else {
          prov := LIVE;
        }
      }
      predictions := predictions[t.id := Prediction(t.id, prov, t.environment, t.timestamp, t.disagreement, t.payload)];
      r := Recorded(t.id);
    }

    method AttributeOutcome(id: Id, isFraud: int, source: string, at: int) returns (r: AttributeResult)
      modifies this
      ensures State() == Attribute(old(State()), minMaturationSeconds, id, isFraud, source, at)
      ensures r == Orphan <==> id !in predictions
      ensures r == PredatesTransaction <==> id in predictions && at < predictions[id].timestamp
      ensures r.Noop? || r.ConflictResolved? || r.Attributed? ==> id in labels && r.matured == labels[id].matured
      ensures r.Attributed? ==> id !in old(labels)
      ensures r.Noop? ==> id in old(labels) && old(labels)[id].isFraud == isFraud
      ensures r.ConflictResolved? ==>
                id in old(labels) && old(labels)[id].isFraud != isFraud && r.isFraud == labels[id].isFraud
    {
      if id !in predictions {
        return Orphan;
      }
      var predTime := predictions[id].timestamp;
      if at < predTime {
        return PredatesTransaction;
      }
      var elapsed := at - predTime;
      var matured := elapsed >= minMaturationSeconds || minMaturationSeconds == 0;
      if id in labels {
        var existing := labels[id];
        if existing.isFraud == isFraud {
          return Noop(existing.matured);
        }
        var resolved := if existing.isFraud == 1 || isFraud == 1 then 1 else 0;
        labels := labels[id := Label(resolved, source + "_OVERRIDE", at, matured, true)];
        return ConflictResolved(resolved, matured);
      }
      labels := labels[id := Label(isFraud, source, at, matured, false)];
      r := Attributed(matured);
    }
  }

  // ---------------------------------------------------------------------------
  // Runs
  // ---------------------------------------------------------------------------

  datatype Op = Rec(t: Telemetry) | Attr(id: Id, isFraud: int, source: string, at: int)

  function Step(minSeconds: int, s: Store, op: Op): Store {
    match op
    case Rec(t) => Record(s, t)
    case Attr(id, isFraud, source, at) => Attribute(s, minSeconds, id, isFraud, source, at)
  }

  function Run(minSeconds: int, ops: seq<Op>): Store {
    if ops == [] then Store(map[], map[]) else Step(minSeconds, Run(minSeconds, ops[..|ops| - 1]), ops[|ops| - 1])
  }

  ghost predicate Inv(s: Store, minSeconds: int) {
    && (forall id :: id in s.preds ==> s.preds[id].id == id)
    && (forall id :: id in s.labels ==>
          && id in s.preds && s.labels[id].at >= s.preds[id].timestamp
          && s.labels[id].matured == Matured(s.preds[id], s.labels[id].at, minSeconds))
  }

  lemma {:induction false} RunKeepsInv(minSeconds: int, ops: seq<Op>)
    ensures Inv(Run(minSeconds, ops), minSeconds)
  {
    if ops != [] {
      RunKeepsInv(minSeconds, ops[..|ops| - 1]);
    }
  }

  // call i is the first one that records id
  ghost predicate FirstRecord(ops: seq<Op>, i: nat, id: Id) {
    && i < |ops| && ops[i].Rec? && ops[i].t.id == id && id != ""
    && forall j :: 0 <= j < i ==> !(ops[j].Rec? && ops[j].t.id == id)
  }

  // The stored snapshot is the one first recorded for the id, whatever is recorded or attributed later.
  lemma {:induction false} SnapshotIsFirst(minSeconds: int, ops: seq<Op>, i: nat, id: Id)
    requires FirstRecord(ops, i, id)
    ensures id in Run(minSeconds, ops).preds && Run(minSeconds, ops).preds[id] == Snapshot(ops[i].t)
    decreases |ops|
  {
    var n := |ops| - 1;
    if i < n {
      assert forall j :: 0 <= j < n ==> ops[..n][j] == ops[j];
      SnapshotIsFirst(minSeconds, ops[..n], i, id);
    } else {
      assert forall j :: 0 <= j < n ==> ops[..n][j] == ops[j];
      Unrecorded(minSeconds, ops[..n], id);
    }
  }

  // and an id never recorded has neither snapshot nor label
  lemma {:induction false} Unrecorded(minSeconds: int, ops: seq<Op>, id: Id)
    requires forall j :: 0 <= j < |ops| ==> !(ops[j].Rec? && ops[j].t.id == id)
    ensures id !in Run(minSeconds, ops).preds && id !in Run(minSeconds, ops).labels
  {
    if ops != [] {
      var n := |ops| - 1;
      assert forall j :: 0 <= j < n ==> ops[..n][j] == ops[j];
      Unrecorded(minSeconds, ops[..n], id);
    }
  }

  // the telemetry names no provenance and is marked as neither synthetic, test nor replay
  predicate PlainProduction(t: Telemetry) {
    t.provenance == "" && !t.isSynthetic && t.environment != "test" && !t.isReplay
  }

  // Where the prediction stored under an id comes from, and its other fields, by the call that first recorded it.
  lemma {:induction false} ProvenanceExact(minSeconds: int, ops: seq<Op>, i: nat, id: Id)
    requires FirstRecord(ops, i, id)
    ensures id in Run(minSeconds, ops).preds
    ensures var p, t := Run(minSeconds, ops).preds[id], ops[i].t;
            && p.id == id && p.environment == t.environment && p.timestamp == t.timestamp
            && p.disagreement == t.disagreement && p.payload == t.payload
            && (t.provenance != "" ==> p.provenance == t.provenance)
            && (p.provenance == LIVE <==> t.provenance == LIVE || PlainProduction(t))
            && (p.provenance == SYNTHETIC <==>
                  t.provenance == SYNTHETIC || (t.provenance == "" && (t.isSynthetic || t.environment == "test")))
            && (p.provenance == REPLAY <==>
                  t.provenance == REPLAY
                  || (t.provenance == "" && !t.isSynthetic && t.environment != "test" && t.isReplay))
  {
    SnapshotIsFirst(minSeconds, ops, i, id);
  }

  lemma {:induction false} FirstOf(ops: seq<Op>, j: nat, id: Id) returns (i: nat)
    requires j < |ops| && ops[j].Rec? && ops[j].t.id == id && id != ""
    ensures FirstRecord(ops, i, id)
    decreases j
  {
    if k: nat :| k < j && ops[k].Rec? && ops[k].t.id == id {
      i := FirstOf(ops, k, id);
    } else {
      i := j;
    }
  }

  lemma {:induction false} NoEmptyId(minSeconds: int, ops: seq<Op>)
    ensures "" !in Run(minSeconds, ops).preds
  {
    if ops != [] {
      NoEmptyId(minSeconds, ops[..|ops| - 1]);
    }
  }

  // In every run the live predictions are exactly the ids whose first recording names live production, or names
  // nothing and carries no mark.
  lemma {:induction false} LiveIff(minSeconds: int, ops: seq<Op>, id: Id)
    ensures id in LivePredictions(Run(minSeconds, ops)) <==>
            exists i: nat :: FirstRecord(ops, i, id) && (ops[i].t.provenance == LIVE || PlainProduction(ops[i].t))
  {
    NoEmptyId(minSeconds, ops);
    if j: nat :| j < |ops| && ops[j].Rec? && ops[j].t.id == id && id != "" {
      var i := FirstOf(ops, j, id);
      forall k | FirstRecord(ops, k, id) ensures k == i {
      }
      ProvenanceExact(minSeconds, ops, i, id);
    } else if id != "" {
      Unrecorded(minSeconds, ops, id);
    }
  }

  // ---------------------------------------------------------------------------
  // The stored flag
  // ---------------------------------------------------------------------------

  ghost predicate Binary(ops: seq<Op>) {
    forall i :: 0 <= i < |ops| && ops[i].Attr? ==> ops[i].isFraud == 0 || ops[i].isFraud == 1
  }

  // call i attributes an outcome to id and is not refused
  ghost predicate Accepted(minSeconds: int, ops: seq<Op>, i: nat, id: Id) {
    i < |ops| && ops[i].Attr? && ops[i].id == id && Accepts(Run(minSeconds, ops[..i]), id, ops[i].at)
  }

  // some accepted outcome for id says fraud
  ghost predicate SaidFraud(minSeconds: int, ops: seq<Op>, id: Id) {
    exists i :: 0 <= i < |ops| && Accepted(minSeconds, ops, i, id) && ops[i].isFraud == 1
  }

  ghost predicate SaidAnything(minSeconds: int, ops: seq<Op>, id: Id) {
    exists i :: 0 <= i < |ops| && Accepted(minSeconds, ops, i, id)
  }

  lemma {:induction false} AcceptedPrefix(minSeconds: int, ops: seq<Op>, i: nat, id: Id)
    requires i < |ops| - 1
    ensures Accepted(minSeconds, ops, i, id) <==> Accepted(minSeconds, ops[..|ops| - 1], i, id)
  {
    assert ops[..|ops| - 1][..i] == ops[..i];
  }

  lemma {:induction false} SaidSnoc(minSeconds: int, ops: seq<Op>, id: Id)
    requires ops != []
    ensures var n := |ops| - 1; var now := Accepted(minSeconds, ops, n, id);
            && (SaidAnything(minSeconds, ops, id) <==> SaidAnything(minSeconds, ops[..n], id) || now)
            && (SaidFraud(minSeconds, ops, id) <==> SaidFraud(minSeconds, ops[..n], id) || (now && ops[n].isFraud == 1))
  {
    var n := |ops| - 1;
    forall i: nat | i < n ensures Accepted(minSeconds, ops, i, id) <==> Accepted(minSeconds, ops[..n], i, id) {
      AcceptedPrefix(minSeconds, ops, i, id);
    }
    assert forall i :: 0 <= i < n ==> ops[..n][i] == ops[i];
    if SaidAnything(minSeconds, ops[..n], id) {
      var i :| 0 <= i < n && Accepted(minSeconds, ops[..n], i, id);
      assert Accepted(minSeconds, ops, i, id);
    }
    if SaidFraud(minSeconds, ops[..n], id) {
      var i :| 0 <= i < n && Accepted(minSeconds, ops[..n], i, id) && ops[..n][i].isFraud == 1;
      assert Accepted(minSeconds, ops, i, id) && ops[i].isFraud == 1;
    }
  }

  // With 0/1 outcomes, an id has a label exactly when an outcome was accepted for it, and the stored
  // flag is the disjunction of all accepted outcomes, in whatever order they came.
  lemma {:induction false} FlagIsDisjunction(minSeconds: int, ops: seq<Op>, id: Id)
    requires Binary(ops)
    ensures var s := Run(minSeconds, ops);
            && (id in s.labels <==> SaidAnything(minSeconds, ops, id))
            && (id in s.labels ==> s.labels[id].isFraud == if SaidFraud(minSeconds, ops, id) then 1 else 0)
  {
    if ops != [] {
      var n := |ops| - 1;
      assert forall i :: 0 <= i < n ==> ops[..n][i] == ops[i];
      FlagIsDisjunction(minSeconds, ops[..n], id);
      SaidSnoc(minSeconds, ops, id);
      if SaidFraud(minSeconds, ops[..n], id) {
        assert SaidAnything(minSeconds, ops[..n], id);
      }
    }
  }

  // call i decides the label of id: it is the first accepted outcome, or contradicts all before it
  ghost predicate Decides(minSeconds: int, ops: seq<Op>, i: nat, id: Id) {
    && Accepted(minSeconds, ops, i, id)
    && (SaidAnything(minSeconds, ops[..i], id) ==> (ops[i].isFraud == 1 <==> !SaidFraud(minSeconds, ops[..i], id)))
  }

  lemma {:induction false} DecidesPrefix(minSeconds: int, ops: seq<Op>, i: nat, id: Id)
    requires i < |ops| - 1
    ensures Decides(minSeconds, ops, i, id) <==> Decides(minSeconds, ops[..|ops| - 1], i, id)
  {
    AcceptedPrefix(minSeconds, ops, i, id);
    assert ops[..|ops| - 1][..i] == ops[..i];
  }

  // The stored time and maturity are those of the last deciding outcome. A later outcome that repeats
  // the stored flag changes nothing, so a fraud first reported early stays immature for ever unless
  // a clean outcome contradicts it.
  lemma {:induction false} TimeIsOfLastDeciding(minSeconds: int, ops: seq<Op>, id: Id) returns (i: nat)
    requires Binary(ops) && id in Run(minSeconds, ops).labels
    ensures Decides(minSeconds, ops, i, id)
    ensures forall j: nat :: i < j < |ops| ==> !Decides(minSeconds, ops, j, id)
    ensures var s := Run(minSeconds, ops);
            && id in s.preds && s.labels[id].at == ops[i].at
            && (s.labels[id].matured <==> Matured(s.preds[id], ops[i].at, minSeconds))
  {
    var n := |ops| - 1;
    var init := ops[..n];
    assert forall k :: 0 <= k < n ==> init[k] == ops[k];
    RunKeepsInv(minSeconds, ops);
    FlagIsDisjunction(minSeconds, init, id);
    if Decides(minSeconds, ops, n, id) {
      i := n;
    } else {
      i := TimeIsOfLastDeciding(minSeconds, init, id);
      forall j: nat | j < n ensures Decides(minSeconds, ops, j, id) <==> Decides(minSeconds, init, j, id) {
        DecidesPrefix(minSeconds, ops, j, id);
      }
    }
  }

  lemma {:induction false} DecisionIsWritten(minSeconds: int, ops: seq<Op>, id: Id)
    requires Binary(ops) && ops != []
    ensures var n := |ops| - 1; var s, t := Run(minSeconds, ops[..n]), Run(minSeconds, ops);
            if Decides(minSeconds, ops, n, id) then
              && id in t.labels && (t.labels[id].conflict <==> SaidAnything(minSeconds, ops[..n], id))
              && t.labels[id].source
                 == ops[n].source + (if SaidAnything(minSeconds, ops[..n], id) then "_OVERRIDE" else "")
            else
              id in t.labels ==> id in s.labels && t.labels[id] == s.labels[id]
  {
    var n := |ops| - 1;
    assert forall i :: 0 <= i < n ==> ops[..n][i] == ops[i];
    FlagIsDisjunction(minSeconds, ops[..n], id);
    assert ops[n].Attr? ==> ops[n].source + "" == ops[n].source;
  }

  // The stored source is that of the last deciding outcome, marked as an override and a conflict unless that
  // outcome was the first one accepted.
  lemma {:induction false} SourceIsOfLastDeciding(minSeconds: int, ops: seq<Op>, id: Id, i: nat)
    requires Binary(ops) && id in Run(minSeconds, ops).labels
    requires Decides(minSeconds, ops, i, id) && forall j: nat :: i < j < |ops| ==> !Decides(minSeconds, ops, j, id)
    ensures var l := Run(minSeconds, ops).labels[id];
            && (l.conflict <==> SaidAnything(minSeconds, ops[..i], id))
            && l.source == ops[i].source + (if SaidAnything(minSeconds, ops[..i], id) then "_OVERRIDE" else "")
  {
    var n := |ops| - 1;
    DecisionIsWritten(minSeconds, ops, id);
    if i < n {
      var init := ops[..n];
      assert forall k :: 0 <= k < n ==> init[k] == ops[k];
      forall j: nat | j < n ensures Decides(minSeconds, ops, j, id) <==> Decides(minSeconds, init, j, id) {
        DecidesPrefix(minSeconds, ops, j, id);
      }
      assert init[..i] == ops[..i];
      SourceIsOfLastDeciding(minSeconds, init, id, i);
    }
  }

  // ---------------------------------------------------------------------------
  // Matured labels and matured outcomes
  // ---------------------------------------------------------------------------

  // how long after its transaction an accepted outcome came
  function AgeOf(minSeconds: int, ops: seq<Op>, i: nat, id: Id): int
    requires i < |ops| && ops[i].Attr? && id in Run(minSeconds, ops[..i]).preds
  {
    ops[i].at - Run(minSeconds, ops[..i]).preds[id].timestamp
  }

  predicate Ripe(age: int, minSeconds: int) {
    age >= minSeconds || minSeconds == 0
  }

  // some accepted outcome for id says fraud, and came no earlier than the maturation time
  ghost predicate SaidFraudRipe(minSeconds: int, ops: seq<Op>, id: Id) {
    exists i :: 0 <= i < |ops| && Accepted(minSeconds, ops, i, id) && ops[i].isFraud == 1
      && Ripe(AgeOf(minSeconds, ops, i, id), minSeconds)
  }

  // the stored label says fraud and is matured, and such an outcome is behind it
  ghost predicate Evidenced(minSeconds: int, ops: seq<Op>, id: Id) {
    var s := Run(minSeconds, ops);
    id in s.labels && s.labels[id].isFraud == 1 && s.labels[id].matured ==> SaidFraudRipe(minSeconds, ops, id)
  }

  // every accepted outcome is one of these (flag, age) pairs
  ghost predicate Drawn(minSeconds: int, ops: seq<Op>, allowed: iset<(int, int)>) {
    forall i: nat, id :: Accepted(minSeconds, ops, i, id) ==> (ops[i].isFraud, AgeOf(minSeconds, ops, i, id)) in allowed
  }

  // both an early fraud and a ripe clean outcome may come
  ghost predicate Mixes(minSeconds: int, allowed: iset<(int, int)>) {
    && (exists age :: age >= 0 && !Ripe(age, minSeconds) && (1, age) in allowed)
    && (exists age :: age >= 0 && Ripe(age, minSeconds) && (0, age) in allowed)
  }

  lemma {:induction false} SnapshotStays(minSeconds: int, ops: seq<Op>, i: nat, id: Id)
    requires i <= |ops| && id in Run(minSeconds, ops[..i]).preds
    ensures id in Run(minSeconds, ops).preds && Run(minSeconds, ops).preds[id] == Run(minSeconds, ops[..i]).preds[id]
    decreases |ops|
  {
    if i < |ops| {
      assert ops[..|ops| - 1][..i] == ops[..i];
      SnapshotStays(minSeconds, ops[..|ops| - 1], i, id);
    } else {
      assert ops[..i] == ops;
    }
  }

  lemma {:induction false} UnmixedIsEvidenced(minSeconds: int, ops: seq<Op>, id: Id, allowed: iset<(int, int)>)
    requires Binary(ops) && Drawn(minSeconds, ops, allowed) && !Mixes(minSeconds, allowed)
    ensures Evidenced(minSeconds, ops, id)
  {
    var s := Run(minSeconds, ops);
    if id in s.labels && s.labels[id].isFraud == 1 && s.labels[id].matured {
      FlagIsDisjunction(minSeconds, ops, id);
      var f :| 0 <= f < |ops| && Accepted(minSeconds, ops, f, id) && ops[f].isFraud == 1;
      var d := TimeIsOfLastDeciding(minSeconds, ops, id);
      SnapshotStays(minSeconds, ops, d, id);
      var fraudAge, lastAge := AgeOf(minSeconds, ops, f, id), AgeOf(minSeconds, ops, d, id);
      assert (1, fraudAge) in allowed && fraudAge >= 0;
      assert Ripe(lastAge, minSeconds) && lastAge >= 0 && (ops[d].isFraud, lastAge) in allowed;
    }
  }

  // one payment and two outcomes for it
  function TwoOutcomes(flag: int, age: int, flag': int, age': int): seq<Op> {
    [Rec(Telemetry("a", LIVE, false, false, "production", 0, false, "")),
     Attr("a", flag, "x", age), Attr("a", flag', "y", age')]
  }

  lemma {:induction false} TwoOutcomesStates(minSeconds: int, flag: int, age: int, flag': int, age': int)
    requires age >= 0 && age' >= 0
    ensures var ops := TwoOutcomes(flag, age, flag', age'); var preds := map["a" := Snapshot(ops[0].t)];
            && Run(minSeconds, ops[..0]) == Store(map[], map[])
            && Run(minSeconds, ops[..1]) == Store(preds, map[])
            && Run(minSeconds, ops[..2])
                 == Store(preds, map["a" := Label(flag, "x", age, Ripe(age, minSeconds), false)])
            && Run(minSeconds, ops) == Store(preds, map["a" :=
                 if flag == flag' then Label(flag, "x", age, Ripe(age, minSeconds), false)
                 else
                   Label(if flag == 1 || flag' == 1 then 1 else 0, "y_OVERRIDE", age', Ripe(age', minSeconds), true)])
  {
    var ops := TwoOutcomes(flag, age, flag', age');
    assert ops[..0] == [] && ops[..1][..0] == [] && ops[..2][..1] == ops[..1] && ops[..3] == ops;
    assert Run(minSeconds, ops[..1]) == Record(Store(map[], map[]), ops[0].t);
    assert Run(minSeconds, ops[..2]) == Attribute(Run(minSeconds, ops[..1]), minSeconds, "a", flag, "x", age);
    assert Run(minSeconds, ops) == Attribute(Run(minSeconds, ops[..2]), minSeconds, "a", flag', "y", age');
    assert "y" + "_OVERRIDE" == "y_OVERRIDE";
  }

  // an early fraud outcome and a ripe clean one that contradicts it
  function MixedRun(early: int, ripe: int): seq<Op> {
    TwoOutcomes(1, early, 0, ripe)
  }

  // Contradicting a fraud label renews its date: the label is matured fraud, and no fraud outcome ever came
  // at or after the maturation time.
  lemma {:induction false} CleanOutcomeRipensFraud(minSeconds: int, early: int, ripe: int)
    requires early >= 0 && ripe >= 0 && !Ripe(early, minSeconds) && Ripe(ripe, minSeconds)
    ensures var ops := MixedRun(early, ripe); var s := Run(minSeconds, ops);
            && Binary(ops) && "a" in s.labels
            && s.labels["a"].isFraud == 1 && s.labels["a"].matured && s.labels["a"].at == ripe
            && !SaidFraudRipe(minSeconds, ops, "a") && !Evidenced(minSeconds, ops, "a")
            && Drawn(minSeconds, ops, iset{(1, early), (0, ripe)})
  {
    TwoOutcomesStates(minSeconds, 1, early, 0, ripe);
  }

  // after a minute's maturation time: fraud reported at second 1, contradicted at second 100
  lemma {:induction false} RipenedFraudExample()
    ensures var ops := MixedRun(1, 100); var s := Run(60, ops);
            && "a" in s.labels && s.labels["a"].isFraud == 1 && s.labels["a"].matured && s.labels["a"].at == 100
            && !SaidFraudRipe(60, ops, "a")
  {
    CleanOutcomeRipensFraud(60, 1, 100);
  }

  // In all runs over a set of outcomes, every matured fraud label has a matured fraud outcome behind it
  // exactly when the set does not hold both an early fraud and a ripe clean outcome.
  lemma {:induction false} EvidencedIffUnmixed(minSeconds: int, allowed: iset<(int, int)>)
    ensures (forall ops, id :: Binary(ops) && Drawn(minSeconds, ops, allowed) ==> Evidenced(minSeconds, ops, id))
            <==> !Mixes(minSeconds, allowed)
  {
    if Mixes(minSeconds, allowed) {
      var early :| early >= 0 && !Ripe(early, minSeconds) && (1, early) in allowed;
      var ripe :| ripe >= 0 && Ripe(ripe, minSeconds) && (0, ripe) in allowed;
      CleanOutcomeRipensFraud(minSeconds, early, ripe);
      assert Drawn(minSeconds, MixedRun(early, ripe), allowed);
    } else {
      forall ops, id | Binary(ops) && Drawn(minSeconds, ops, allowed) ensures Evidenced(minSeconds, ops, id) {
        UnmixedIsEvidenced(minSeconds, ops, id, allowed);
      }
    }
  }

  // an id with an accepted ripe fraud outcome has a matured fraud label
  ghost predicate Matures(minSeconds: int, ops: seq<Op>, id: Id) {
    SaidFraudRipe(minSeconds, ops, id) ==>
      var s := Run(minSeconds, ops); id in s.labels && s.labels[id].isFraud == 1 && s.labels[id].matured
  }

  // both a ripe fraud and an early outcome, of whichever flag, may come
  ghost predicate Delays(minSeconds: int, allowed: iset<(int, int)>) {
    && (exists age :: age >= 0 && Ripe(age, minSeconds) && (1, age) in allowed)
    && (exists flag, age :: 0 <= flag <= 1 && age >= 0 && !Ripe(age, minSeconds) && (flag, age) in allowed)
  }

  lemma {:induction false} UndelayedMatures(minSeconds: int, ops: seq<Op>, id: Id, allowed: iset<(int, int)>)
    requires Binary(ops) && Drawn(minSeconds, ops, allowed) && !Delays(minSeconds, allowed)
    ensures Matures(minSeconds, ops, id)
  {
    if SaidFraudRipe(minSeconds, ops, id) {
      var f :| 0 <= f < |ops| && Accepted(minSeconds, ops, f, id) && ops[f].isFraud == 1
        && Ripe(AgeOf(minSeconds, ops, f, id), minSeconds);
      assert SaidAnything(minSeconds, ops, id) && SaidFraud(minSeconds, ops, id);
      FlagIsDisjunction(minSeconds, ops, id);
      var d := TimeIsOfLastDeciding(minSeconds, ops, id);
      SnapshotStays(minSeconds, ops, d, id);
      var fraudAge, lastAge := AgeOf(minSeconds, ops, f, id), AgeOf(minSeconds, ops, d, id);
      assert (1, fraudAge) in allowed && fraudAge >= 0;
      assert (ops[d].isFraud, lastAge) in allowed && lastAge >= 0;
    }
  }

  // An early fraud outcome keeps a ripe one that repeats it from counting; an early clean one that comes in
  // after a ripe fraud outcome takes its date away.
  lemma {:induction false} EarlyOutcomeDelaysFraud(minSeconds: int, flag: int, early: int, ripe: int)
    returns (ops: seq<Op>)
    requires 0 <= flag <= 1 && early >= 0 && ripe >= 0 && !Ripe(early, minSeconds) && Ripe(ripe, minSeconds)
    ensures Binary(ops) && Drawn(minSeconds, ops, iset{(flag, early), (1, ripe)})
    ensures SaidFraudRipe(minSeconds, ops, "a") && !Matures(minSeconds, ops, "a")
  {
    if flag == 1 {
      ops := TwoOutcomes(1, early, 1, ripe);
      TwoOutcomesStates(minSeconds, 1, early, 1, ripe);
      assert Accepted(minSeconds, ops, 2, "a");
    } else {
      ops := TwoOutcomes(1, ripe, 0, early);
      TwoOutcomesStates(minSeconds, 1, ripe, 0, early);
      assert Accepted(minSeconds, ops, 1, "a");
    }
  }

  // In all runs over a set of outcomes, every ripe fraud outcome leaves a matured fraud label exactly when
  // the set does not hold both a ripe fraud and an early outcome.
  lemma {:induction false} MaturesIffUndelayed(minSeconds: int, allowed: iset<(int, int)>)
    ensures (forall ops, id :: Binary(ops) && Drawn(minSeconds, ops, allowed) ==> Matures(minSeconds, ops, id))
            <==> !Delays(minSeconds, allowed)
  {
    if Delays(minSeconds, allowed) {
      var ripe :| ripe >= 0 && Ripe(ripe, minSeconds) && (1, ripe) in allowed;
      var flag, early :| 0 <= flag <= 1 && early >= 0 && !Ripe(early, minSeconds) && (flag, early) in allowed;
      var ops := EarlyOutcomeDelaysFraud(minSeconds, flag, early, ripe);
      assert Drawn(minSeconds, ops, allowed);
    } else {
      forall ops, id | Binary(ops) && Drawn(minSeconds, ops, allowed) ensures Matures(minSeconds, ops, id) {
        UndelayedMatures(minSeconds, ops, id, allowed);
      }
    }
  }

  // ---------------------------------------------------------------------------
  // The promotion gates
  // ---------------------------------------------------------------------------

  datatype GateStatus = NotPopulated | InsufficientSample | OfflineValidated | LiveValidated | Failed

  function GateStatusOf(passed: bool, n: int, minimum: int, live: bool): GateStatus {
    if n == 0 then NotPopulated
    else if n < minimum then InsufficientSample
    else if passed then (if live then LiveValidated else OfflineValidated)
    else Failed
  }

  // what the numerical libraries report on the labelled sample and on the latencies
  datatype Statistics = Statistics(economicDelta: real, pValue: real, ece: real, p99: real)

  function LivePredictions(s: Store): set<Id> {
    set id | id in s.preds && s.preds[id].provenance == LIVE
  }

  function Matched(s: Store, requireMatured: bool, live: bool): set<Id> {
    set id | id in s.preds && (live ==> s.preds[id].provenance == LIVE) && id in s.labels
      && (requireMatured ==> s.labels[id].matured)
  }

  // the sum of the flags of the matched labels
  ghost function FraudSum(s: Store, ids: set<Id>): int
    requires forall id :: id in ids ==> id in s.labels
  {
    if ids == {} then 0
    else
      var id :| id in ids;
      s.labels[id].isFraud + FraudSum(s, ids - {id})
  }

  function Considered(s: Store, live: bool): set<Id> {
    set id | id in s.preds && (live ==> s.preds[id].provenance == LIVE)
  }

  function DisagreementRate(s: Store, live: bool): real {
    var all := Considered(s, live);
    if all == {} then 0.0
    else |Disagreeing(s, all)| as real / |all| as real
  }

  function Disagreeing(s: Store, ids: set<Id>): set<Id>
    requires ids <= s.preds.Keys
  {
    set id | id in ids && s.preds[id].disagreement
  }

  // the gate on the rate of disagreement, in whole numbers
  lemma {:induction false} RateAtMost(s: Store, live: bool)
    requires Considered(s, live) != {}
    ensures DisagreementRate(s, live) <= 0.150 <==>
            20 * |Disagreeing(s, Considered(s, live))| <= 3 * |Considered(s, live)|
  {
    var a, n := |Disagreeing(s, Considered(s, live))| as real, |Considered(s, live)| as real;
    QuotientBelow(a, n, 0.150);
  }

  lemma {:induction false} GateStatusIff(passed: bool, n: nat, minimum: nat, live: bool)
    requires minimum > 0
    ensures GateStatusOf(passed, n, minimum, live) == NotPopulated <==> n == 0
    ensures GateStatusOf(passed, n, minimum, live) == InsufficientSample <==> 0 < n < minimum
    ensures GateStatusOf(passed, n, minimum, live) == Failed <==> n >= minimum && !passed
    ensures GateStatusOf(passed, n, minimum, live) == LiveValidated <==> n >= minimum && passed && live
  {
  }

  // PROMOTE_TO_CANARY
  ghost predicate Promotes(s: Store, stats: Statistics, alpha: real, requireMatured: bool, live: bool) {
    var nLive := |LivePredictions(s)|;
    var matched := Matched(s, requireMatured, live);
    var frauds := FraudSum(s, matched);
    // the statistics are only computed on a large enough labelled sample; otherwise they default
    var enough := |matched| >= 100 && frauds >= 50;
    var delta := if enough then stats.economicDelta else 0.0;
    var pValue := if enough then stats.pValue else 1.0;
    var ece := if enough then stats.ece else 1.0;
    var p99 := if Considered(s, live) == {} then 0.0 else stats.p99;
    && GateStatusOf(nLive >= 10000, nLive, 10000, live) == LiveValidated
    && GateStatusOf(frauds >= 50, frauds, 50, live) == LiveValidated
    && GateStatusOf(delta < 0.0 && pValue < alpha, frauds, 50, live) == LiveValidated
    && GateStatusOf(ece <= 0.010, |matched|, 50, live) == LiveValidated
    && GateStatusOf(p99 <= 5.0 && p99 > 0.0, nLive, 1000, live) == LiveValidated
    && GateStatusOf(DisagreementRate(s, live) <= 0.150, nLive, 1000, live) == LiveValidated
  }

  // The six statuses together say exactly this; the hundred labelled outcomes are nowhere listed as a
  // gate, they come from the defaults used below that size.
  lemma {:induction false} PromotesIff(s: Store, stats: Statistics, alpha: real, requireMatured: bool, live: bool)
    ensures Promotes(s, stats, alpha, requireMatured, live) <==>
            && live
            && |LivePredictions(s)| >= 10000
            && |Matched(s, requireMatured, live)| >= 100
            && FraudSum(s, Matched(s, requireMatured, live)) >= 50
            && stats.economicDelta < 0.0 && stats.pValue < alpha
            && stats.ece <= 0.010
            && 0.0 < stats.p99 <= 5.0
            && 20 * |set id | id in s.preds && s.preds[id].provenance == LIVE && s.preds[id].disagreement|
               <= 3 * |LivePredictions(s)|
  {
    assert Disagreeing(s, LivePredictions(s))
        == set id | id in s.preds && s.preds[id].provenance == LIVE && s.preds[id].disagreement;
    if live {
      assert Considered(s, live) == LivePredictions(s);
      if LivePredictions(s) != {} {
        RateAtMost(s, live);
      }
    }
    if live && Considered(s, live) == {} {
      assert LivePredictions(s) == {};
    }
  }

  function FraudIds(s: Store, ids: set<Id>): set<Id> {
    set id | id in ids && id in s.labels && s.labels[id].isFraud == 1
  }

  // the sum does not depend on the order in which the labels are added up
  lemma {:induction false} FraudSumRemove(s: Store, ids: set<Id>, id: Id)
    requires id in ids && forall i :: i in ids ==> i in s.labels
    ensures FraudSum(s, ids) == s.labels[id].isFraud + FraudSum(s, ids - {id})
  {
    var first :| first in ids && FraudSum(s, ids) == s.labels[first].isFraud + FraudSum(s, ids - {first});
    if first != id {
      FraudSumRemove(s, ids - {first}, id);
      FraudSumRemove(s, ids - {id}, first);
      assert ids - {first} - {id} == ids - {id} - {first};
    }
  }

  // what the sum counts besides the distinct frauds: the flags other than 1
  lemma {:induction false} FraudSumSplits(s: Store, ids: set<Id>)
    requires forall id :: id in ids ==> id in s.labels
    ensures FraudSum(s, ids) == |FraudIds(s, ids)| + FraudSum(s, ids - FraudIds(s, ids))
  {
    if FraudIds(s, ids) == {} {
      assert ids - {} == ids;
    } else {
      var id :| id in FraudIds(s, ids);
      FraudSumRemove(s, ids, id);
      FraudSumSplits(s, ids - {id});
      assert FraudIds(s, ids - {id}) == FraudIds(s, ids) - {id};
      assert (ids - {id}) - FraudIds(s, ids - {id}) == ids - FraudIds(s, ids);
    }
  }

  lemma {:induction false} CleanSum(s: Store, ids: set<Id>)
    requires forall id :: id in ids ==> id in s.labels && s.labels[id].isFraud == 0
    ensures FraudSum(s, ids) == 0
  {
    if ids != {} {
      var id :| id in ids;
      FraudSumRemove(s, ids, id);
      CleanSum(s, ids - {id});
    }
  }

  ghost predicate BinaryLabels(s: Store, ids: set<Id>) {
    forall id :: id in ids ==> id in s.labels && (s.labels[id].isFraud == 0 || s.labels[id].isFraud == 1)
  }

  lemma {:induction false} FraudSumCounts(s: Store, ids: set<Id>)
    requires BinaryLabels(s, ids)
    ensures FraudSum(s, ids) == |FraudIds(s, ids)|
  {
    FraudSumSplits(s, ids);
    CleanSum(s, ids - FraudIds(s, ids));
  }

  // The gate's sum counts distinct frauds, on the labels and on every part of them, exactly when all their
  // flags are 0 or 1.
  lemma {:induction false} FraudSumCountsIff(s: Store, ids: set<Id>)
    requires forall id :: id in ids ==> id in s.labels
    ensures (forall part: set<Id> :: part <= ids ==> FraudSum(s, part) == |FraudIds(s, part)|) <==> BinaryLabels(s, ids)
  {
    if BinaryLabels(s, ids) {
      forall part: set<Id> | part <= ids ensures FraudSum(s, part) == |FraudIds(s, part)| {
        FraudSumCounts(s, part);
      }
    } else {
      var id :| id in ids && s.labels[id].isFraud != 0 && s.labels[id].isFraud != 1;
      FraudSumRemove(s, {id}, id);
      assert {id} - {id} == {} && FraudIds(s, {id}) == {};
      assert {id} <= ids && FraudSum(s, {id}) != |FraudIds(s, {id})|;
    }
  }

  // After any run with 0/1 outcomes: promotion with maturity required means at least 10,000 live
  // predictions and at least 50 distinct live ones with an accepted fraud outcome and a label dated no
  // earlier than the maturation time after the transaction. The date may be that of a clean outcome.
  lemma {:induction false} PromotionIsEvidenced(
    minSeconds: int, ops: seq<Op>, stats: Statistics, alpha: real, live: bool)
    requires Binary(ops) && Promotes(Run(minSeconds, ops), stats, alpha, true, live)
    ensures var s := Run(minSeconds, ops);
            && |LivePredictions(s)| >= 10000
            && exists frauds: set<Id> :: |frauds| >= 50 && forall id :: id in frauds ==>
                 && id in s.preds && s.preds[id].provenance == LIVE
                 && SaidFraud(minSeconds, ops, id)
                 && id in s.labels && s.labels[id].at - s.preds[id].timestamp >= minSeconds
  {
    var s := Run(minSeconds, ops);
    PromotesIff(s, stats, alpha, true, live);
    RunKeepsInv(minSeconds, ops);
    var matched := Matched(s, true, live);
    forall id | id in s.labels
      ensures s.labels[id].isFraud == if SaidFraud(minSeconds, ops, id) then 1 else 0
    {
      FlagIsDisjunction(minSeconds, ops, id);
    }
    FraudSumCounts(s, matched);
    var frauds := FraudIds(s, matched);
    forall id | id in frauds
      ensures && id in s.preds && s.preds[id].provenance == LIVE && SaidFraud(minSeconds, ops, id)
              && id in s.labels && s.labels[id].at - s.preds[id].timestamp >= minSeconds
    {
      assert id in matched;
    }
  }

  // Where early frauds and ripe clean outcomes do not both come, the 50 have matured fraud outcomes.
  lemma {:induction false} PromotionOnRipeFrauds(
    minSeconds: int, ops: seq<Op>, stats: Statistics, alpha: real, live: bool, allowed: iset<(int, int)>)
    requires Binary(ops) && Promotes(Run(minSeconds, ops), stats, alpha, true, live)
    requires Drawn(minSeconds, ops, allowed) && !Mixes(minSeconds, allowed)
    ensures exists frauds: set<Id> :: |frauds| >= 50 && forall id :: id in frauds ==>
              && id in Run(minSeconds, ops).preds && Run(minSeconds, ops).preds[id].provenance == LIVE
              && SaidFraudRipe(minSeconds, ops, id)
  {
    var s := Run(minSeconds, ops);
    PromotesIff(s, stats, alpha, true, live);
    var matched := Matched(s, true, live);
    forall id | id in matched ensures s.labels[id].isFraud == 0 || s.labels[id].isFraud == 1 {
      FlagIsDisjunction(minSeconds, ops, id);
    }
    FraudSumCounts(s, matched);
    var frauds := FraudIds(s, matched);
    forall id | id in frauds
      ensures id in s.preds && s.preds[id].provenance == LIVE && SaidFraudRipe(minSeconds, ops, id)
    {
      assert id in matched;
      UnmixedIsEvidenced(minSeconds, ops, id, allowed);
    }
  }

  // The restriction to 0/1 outcomes is needed: the store takes any number as the flag, and one label
  // carrying 50 counts as 50 frauds.
  lemma {:induction false} FlagsOtherThanBinaryInflateTheCount()
    ensures var payment := Telemetry("a", LIVE, false, false, "production", 0, false, "");
            var s := Run(0, [Rec(payment), Attr("a", 50, "x", 0)]);
            Matched(s, true, true) == {"a"} && FraudSum(s, Matched(s, true, true)) == 50
            && FraudIds(s, Matched(s, true, true)) == {}
  {
    var rec := Rec(Telemetry("a", LIVE, false, false, "production", 0, false, ""));
    var ops := [rec, Attr("a", 50, "x", 0)];
    assert ops[..1] == [rec] && [rec][..0] == [];
    assert Run(0, [rec]) == Record(Store(map[], map[]), rec.t);
    var s := Run(0, ops);
    assert s == Attribute(Run(0, [rec]), 0, "a", 50, "x", 0);
    assert Matched(s, true, true) == {"a"};
    assert {"a"} - {"a"} == {};
  }
}
