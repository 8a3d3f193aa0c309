// The shadow gateway: an in-memory index of shadow flips mirrored by an append log that is rewritten
// whole when a dispute changes a label, a dispute log that is only appended to, and the reload of both.
// Source: ml-service/monitoring/production_shadow_gateway.py

module ShadowGateway {
  import opened Common
  import opened BayesRisk

  // an anonymised correlation id; the keyed hash that makes it is left abstract
  type Id = string

  const LIVE := "LIVE_PRODUCTION_EVIDENCE"
  const UNTRUSTED := "UNTRUSTED"
  const ALLOWED_TIERS: set<string> := {
    "LIVE_PRODUCTION_EVIDENCE", "PRODUCTION_LIVE", "LOCAL_OPERATIONAL_TEST", "STAGING_TEST",
    "SYNTHETIC_TEST", "HISTORICAL_REFERENCE", "HISTORICAL_REPLAY"}

  datatype Policy = Policy(costs: Costs, floor: real, windowDays: nat)

  datatype Status = Unlabeled | PendingMaturation | MatureLegitimate | MatureFraud

  datatype Outcome = Outcome(status: Status, truth: int, chargeback: real, at: int, elapsed: int)

  // outcome is None exactly while label_status is UNLABELED
  datatype Flip = Flip(id: Id, timestamp: int, tier: string, amount: real, prob: real, hurdle: real, riskTier: string,
    outcome: Option<Outcome>)
  {
    function Status(): Status {
      if outcome.None? then Unlabeled else outcome.value.status
    }
  }

  // a date as reported: an instant, a reading without a time zone, or a text that is no date
  datatype Report = Instant(t: int) | Zoneless(local: int) | Unreadable(text: string)

  datatype Dispute = Dispute(disputeId: string, id: Id, tier: string, isFraud: int, amount: real, reportedAt: Report)

  datatype Order = Order(id: Id, amount: real, prob: real, tier: string, signed: bool, timestamp: int)

  // ---------------------------------------------------------------------------
  // One call, as a function on the store
  // ---------------------------------------------------------------------------

  // `order` lists the keys of `flips` in insertion order, as the original's dictionary does
  datatype Store = Store(
    order: seq<Id>, flips: map<Id, Flip>, disputes: map<Id, Dispute>, seen: set<Id>,
    flipFile: seq<Flip>, disputeFile: seq<Dispute>,
    duplicates: nat, untrusted: nat, lostAppends: nat,
    firstLive: Option<int>, lastLive: Option<int>, collected: seq<Id>)

  const EMPTY := Store([], map[], map[], {}, [], [], 0, 0, 0, None, None, [])

  predicate ClaimsLive(tier: string) {
    tier == LIVE || tier == "PRODUCTION_LIVE"
  }

  function EffectiveTier(o: Order): string {
    if ClaimsLive(o.tier) then (if o.signed then LIVE else UNTRUSTED)
    else if o.tier in ALLOWED_TIERS then o.tier else UNTRUSTED
  }

  predicate Rejected(o: Order) {
    if ClaimsLive(o.tier) then !o.signed else o.tier !in ALLOWED_TIERS
  }

  function RiskTier(prob: real): string {
    if prob < 0.02 then "LOW_RISK" else if prob < 0.10 then "MODERATE_RISK"
    else if prob < 0.25 then "ELEVATED_RISK" else "CRITICAL_FRAUD"
  }

  function Entry(pol: Policy, o: Order): Flip {
    Flip(o.id, o.timestamp, EffectiveTier(o), o.amount, o.prob, Hurdle(pol.costs, o.amount), RiskTier(o.prob), None)
  }

  predicate Flips(pol: Policy, o: Order) {
    IsFlip(pol.costs, pol.floor, o.prob, o.amount)
  }

  // only an instant can be compared with the flip's timestamp
  predicate Dated(d: Dispute) {
    d.reportedAt.Instant?
  }

  function OutcomeOf(pol: Policy, f: Flip, d: Dispute): Outcome
    requires Dated(d)
  {
    var elapsed := d.reportedAt.t - f.timestamp;
    Outcome(
      if elapsed >= pol.windowDays * 86400 then (if d.isFraud == 1 then MatureFraud else MatureLegitimate)
      else PendingMaturation,
      d.isFraud, d.amount, d.reportedAt.t, elapsed)
  }

  function Render(order: seq<Id>, flips: map<Id, Flip>): seq<Flip>
    requires forall id :: id in order ==> id in flips
  {
    seq(|order|, i requires 0 <= i < |order| => flips[order[i]])
  }

  ghost predicate Indexed(s: Store) {
    forall id :: id in s.order <==> id in s.flips
  }

  // provenance and duplicate bookkeeping; `collected` are the ids handed to the telemetry collector
  function Admit(s: Store, o: Order): Store {
    var duplicate := o.id in s.seen;
    var live := ClaimsLive(o.tier) && o.signed && !duplicate;
    s.(seen := s.seen + {o.id},
       duplicates := s.duplicates + (if duplicate then 1 else 0),
       untrusted := s.untrusted + (if Rejected(o) then 1 else 0),
       firstLive := if live && s.firstLive.None? then Some(o.timestamp) else s.firstLive,
       lastLive := if live then Some(o.timestamp) else s.lastLive,
       collected := if live then s.collected + [o.id] else s.collected)
  }

  function Record(s: Store, f: Flip, writeOk: bool): Store {
    s.(order := if f.id in s.flips then s.order else s.order + [f.id],
       flips := s.flips[f.id := f],
       flipFile := if writeOk then s.flipFile + [f] else s.flipFile,
       lostAppends := s.lostAppends + (if writeOk then 0 else 1))
  }

  function Evaluate(pol: Policy, s: Store, o: Order, writeOk: bool): Store {
    if Flips(pol, o) && o.id !in s.seen then Record(Admit(s, o), Entry(pol, o), writeOk) else Admit(s, o)
  }

  function Ingest(pol: Policy, s: Store, d: Dispute, writeOk: bool, flushOk: bool): Store
    requires Indexed(s)
  {
    var s := s.(disputes := s.disputes[d.id := d],
                disputeFile := if writeOk then s.disputeFile + [d] else s.disputeFile);
    if d.id in s.flips && Dated(d) then
      var flips := s.flips[d.id := s.flips[d.id].(outcome := Some(OutcomeOf(pol, s.flips[d.id], d)))];
      s.(flips := flips, flipFile := if flushOk then Render(s.order, flips) else s.flipFile)
    else s
  }

  // reading the two files, line by line, into a fresh pipeline
  function LoadFlips(file: seq<Flip>): (seq<Id>, map<Id, Flip>) {
    if file == [] then ([], map[])
    else
      var n := |file| - 1;
      var (order, flips) := LoadFlips(file[..n]);
      (if file[n].id in flips then order else order + [file[n].id], flips[file[n].id := file[n]])
  }

  function LoadDisputes(file: seq<Dispute>): map<Id, Dispute> {
    if file == [] then map[] else LoadDisputes(file[..|file| - 1])[file[|file| - 1].id := file[|file| - 1]]
  }

  function Load(flipFile: seq<Flip>, disputeFile: seq<Dispute>): Store {
    var (order, flips) := LoadFlips(flipFile);
    Store(order, flips, LoadDisputes(disputeFile), flips.Keys, flipFile, disputeFile, 0, 0, 0, None, None, [])
  }

  // how many flips of a tier have one of the given statuses
  function Tally(order: seq<Id>, flips: map<Id, Flip>, tier: string, wanted: set<Status>): nat
    requires forall id :: id in order ==> id in flips
  {
    if order == [] then 0
    else
      var f := flips[order[|order| - 1]];
      Tally(order[..|order| - 1], flips, tier, wanted) + (if f.tier == tier && f.Status() in wanted then 1 else 0)
  }

  function IdsOf(order: seq<Id>, flips: map<Id, Flip>, tier: string, wanted: set<Status>): set<Id>
    requires forall id :: id in order ==> id in flips
  {
    set id | id in order && flips[id].tier == tier && flips[id].Status() in wanted
  }

  lemma {:induction false} IdsOfSnoc(order: seq<Id>, id: Id, flips: map<Id, Flip>, tier: string, wanted: set<Status>)
    requires id in flips && forall x :: x in order ==> x in flips
    ensures IdsOf(order + [id], flips, tier, wanted)
            == IdsOf(order, flips, tier, wanted)
               + (if flips[id].tier == tier && flips[id].Status() in wanted then {id} else {})
  {
  }

  // with every id listed once, the number of ids of such flips
  lemma {:induction false} TallyCounts(order: seq<Id>, flips: map<Id, Flip>, tier: string, wanted: set<Status>)
    requires NoDuplicates(order) && forall id :: id in order ==> id in flips
    ensures Tally(order, flips, tier, wanted) == |IdsOf(order, flips, tier, wanted)|
  {
    if order != [] {
      var n := |order| - 1;
      assert order == order[..n] + [order[n]];
      TallyCounts(order[..n], flips, tier, wanted);
      IdsOfSnoc(order[..n], order[n], flips, tier, wanted);
      assert order[n] !in IdsOf(order[..n], flips, tier, wanted);
    }
  }

  // ---------------------------------------------------------------------------
  // The pipeline
  // ---------------------------------------------------------------------------

  class ProductionShadowGatewayPipeline {
    const pol: Policy
    var order: seq<Id>
    var flips: map<Id, Flip>
    var disputes: map<Id, Dispute>
    var seen: set<Id>
    var flipFile: seq<Flip>
    var disputeFile: seq<Dispute>
    var duplicates: nat
    var untrusted: nat
    var lostAppends: nat
    var firstLive: Option<int>
    var lastLive: Option<int>
    var collected: seq<Id>

    ghost function State(): Store
      reads this
    {
      Store(order, flips, disputes, seen, flipFile, disputeFile, duplicates, untrusted, lostAppends,
            firstLive, lastLive, collected)
    }

    // the files are what an earlier pipeline left on disk
    constructor (pol: Policy, flipLines: seq<Flip>, disputeLines: seq<Dispute>)
      ensures this.pol == pol && State() == Load(flipLines, disputeLines)
    {
      this.pol := pol;
      order, flips, disputes, seen := [], map[], map[], {};
      flipFile, disputeFile := flipLines, disputeLines;
      duplicates, untrusted, lostAppends := 0, 0, 0;
      firstLive, lastLive, collected := None, None, [];
      new;
      for i := 0 to |flipLines|
        invariant (order, flips) == LoadFlips(flipLines[..i]) && seen == flips.Keys
        invariant disputes == map[]
        invariant State() == EMPTY.(order := order, flips := flips, seen := seen,
                                    flipFile := flipLines, disputeFile := disputeLines)
      {
        assert flipLines[..i + 1][..i] == flipLines[..i];
        var rec := flipLines[i];
        if rec.id !in flips {
          order := order + [rec.id];
        }
        flips := flips[rec.id := rec];
        seen := seen + {rec.id};
      }
      assert flipLines[..|flipLines|] == flipLines;
      for i := 0 to |disputeLines|
        invariant disputes == LoadDisputes(disputeLines[..i])
        invariant State() == Load(flipLines, disputeLines).(disputes := disputes)
      {
        assert disputeLines[..i + 1][..i] == disputeLines[..i];
        disputes := disputes[disputeLines[i].id := disputeLines[i]];
      }
      assert disputeLines[..|disputeLines|] == disputeLines;
    }

    // writeOk says whether the append to the flip log succeeds; a failure is caught and counted
    method EvaluateAndRoute(o: Order, writeOk: bool)
      returns (enforced: Decision, flip: bool, duplicate: bool, riskTier: string)
      modifies this
      ensures State() == Evaluate(pol, old(State()), o, writeOk)
      ensures enforced == Gateway(pol.costs, o.prob, o.amount)
      ensures flip == Flips(pol, o) && duplicate == (o.id in old(seen)) && riskTier == RiskTier(o.prob)
    {
      var tier;
      tier, duplicate := CheckProvenanceAndReplay(o);
      var hurdle := Hurdle(pol.costs, o.amount);
      enforced := if o.prob > hurdle then Decline else Allow;
      riskTier := if o.prob < 0.02 then "LOW_RISK" else if o.prob < 0.10 then "MODERATE_RISK"
                  else if o.prob < 0.25 then "ELEVATED_RISK" else "CRITICAL_FRAUD";
      var shadow := if o.prob > hurdle && o.prob >= pol.floor then Decline else Allow;
      flip := enforced == Decline && shadow == Allow;
      if flip && !duplicate {
        var entry := Flip(o.id, o.timestamp, tier, o.amount, o.prob, hurdle, riskTier, None);
        assert entry == Entry(pol, o);
        if o.id !in flips {
          order := order + [o.id];
        }
        flips := flips[o.id := entry];
        if writeOk {
          flipFile := flipFile + [entry];
        } else {
          lostAppends := lostAppends + 1;
        }
      }
    }

    // steps 2 and 3 of the evaluation, and the hand-over to the collector, which nothing in between reads
    method CheckProvenanceAndReplay(o: Order) returns (tier: string, duplicate: bool)
      modifies this
      ensures State() == Admit(old(State()), o)
      ensures tier == EffectiveTier(o) && duplicate == (o.id in old(seen))
    {
      tier := o.tier;
      var isLive := false;
      if tier == LIVE || tier == "PRODUCTION_LIVE" {
        if o.signed {
          isLive := true;
          tier := LIVE;
        } else {
          tier := UNTRUSTED;
          untrusted := untrusted + 1;
        }
      } else if tier !in ALLOWED_TIERS {
        tier := UNTRUSTED;
        untrusted := untrusted + 1;
      }
      duplicate := o.id in seen;
      if duplicate {
        duplicates := duplicates + 1;
      } else {
        seen := seen + {o.id};
      }
      assert seen == old(seen) + {o.id};
      if isLive && !duplicate {
        if firstLive.None? {
          firstLive := Some(o.timestamp);
        }
        lastLive := Some(o.timestamp);
        collected := collected + [o.id];
      }
    }

    // `raised` says that the comparison of the dates raised, after the dispute was indexed and logged
    method IngestDelayedDispute(d: Dispute, writeOk: bool, flushOk: bool) returns (matched: bool, raised: bool)
      requires Indexed(State())
      modifies this
      ensures State() == Ingest(pol, old(State()), d, writeOk, flushOk)
      ensures matched == (d.id in old(flips)) && raised == (matched && !d.reportedAt.Instant?)
    {
      disputes := disputes[d.id := d];
      if writeOk {
        disputeFile := disputeFile + [d];
      }
      matched, raised := d.id in flips, false;
      if matched {
        var f := flips[d.id];
        if !d.reportedAt.Instant? {
          raised := true;
          return;
        }
        var elapsed := d.reportedAt.t - f.timestamp;
        var status := PendingMaturation;
        if elapsed >= pol.windowDays * 86400 {
          status := if d.isFraud == 1 then MatureFraud else MatureLegitimate;
        }
        assert Indexed(State());
        flips := flips[d.id := f.(outcome := Some(Outcome(status, d.isFraud, d.amount, d.reportedAt.t, elapsed)))];
        if flushOk {
          FlushShadowFlipsToDisk();
        }
      }
    }

    // the evidence counters of one tier; an unlabelled flip is never counted as legitimate
    method GetShadowEvidenceSummary(tier: string)
      returns (total: nat, unlabeled: nat, pending: nat, mature: nat, frauds: nat)
      requires Indexed(State())
      ensures unlabeled == Tally(order, flips, tier, {Unlabeled})
              && pending == Tally(order, flips, tier, {PendingMaturation})
      ensures mature == Tally(order, flips, tier, {MatureLegitimate, MatureFraud})
              && frauds == Tally(order, flips, tier, {MatureFraud})
      ensures total == unlabeled + pending + mature && frauds <= mature
    {
      total, unlabeled, pending, mature, frauds := 0, 0, 0, 0, 0;
      for i := 0 to |order|
        invariant unlabeled == Tally(order[..i], flips, tier, {Unlabeled})
                  && pending == Tally(order[..i], flips, tier, {PendingMaturation})
        invariant mature == Tally(order[..i], flips, tier, {MatureLegitimate, MatureFraud})
                  && frauds == Tally(order[..i], flips, tier, {MatureFraud})
        invariant total == unlabeled + pending + mature && frauds <= mature
      {
        assert order[..i + 1][..i] == order[..i];
        var f := flips[order[i]];
        if f.tier == tier {
          total := total + 1;
          match f.Status() {
            case Unlabeled => unlabeled := unlabeled + 1;
            case PendingMaturation => pending := pending + 1;
            case MatureLegitimate => mature := mature + 1;
            case MatureFraud => mature, frauds := mature + 1, frauds + 1;
          }
        }
      }
      assert order[..|order|] == order;
    }

    method FlushShadowFlipsToDisk()
      requires forall id :: id in order ==> id in flips
      modifies this`flipFile
      ensures flipFile == Render(order, flips)
    {
      flipFile := [];
      for i := 0 to |order|
        invariant flipFile == Render(order[..i], flips)
      {
        flipFile := flipFile + [flips[order[i]]];
      }
      assert order[..|order|] == order;
    }
  }

  // ---------------------------------------------------------------------------
  // What every call keeps, with any write failures
  // ---------------------------------------------------------------------------

  // the collector got each id at most once, and only ids that were seen
  ghost predicate CollectedOnce(collected: seq<Id>, seen: set<Id>) {
    NoDuplicates(collected) && forall id :: id in collected ==> id in seen
  }

  lemma {:induction false} CollectOne(collected: seq<Id>, seen: set<Id>, id: Id)
    requires CollectedOnce(collected, seen)
    ensures CollectedOnce(collected, seen + {id})
    ensures id !in seen ==> CollectedOnce(collected + [id], seen + {id})
  {
  }

  ghost predicate Inv(s: Store) {
    && NoDuplicates(s.order) && Indexed(s)
    && s.flips.Keys <= s.seen
    && CollectedOnce(s.collected, s.seen)
    && (forall id :: id in s.flips ==> s.flips[id].id == id)
    && FileDistinct(s.flipFile, s.flips)
  }

  datatype Op = Eval(o: Order, writeOk: bool) | Disp(d: Dispute, writeOk: bool, flushOk: bool) | Restart

  function Step(pol: Policy, s: Store, op: Op): Store
    requires Indexed(s)
  {
    match op
    case Eval(o, writeOk) => Evaluate(pol, s, o, writeOk)
    case Disp(d, writeOk, flushOk) => Ingest(pol, s, d, writeOk, flushOk)
    case Restart => Load(s.flipFile, s.disputeFile)
  }

  lemma {:induction false} LoadExact(file: seq<Flip>)
    requires forall i, j :: 0 <= i < j < |file| ==> file[i].id != file[j].id
    ensures var (order, flips) := LoadFlips(file);
            && |order| == |file|
            && (forall i :: 0 <= i < |file| ==>
                  order[i] == file[i].id && order[i] in flips && flips[order[i]] == file[i])
            && (forall id :: id in order <==> id in flips)
  {
    if file != [] {
      var n := |file| - 1;
      LoadExact(file[..n]);
      var (order, flips) := LoadFlips(file[..n]);
      assert file[n].id !in order by {
        forall i | 0 <= i < |order| ensures order[i] != file[n].id {
          assert order[i] == file[..n][i].id;
        }
      }
    }
  }

  // the position of the first line for an id, or the length where there is none
  function FirstLine(file: seq<Flip>, id: Id): (p: nat)
    ensures p <= |file| && (p < |file| ==> file[p].id == id) && forall i :: 0 <= i < p ==> file[i].id != id
  {
    if file == [] then 0
    else
      var p := FirstLine(file[..|file| - 1], id);
      if p < |file| - 1 || file[|file| - 1].id == id then p else |file|
  }

  lemma {:induction false} FirstLineSnoc(file: seq<Flip>, f: Flip, id: Id)
    ensures FirstLine(file, id) < |file| ==> FirstLine(file + [f], id) == FirstLine(file, id)
    ensures FirstLine(file, id) == |file| && f.id == id ==> FirstLine(file + [f], id) == |file|
  {
    assert (file + [f])[..|file|] == file;
  }

  ghost predicate IsLastLine(file: seq<Flip>, i: nat, id: Id)
    requires i < |file|
  {
    file[i].id == id && forall j :: i < j < |file| ==> file[j].id != id
  }

  // Any file, ids repeated or not: an id is loaded if it has a line, and its entry is the last one.
  lemma {:induction false} LoadKeepsLast(file: seq<Flip>, id: Id)
    ensures id in LoadFlips(file).1 <==> FirstLine(file, id) < |file|
    ensures id in LoadFlips(file).1 ==>
              exists i :: 0 <= i < |file| && IsLastLine(file, i, id) && LoadFlips(file).1[id] == file[i]
  {
    if file != [] {
      var n := |file| - 1;
      assert file == file[..n] + [file[n]];
      LoadKeepsLast(file[..n], id);
      FirstLineSnoc(file[..n], file[n], id);
      if file[n].id == id {
        assert IsLastLine(file, n, id);
      } else if id in LoadFlips(file[..n]).1 {
        var i :| 0 <= i < n && IsLastLine(file[..n], i, id) && LoadFlips(file[..n]).1[id] == file[..n][i];
        assert IsLastLine(file, i, id);
      }
    }
  }

  ghost predicate ByFirstLine(order: seq<Id>, file: seq<Flip>) {
    && (forall id :: id in order ==> FirstLine(file, id) < |file|)
    && (forall a, b :: 0 <= a < b < |order| ==> FirstLine(file, order[a]) < FirstLine(file, order[b]))
  }

  lemma {:induction false} ByFirstLineSnoc(order: seq<Id>, file: seq<Flip>, f: Flip)
    requires ByFirstLine(order, file)
    ensures ByFirstLine(order, file + [f])
    ensures FirstLine(file, f.id) == |file| ==> ByFirstLine(order + [f.id], file + [f])
  {
    forall id | id in order ensures FirstLine(file + [f], id) == FirstLine(file, id) {
      FirstLineSnoc(file, f, id);
    }
    FirstLineSnoc(file, f, f.id);
  }

  // and the entries are in the order of their first lines
  lemma {:induction false} LoadKeepsOrder(file: seq<Flip>)
    ensures ByFirstLine(LoadFlips(file).0, file)
    ensures forall id :: id in LoadFlips(file).0 <==> id in LoadFlips(file).1
  {
    if file != [] {
      var n := |file| - 1;
      assert file == file[..n] + [file[n]];
      LoadKeepsOrder(file[..n]);
      LoadKeepsLast(file[..n], file[n].id);
      ByFirstLineSnoc(LoadFlips(file[..n]).0, file[..n], file[n]);
    }
  }

  lemma {:induction false} AdmitKeepsInv(s: Store, o: Order)
    requires Inv(s)
    ensures Inv(Admit(s, o))
  {
    CollectOne(s.collected, s.seen, o.id);
  }

  // the file's ids are distinct and indexed
  ghost predicate FileDistinct(file: seq<Flip>, flips: map<Id, Flip>) {
    && (forall i, j :: 0 <= i < j < |file| ==> file[i].id != file[j].id)
    && (forall i :: 0 <= i < |file| ==> file[i].id in flips)
  }

  lemma {:induction false} RecordKeepsInv(s: Store, f: Flip, writeOk: bool)
    requires Inv(s) && f.id in s.seen && f.id !in s.flips
    ensures Inv(Record(s, f, writeOk))
  {
    var t := Record(s, f, writeOk);
    assert NoDuplicates(t.order) && Indexed(t);
    assert FileDistinct(t.flipFile, t.flips);
  }

  lemma {:induction false} EvaluateKeepsInv(pol: Policy, s: Store, o: Order, writeOk: bool)
    requires Inv(s)
    ensures Inv(Evaluate(pol, s, o, writeOk))
  {
    AdmitKeepsInv(s, o);
    if Flips(pol, o) && o.id !in s.seen {
      RecordKeepsInv(Admit(s, o), Entry(pol, o), writeOk);
    }
  }

  lemma {:induction false} IngestKeepsInv(pol: Policy, s: Store, d: Dispute, writeOk: bool, flushOk: bool)
    requires Inv(s)
    ensures Inv(Ingest(pol, s, d, writeOk, flushOk))
  {
  }

  lemma {:induction false} LoadKeepsInv(s: Store)
    requires Inv(s)
    ensures Inv(Load(s.flipFile, s.disputeFile))
  {
    LoadExact(s.flipFile);
  }

  // No call, restart or write failure ever lets an id get a second flip entry, in memory or on disk.
  lemma {:induction false} StepKeepsInv(pol: Policy, s: Store, op: Op)
    requires Inv(s)
    ensures Inv(Step(pol, s, op))
  {
    match op
    case Eval(o, writeOk) => EvaluateKeepsInv(pol, s, o, writeOk);
    case Disp(d, writeOk, flushOk) => IngestKeepsInv(pol, s, d, writeOk, flushOk);
    case Restart => LoadKeepsInv(s);
  }

  function Run(pol: Policy, ops: seq<Op>): (s: Store)
    ensures Inv(s)
  {
    if ops == [] then EMPTY
    else
      var s := Run(pol, ops[..|ops| - 1]);
      StepKeepsInv(pol, s, ops[|ops| - 1]);
      Step(pol, s, ops[|ops| - 1])
  }

  // ---------------------------------------------------------------------------
  // Counters
  // ---------------------------------------------------------------------------

  datatype Occurrence = Repeated | Unproved | LostAppend | FreshLive

  // what an evaluation counts as, in the state in which it is made
  ghost predicate CountsAs(pol: Policy, s: Store, op: Op, kind: Occurrence) {
    op.Eval? &&
    var o := op.o;
    var claim := o.tier == LIVE || o.tier == "PRODUCTION_LIVE";
    match kind
    case Repeated => o.id in s.seen
    case Unproved => if claim then !o.signed else o.tier !in ALLOWED_TIERS
    case LostAppend => Flips(pol, o) && o.id !in s.seen && !op.writeOk
    case FreshLive => claim && o.signed && o.id !in s.seen
  }

  // how often that happened since the last restart
  ghost function CountSince(pol: Policy, ops: seq<Op>, kind: Occurrence): nat {
    if ops == [] || ops[|ops| - 1].Restart? then 0
    else
      var before := ops[..|ops| - 1];
      CountSince(pol, before, kind) + (if CountsAs(pol, Run(pol, before), ops[|ops| - 1], kind) then 1 else 0)
  }

  // the signed live evaluations of unseen ids since the last restart
  ghost function LiveSince(pol: Policy, ops: seq<Op>): seq<Order> {
    if ops == [] || ops[|ops| - 1].Restart? then []
    else
      var before, op := ops[..|ops| - 1], ops[|ops| - 1];
      LiveSince(pol, before) + (if CountsAs(pol, Run(pol, before), op, FreshLive) then [op.o] else [])
  }

  function EvaluatedSince(ops: seq<Op>): set<Id> {
    if ops == [] || ops[|ops| - 1].Restart? then {}
    else EvaluatedSince(ops[..|ops| - 1]) + (if ops[|ops| - 1].Eval? then {ops[|ops| - 1].o.id} else {})
  }

  // the ids of the flips loaded by the last restart
  ghost function LoadedIds(pol: Policy, ops: seq<Op>): set<Id> {
    if ops == [] then {}
    else if ops[|ops| - 1].Restart? then Run(pol, ops).flips.Keys
    else LoadedIds(pol, ops[..|ops| - 1])
  }

  ghost predicate SpanOf(live: seq<Order>, s: Store) {
    && |s.collected| == |live| && (forall i :: 0 <= i < |live| ==> s.collected[i] == live[i].id)
    && s.firstLive == (if live == [] then None else Some(live[0].timestamp))
    && s.lastLive == (if live == [] then None else Some(live[|live| - 1].timestamp))
  }

  lemma {:induction false} EvaluateAdmits(pol: Policy, s: Store, o: Order, writeOk: bool)
    ensures var t, a := Evaluate(pol, s, o, writeOk), Admit(s, o);
            && t.seen == a.seen && t.duplicates == a.duplicates && t.untrusted == a.untrusted
            && t.firstLive == a.firstLive && t.lastLive == a.lastLive && t.collected == a.collected
            && t.lostAppends == s.lostAppends + (if CountsAs(pol, s, Eval(o, writeOk), LostAppend) then 1 else 0)
  {
  }

  lemma {:induction false} SpanGrows(s: Store, t: Store, live: seq<Order>, o: Order)
    requires SpanOf(live, s)
    requires t.collected == s.collected + [o.id] && t.lastLive == Some(o.timestamp)
    requires t.firstLive == if s.firstLive == None then Some(o.timestamp) else s.firstLive
    ensures SpanOf(live + [o], t)
  {
  }

  lemma {:induction false} AdmitSpans(pol: Policy, s: Store, o: Order, writeOk: bool, live: seq<Order>)
    requires SpanOf(live, s)
    ensures SpanOf(live + (if CountsAs(pol, s, Eval(o, writeOk), FreshLive) then [o] else []), Admit(s, o))
  {
    if CountsAs(pol, s, Eval(o, writeOk), FreshLive) {
      SpanGrows(s, Admit(s, o), live, o);
    } else {
      assert live + [] == live;
    }
  }

  lemma {:induction false} AdmitCounts(pol: Policy, s: Store, o: Order, writeOk: bool, live: seq<Order>)
    requires SpanOf(live, s)
    ensures var t := Evaluate(pol, s, o, writeOk); var op := Eval(o, writeOk);
            && t.duplicates == s.duplicates + (if CountsAs(pol, s, op, Repeated) then 1 else 0)
            && t.untrusted == s.untrusted + (if CountsAs(pol, s, op, Unproved) then 1 else 0)
            && t.lostAppends == s.lostAppends + (if CountsAs(pol, s, op, LostAppend) then 1 else 0)
            && t.seen == s.seen + {o.id}
            && SpanOf(live + (if CountsAs(pol, s, op, FreshLive) then [o] else []), t)
  {
    EvaluateAdmits(pol, s, o, writeOk);
    AdmitSpans(pol, s, o, writeOk, live);
  }

  // In every run, since the last restart: the counters count repeated ids, unproved tiers and failed appends;
  // the collector got the signed live evaluations of unseen ids in order, and the live span reaches from the
  // first to the last of them; the ids seen are those evaluated and those loaded.
  lemma {:induction false} CountersExact(pol: Policy, ops: seq<Op>)
    ensures var s := Run(pol, ops);
            && s.duplicates == CountSince(pol, ops, Repeated) && s.untrusted == CountSince(pol, ops, Unproved)
            && s.lostAppends == CountSince(pol, ops, LostAppend)
            && SpanOf(LiveSince(pol, ops), s)
            && s.seen == EvaluatedSince(ops) + LoadedIds(pol, ops)
  {
    if ops != [] {
      var n := |ops| - 1;
      var s := Run(pol, ops[..n]);
      CountersExact(pol, ops[..n]);
      match ops[n]
      case Eval(o, writeOk) => AdmitCounts(pol, s, o, writeOk, LiveSince(pol, ops[..n]));
      case Disp(d, writeOk, flushOk) => assert LiveSince(pol, ops[..n]) + [] == LiveSince(pol, ops[..n]);
      case Restart =>
    }
  }

  // ---------------------------------------------------------------------------
  // Recovery
  // ---------------------------------------------------------------------------

  // the ids whose append failed since the last successful rewrite or restart
  ghost function Missing(pol: Policy, ops: seq<Op>): set<Id> {
    if ops == [] then {}
    else
      var before := ops[..|ops| - 1];
      var s := Run(pol, before);
      match ops[|ops| - 1]
      case Eval(o, writeOk) =>
        Missing(pol, before) + (if Flips(pol, o) && o.id !in s.seen && !writeOk then {o.id} else {})
      case Disp(d, _, flushOk) => if d.id in s.flips && Dated(d) && flushOk then {} else Missing(pol, before)
      case Restart => {}
  }

  // the outcomes that the log still has for entries labelled since then without a successful rewrite
  ghost function Written(pol: Policy, ops: seq<Op>): map<Id, Option<Outcome>> {
    if ops == [] then map[]
    else
      var before := ops[..|ops| - 1];
      var s := Run(pol, before);
      match ops[|ops| - 1]
      case Eval(_, _) => Written(pol, before)
      case Disp(d, _, flushOk) =>
        if d.id !in s.flips || !Dated(d) then Written(pol, before)
        else if flushOk then map[]
        else KeepFirst(Written(pol, before), d.id, s.flips[d.id].outcome)
      case Restart => map[]
  }

  function KeepFirst(written: map<Id, Option<Outcome>>, id: Id, o: Option<Outcome>): map<Id, Option<Outcome>> {
    if id in written then written else written[id := o]
  }

  // the disputes whose append failed and that no later dispute of the same id or restart replaced
  function LostDisputes(ops: seq<Op>): map<Id, Dispute> {
    if ops == [] then map[] else LostNext(LostDisputes(ops[..|ops| - 1]), ops[|ops| - 1])
  }

  function LostNext(lost: map<Id, Dispute>, op: Op): map<Id, Dispute> {
    match op
    case Eval(_, _) => lost
    case Disp(d, writeOk, _) => if writeOk then lost - {d.id} else lost[d.id := d]
    case Restart => map[]
  }

  // the disputes whose append succeeded
  function Logged(ops: seq<Op>): seq<Dispute> {
    if ops == [] then [] else Logged(ops[..|ops| - 1]) + LoggedBy(ops[|ops| - 1])
  }

  function LoggedBy(op: Op): seq<Dispute> {
    if op.Disp? && op.writeOk then [op.d] else []
  }

  function Except(order: seq<Id>, ids: set<Id>): seq<Id> {
    if order == [] then []
    else Except(order[..|order| - 1], ids) + (if order[|order| - 1] in ids then [] else [order[|order| - 1]])
  }

  // the line that an entry has in the log
  function Line(f: Flip, written: map<Id, Option<Outcome>>): Flip {
    if f.id in written then f.(outcome := written[f.id]) else f
  }

  // the file holds this line of each entry that is not missing, in entry order
  ghost predicate FileHolds(s: Store, missing: set<Id>, written: map<Id, Option<Outcome>>) {
    && missing <= s.flips.Keys && written.Keys <= s.flips.Keys
    && |s.flipFile| == |Except(s.order, missing)|
    && forall i :: 0 <= i < |s.flipFile| ==>
         var id := Except(s.order, missing)[i]; id in s.flips && s.flipFile[i] == Line(s.flips[id], written)
  }

  lemma {:induction false} ExceptSnoc(order: seq<Id>, id: Id, ids: set<Id>)
    ensures Except(order + [id], ids) == Except(order, ids) + (if id in ids then [] else [id])
  {
    assert (order + [id])[..|order|] == order;
  }

  lemma {:induction false} ExceptMembers(order: seq<Id>, ids: set<Id>)
    ensures forall id :: id in Except(order, ids) <==> id in order && id !in ids
  {
    if order != [] {
      var n := |order| - 1;
      ExceptMembers(order[..n], ids);
      assert order == order[..n] + [order[n]];
    }
  }

  lemma {:induction false} ExceptAbsent(order: seq<Id>, ids: set<Id>, id: Id)
    requires id !in order
    ensures Except(order, ids + {id}) == Except(order, ids)
  {
    if order != [] {
      var n := |order| - 1;
      assert order == order[..n] + [order[n]];
      ExceptAbsent(order[..n], ids, id);
    }
  }

  lemma {:induction false} ExceptNone(order: seq<Id>)
    ensures Except(order, {}) == order
  {
    if order != [] {
      ExceptNone(order[..|order| - 1]);
    }
  }

  lemma {:induction false} AppendHolds(s: Store, f: Flip, missing: set<Id>, written: map<Id, Option<Outcome>>)
    requires FileHolds(s, missing, written) && f.id !in s.flips
    ensures FileHolds(Record(s, f, true), missing, written)
  {
    ExceptSnoc(s.order, f.id, missing);
  }

  lemma {:induction false} LostHolds(s: Store, f: Flip, missing: set<Id>, written: map<Id, Option<Outcome>>)
    requires Indexed(s) && FileHolds(s, missing, written) && f.id !in s.flips
    ensures FileHolds(Record(s, f, false), missing + {f.id}, written)
  {
    assert f.id !in s.order;
    ExceptSnoc(s.order, f.id, missing + {f.id});
    ExceptAbsent(s.order, missing, f.id);
  }

  lemma {:induction false} RenderHolds(s: Store)
    requires Inv(s) && s.flipFile == Render(s.order, s.flips)
    ensures FileHolds(s, {}, map[])
  {
    ExceptNone(s.order);
  }

  lemma {:induction false} EvaluateHolds(
    pol: Policy, s: Store, o: Order, writeOk: bool, missing: set<Id>, written: map<Id, Option<Outcome>>)
    requires Inv(s) && FileHolds(s, missing, written)
    ensures var lost := if Flips(pol, o) && o.id !in s.seen && !writeOk then {o.id} else {};
            FileHolds(Evaluate(pol, s, o, writeOk), missing + lost, written)
  {
    var t := Admit(s, o);
    assert missing + {} == missing;
    assert FileHolds(t, missing, written);
    if Flips(pol, o) && o.id !in s.seen {
      if writeOk {
        AppendHolds(t, Entry(pol, o), missing, written);
      } else {
        LostHolds(t, Entry(pol, o), missing, written);
      }
    }
  }

  lemma {:induction false} IngestHolds(
    pol: Policy, s: Store, d: Dispute, writeOk: bool, flushOk: bool, missing: set<Id>,
    written: map<Id, Option<Outcome>>)
    requires Inv(s) && FileHolds(s, missing, written)
    ensures var t := Ingest(pol, s, d, writeOk, flushOk);
            if d.id !in s.flips || !Dated(d) then FileHolds(t, missing, written)
            else if flushOk then FileHolds(t, {}, map[])
            else FileHolds(t, missing, KeepFirst(written, d.id, s.flips[d.id].outcome))
  {
    if d.id in s.flips && Dated(d) && flushOk {
      IngestKeepsInv(pol, s, d, writeOk, flushOk);
      RenderHolds(Ingest(pol, s, d, writeOk, flushOk));
    }
  }

  // In every run, with any failures and restarts, the flip log holds exactly the entries that are not missing,
  // each with its outcome as last written.
  lemma {:induction false} FlipLogExact(pol: Policy, ops: seq<Op>)
    ensures FileHolds(Run(pol, ops), Missing(pol, ops), Written(pol, ops))
  {
    if ops != [] {
      var n := |ops| - 1;
      var s, missing, written := Run(pol, ops[..n]), Missing(pol, ops[..n]), Written(pol, ops[..n]);
      FlipLogExact(pol, ops[..n]);
      match ops[n]
      case Eval(o, writeOk) => EvaluateHolds(pol, s, o, writeOk, missing, written);
      case Disp(d, writeOk, flushOk) => IngestHolds(pol, s, d, writeOk, flushOk, missing, written);
      case Restart =>
        LoadRenders(s.flipFile);
        LoadKeepsInv(s);
        RenderHolds(Load(s.flipFile, s.disputeFile));
    }
  }

  lemma {:induction false} DisputeAppended(pol: Policy, s: Store, op: Op)
    requires Indexed(s)
    ensures Step(pol, s, op).disputeFile == s.disputeFile + LoggedBy(op)
  {
  }

  lemma {:induction false} DisputeLogExact(pol: Policy, ops: seq<Op>)
    ensures Run(pol, ops).disputeFile == Logged(ops)
  {
    if ops != [] {
      var n := |ops| - 1;
      DisputeLogExact(pol, ops[..n]);
      DisputeAppended(pol, Run(pol, ops[..n]), ops[n]);
    }
  }

  lemma {:induction false} LoadRenders(file: seq<Flip>)
    requires forall i, j :: 0 <= i < j < |file| ==> file[i].id != file[j].id
    ensures var (order, flips) := LoadFlips(file);
            (forall id :: id in order ==> id in flips) && file == Render(order, flips)
  {
    LoadExact(file);
  }

  // what a file that holds the index but for some entries loads as
  lemma {:induction false} LoadIsIndex(s: Store, missing: set<Id>, written: map<Id, Option<Outcome>>)
    requires Inv(s) && FileHolds(s, missing, written)
    ensures var (order, flips) := LoadFlips(s.flipFile);
            && order == Except(s.order, missing) && flips.Keys == s.flips.Keys - missing
            && (forall id :: id in flips ==>
                  flips[id].id == id && id in s.flips && flips[id] == Line(s.flips[id], written))
  {
    LoadExact(s.flipFile);
    var (order, flips) := LoadFlips(s.flipFile);
    assert order == Except(s.order, missing);
    ExceptMembers(s.order, missing);
    forall id ensures id in flips <==> id in s.flips && id !in missing {
    }
    forall id | id in flips ensures flips[id].id == id && id in s.flips && flips[id] == Line(s.flips[id], written) {
      var i :| 0 <= i < |order| && order[i] == id;
      assert flips[order[i]] == s.flipFile[i];
    }
  }

  lemma {:induction false} RestartLoads(pol: Policy, ops: seq<Op>)
    ensures Run(pol, ops + [Restart]) == Load(Run(pol, ops).flipFile, Run(pol, ops).disputeFile)
  {
    assert (ops + [Restart])[..|ops|] == ops;
  }

  // the log has the outcomes that the entries have
  ghost predicate UpToDate(flips: map<Id, Flip>, written: map<Id, Option<Outcome>>) {
    forall id :: id in written ==> id in flips && written[id] == flips[id].outcome
  }

  lemma {:induction false} SameOrderIff(order: seq<Id>, missing: set<Id>)
    requires forall id :: id in missing ==> id in order
    ensures Except(order, missing) == order <==> missing == {}
  {
    ExceptNone(order);
    ExceptMembers(order, missing);
    assert forall id :: id in missing ==> id in order && id !in Except(order, missing);
  }

  lemma {:induction false} SameFlipsIff(s: Store, r: map<Id, Flip>, missing: set<Id>, written: map<Id, Option<Outcome>>)
    requires Inv(s) && missing <= s.flips.Keys && written.Keys <= s.flips.Keys && r.Keys == s.flips.Keys - missing
    requires forall id :: id in r ==> id in s.flips && r[id] == Line(s.flips[id], written)
    ensures r == s.flips <==> missing == {} && UpToDate(s.flips, written)
  {
    assert forall id :: id in missing ==> id in s.flips && id !in r;
    assert missing == {} ==> r.Keys == s.flips.Keys;
    if r == s.flips {
      forall id | id in written ensures id in s.flips && written[id] == s.flips[id].outcome {
        assert r[id] == Line(s.flips[id], written);
      }
    }
    assert missing == {} && UpToDate(s.flips, written) ==> forall id :: id in r ==> r[id] == s.flips[id];
  }

  // the index that loads from a file with nothing missing and every outcome up to date
  lemma {:induction false} LoadIsWholeIndex(s: Store)
    requires Inv(s) && FileHolds(s, {}, map[])
    ensures LoadFlips(s.flipFile) == (s.order, s.flips)
  {
    LoadIsIndex(s, {}, map[]);
    ExceptNone(s.order);
    SameFlipsIff(s, LoadFlips(s.flipFile).1, {}, map[]);
  }

  lemma {:induction false} RemovedKeys(keys: set<Id>, missing: set<Id>)
    requires missing <= keys
    ensures keys - missing == keys <==> missing == {}
  {
  }

  lemma {:induction false} RestartFlips(pol: Policy, ops: seq<Op>)
    ensures var s := Run(pol, ops); var (order, flips) := LoadFlips(s.flipFile);
            && order == Except(s.order, Missing(pol, ops)) && flips.Keys == s.flips.Keys - Missing(pol, ops)
            && (forall id :: id in flips ==> id in s.flips && flips[id] == Line(s.flips[id], Written(pol, ops)))
            && (flips.Keys == s.flips.Keys <==> Missing(pol, ops) == {})
  {
    FlipLogExact(pol, ops);
    LoadIsIndex(Run(pol, ops), Missing(pol, ops), Written(pol, ops));
    RemovedKeys(Run(pol, ops).flips.Keys, Missing(pol, ops));
  }

  // After any run from empty stores, with any write failures and restarts, a further restart yields exactly
  // the flips whose id is not missing, in entry order, each as its line has it; so it yields all ids
  // exactly when none is missing. The dispute index it yields is that of the disputes whose append succeeded,
  // and the one it replaces differed from it by the lost ones.
  lemma {:induction false} RecoveryExact(pol: Policy, ops: seq<Op>)
    ensures var s, r := Run(pol, ops), Run(pol, ops + [Restart]);
            && r.order == Except(s.order, Missing(pol, ops)) && r.flips.Keys == s.flips.Keys - Missing(pol, ops)
            && (forall id :: id in r.flips ==> id in s.flips && r.flips[id] == Line(s.flips[id], Written(pol, ops)))
            && (r.flips.Keys == s.flips.Keys <==> Missing(pol, ops) == {})
            && r.disputes == LoadDisputes(Logged(ops)) && s.disputes == r.disputes + LostDisputes(ops)
  {
    RestartLoads(pol, ops);
    RestartFlips(pol, ops);
    DisputeLogExact(pol, ops);
    DisputesExact(pol, ops);
  }

  // A restart rebuilds the entry order exactly when no entry is missing, and the flip index exactly when
  // moreover each outcome left in the log is the one the entry has. It rebuilds the
  // dispute index exactly when each lost dispute repeats the last one logged for its id, and its ids exactly
  // when each lost dispute has one logged for its id.
  lemma {:induction false} RecoveryComplete(pol: Policy, ops: seq<Op>)
    ensures var s, r, lost := Run(pol, ops), Run(pol, ops + [Restart]), LostDisputes(ops);
            && (r.order == s.order <==> Missing(pol, ops) == {})
            && (r.flips == s.flips <==> Missing(pol, ops) == {} && UpToDate(s.flips, Written(pol, ops)))
            && (r.disputes == s.disputes <==>
                  forall id :: id in lost ==> id in r.disputes && r.disputes[id] == lost[id])
            && (r.disputes.Keys == s.disputes.Keys <==> lost.Keys <= r.disputes.Keys)
  {
    RecoveryExact(pol, ops);
    FlipLogExact(pol, ops);
    SameOrderIff(Run(pol, ops).order, Missing(pol, ops));
    SameFlipsIff(Run(pol, ops), Run(pol, ops + [Restart]).flips, Missing(pol, ops), Written(pol, ops));
    Overlay(Run(pol, ops + [Restart]).disputes, LostDisputes(ops));
  }

  lemma {:induction false} Overlay(m: map<Id, Dispute>, over: map<Id, Dispute>)
    ensures m == m + over <==> forall id :: id in over ==> id in m && m[id] == over[id]
    ensures m.Keys == (m + over).Keys <==> over.Keys <= m.Keys
  {
    if m == m + over {
      forall id | id in over ensures id in m && m[id] == over[id] {
        assert id in m + over && (m + over)[id] == over[id];
      }
    }
    assert (m + over).Keys == m.Keys + over.Keys;
  }

  lemma {:induction false} LoadDisputesSnoc(file: seq<Dispute>, d: Dispute)
    ensures LoadDisputes(file + [d]) == LoadDisputes(file)[d.id := d]
  {
    assert (file + [d])[..|file|] == file;
  }

  lemma {:induction false} OverlayUpdate(m: map<Id, Dispute>, over: map<Id, Dispute>, id: Id, d: Dispute)
    ensures (m + over)[id := d] == m[id := d] + (over - {id})
    ensures (m + over)[id := d] == m + over[id := d]
  {
  }

  lemma {:induction false} OverlayDispute(logged: seq<Dispute>, lost: map<Id, Dispute>, d: Dispute, writeOk: bool)
    ensures (LoadDisputes(logged) + lost)[d.id := d]
            == LoadDisputes(logged + (if writeOk then [d] else []))
              + (if writeOk then lost - {d.id} else lost[d.id := d])
  {
    OverlayUpdate(LoadDisputes(logged), lost, d.id, d);
    if writeOk {
      LoadDisputesSnoc(logged, d);
    } else {
      assert logged + [] == logged;
    }
  }

  lemma {:induction false} OverlayStep(pol: Policy, s: Store, lost: map<Id, Dispute>, op: Op)
    requires Indexed(s) && s.disputes == LoadDisputes(s.disputeFile) + lost
    ensures Step(pol, s, op).disputes == LoadDisputes(s.disputeFile + LoggedBy(op)) + LostNext(lost, op)
  {
    assert s.disputeFile + [] == s.disputeFile;
    DisputeStep(pol, s, op);
    if op.Disp? {
      OverlayDispute(s.disputeFile, lost, op.d, op.writeOk);
    }
  }

  // In every run the dispute index is that of the logged disputes overlaid with the lost ones.
  lemma {:induction false} DisputesExact(pol: Policy, ops: seq<Op>)
    ensures Run(pol, ops).disputes == LoadDisputes(Logged(ops)) + LostDisputes(ops)
  {
    if ops != [] {
      var n := |ops| - 1;
      DisputesExact(pol, ops[..n]);
      DisputeLogExact(pol, ops[..n]);
      OverlayStep(pol, Run(pol, ops[..n]), LostDisputes(ops[..n]), ops[n]);
    }
  }

  lemma {:induction false} DisputeStep(pol: Policy, s: Store, op: Op)
    requires Indexed(s)
    ensures Step(pol, s, op).disputes ==
            match op
            case Eval(_, _) => s.disputes
            case Disp(d, _, _) => s.disputes[d.id := d]
            case Restart => LoadDisputes(s.disputeFile)
  {
  }

  // One lost append is enough to lose the flip: the reload then lacks exactly that entry.
  lemma {:induction false} LostAppendIsLost(pol: Policy, s: Store, o: Order)
    requires Inv(s) && s.flipFile == Render(s.order, s.flips)
    requires Flips(pol, o) && o.id !in s.seen
    ensures var t := Evaluate(pol, s, o, false);
            var r := Load(t.flipFile, t.disputeFile);
            o.id in t.flips && o.id !in r.flips && t.flips == r.flips[o.id := Entry(pol, o)]
  {
    RenderHolds(s);
    LoadIsWholeIndex(s);
  }

  // ---------------------------------------------------------------------------
  // Labels
  // ---------------------------------------------------------------------------

  ghost predicate NoFailures(ops: seq<Op>) {
    forall i :: 0 <= i < |ops| ==>
      !(ops[i].Eval? && !ops[i].writeOk) && !(ops[i].Disp? && !(ops[i].writeOk && ops[i].flushOk))
  }

  // a dispute for id whose date can be compared
  predicate Labels(op: Op, id: Id) {
    op.Disp? && op.d.id == id && Dated(op.d)
  }

  // the last such dispute among the calls, if any
  function LastDispute(ops: seq<Op>, id: Id): (last: Option<Dispute>)
    ensures last.Some? ==> Dated(last.value)
  {
    if ops == [] then None
    else if Labels(ops[|ops| - 1], id) then Some(ops[|ops| - 1].d)
    else LastDispute(ops[..|ops| - 1], id)
  }

  ghost predicate IsLastDispute(ops: seq<Op>, id: Id, i: nat)
    requires i < |ops|
  {
    Labels(ops[i], id) && forall j :: i < j < |ops| ==> !Labels(ops[j], id)
  }

  lemma {:induction false} LastDisputeExact(ops: seq<Op>, id: Id)
    ensures match LastDispute(ops, id)
            case None => forall i :: 0 <= i < |ops| ==> !Labels(ops[i], id)
            case Some(d) => exists i :: 0 <= i < |ops| && IsLastDispute(ops, id, i) && ops[i].d == d
  {
    if ops != [] {
      var n := |ops| - 1;
      var init := ops[..n];
      assert ops == init + [ops[n]];
      LastDisputeExact(init, id);
      if Labels(ops[n], id) {
        assert IsLastDispute(ops, id, n);
      } else if LastDispute(init, id).Some? {
        var i :| 0 <= i < n && IsLastDispute(init, id, i) && init[i].d == LastDispute(init, id).value;
        assert IsLastDispute(ops, id, i);
      }
    }
  }

  // call k is a flipping evaluation of id, which had not been seen
  ghost predicate FlipsAt(pol: Policy, ops: seq<Op>, k: nat, id: Id) {
    k < |ops| && ops[k].Eval? && ops[k].o.id == id && Flips(pol, ops[k].o) && id !in Run(pol, ops[..k]).seen
  }

  // the call at position k records the flip that the run ends with, labelled by the disputes after it
  ghost predicate RecordedAt(pol: Policy, ops: seq<Op>, k: nat, id: Id, f: Flip) {
    FlipsAt(pol, ops, k, id) && f == Labelled(pol, Entry(pol, ops[k].o), LastDispute(ops[k + 1..], id))
  }

  function Labelled(pol: Policy, entry: Flip, last: Option<Dispute>): Flip
    requires last.Some? ==> Dated(last.value)
  {
    match last
    case None => entry
    case Some(d) => entry.(outcome := Some(OutcomeOf(pol, entry, d)))
  }

  // an entry's outcome does not matter to a later one
  lemma {:induction false} Relabelled(pol: Policy, entry: Flip, last: Option<Dispute>, d: Dispute)
    requires (last.Some? ==> Dated(last.value)) && Dated(d)
    ensures var f := Labelled(pol, entry, last);
            f.(outcome := Some(OutcomeOf(pol, f, d))) == Labelled(pol, entry, Some(d))
  {
  }

  lemma {:induction false} FlipsAtLater(pol: Policy, ops: seq<Op>, k: nat, id: Id, op: Op)
    requires FlipsAt(pol, ops, k, id)
    ensures FlipsAt(pol, ops + [op], k, id) && (ops + [op])[k] == ops[k]
  {
    assert (ops + [op])[..k] == ops[..k];
  }

  lemma {:induction false} LastDisputeSnoc(ops: seq<Op>, op: Op, id: Id)
    ensures LastDispute(ops + [op], id) == if Labels(op, id) then Some(op.d) else LastDispute(ops, id)
  {
    assert (ops + [op])[..|ops|] == ops;
  }

  lemma {:induction false} RecordedLater(pol: Policy, ops: seq<Op>, k: nat, id: Id, f: Flip, op: Op)
    requires RecordedAt(pol, ops, k, id, f)
    ensures RecordedAt(pol, ops + [op], k, id,
                       if Labels(op, id) then f.(outcome := Some(OutcomeOf(pol, f, op.d))) else f)
  {
    FlipsAtLater(pol, ops, k, id, op);
    assert (ops + [op])[k + 1..] == ops[k + 1..] + [op];
    LastDisputeSnoc(ops[k + 1..], op, id);
    if Labels(op, id) {
      Relabelled(pol, Entry(pol, ops[k].o), LastDispute(ops[k + 1..], id), op.d);
    }
  }

  // where an entry of the index comes from, one call back
  lemma {:induction false} FlipStep(pol: Policy, s: Store, op: Op, id: Id)
    requires Inv(s) && id in Step(pol, s, op).flips
    requires op.Restart? ==> Load(s.flipFile, s.disputeFile).flips == s.flips
    ensures var f := Step(pol, s, op).flips[id];
            if op.Eval? && op.o.id == id && Flips(pol, op.o) && id !in s.seen then f == Entry(pol, op.o)
            else id in s.flips
                 && f == if Labels(op, id) then s.flips[id].(outcome := Some(OutcomeOf(pol, s.flips[id], op.d)))
                         else s.flips[id]
  {
  }

  lemma {:induction false} RestartKeepsFlips(pol: Policy, ops: seq<Op>)
    requires NoFailures(ops)
    ensures Load(Run(pol, ops).flipFile, Run(pol, ops).disputeFile).flips == Run(pol, ops).flips
  {
    NoFailuresNothingLost(pol, ops);
    FlipLogExact(pol, ops);
    LoadIsIndex(Run(pol, ops), {}, map[]);
  }

  lemma {:induction false} StepKeepsFlips(pol: Policy, ops: seq<Op>)
    requires NoFailures(ops) && ops != []
    ensures NoFailures(ops[..|ops| - 1]) && Run(pol, ops[..|ops| - 1]).flips.Keys <= Run(pol, ops).flips.Keys
  {
    var n := |ops| - 1;
    forall i | 0 <= i < n ensures ops[..n][i] == ops[i] {
    }
    RestartKeepsFlips(pol, ops[..n]);
  }

  lemma {:induction false} FlipsStay(pol: Policy, ops: seq<Op>, k: nat)
    requires NoFailures(ops) && k <= |ops|
    ensures Run(pol, ops[..k]).flips.Keys <= Run(pol, ops).flips.Keys
    decreases |ops|
  {
    if k < |ops| {
      StepKeepsFlips(pol, ops);
      assert ops[..|ops| - 1][..k] == ops[..k];
      FlipsStay(pol, ops[..|ops| - 1], k);
    } else {
      assert ops[..k] == ops;
    }
  }

  lemma {:induction false} FlippingIsRecorded(pol: Policy, ops: seq<Op>, k: nat, id: Id, m: nat)
    requires NoFailures(ops) && FlipsAt(pol, ops, k, id) && k < m <= |ops|
    ensures id in Run(pol, ops[..m]).flips
  {
    assert ops[..k + 1][..k] == ops[..k] && id in Run(pol, ops[..k + 1]).flips;
    assert ops[..m][..k + 1] == ops[..k + 1];
    forall i | 0 <= i < m ensures ops[..m][i] == ops[i] {
    }
    FlipsStay(pol, ops[..m], k + 1);
  }

  // Without write failures, restarts anywhere: the index holds an id exactly when some flipping evaluation
  // met it unseen, and only one did.
  lemma {:induction false} RecordedIff(pol: Policy, ops: seq<Op>, id: Id)
    requires NoFailures(ops)
    ensures id in Run(pol, ops).flips <==> exists k :: FlipsAt(pol, ops, k, id)
    ensures forall j, k :: FlipsAt(pol, ops, j, id) && FlipsAt(pol, ops, k, id) ==> j == k
  {
    if id in Run(pol, ops).flips {
      var k := FlipOrigin(pol, ops, id);
    }
    forall k | FlipsAt(pol, ops, k, id) ensures id in Run(pol, ops).flips {
      FlippingIsRecorded(pol, ops, k, id, |ops|);
      assert ops[..|ops|] == ops;
    }
    forall j, k | FlipsAt(pol, ops, j, id) && FlipsAt(pol, ops, k, id) ensures j == k {
      if j < k {
        FlippingIsRecorded(pol, ops, j, id, k);
      } else if k < j {
        FlippingIsRecorded(pol, ops, k, id, j);
      }
    }
  }

  lemma {:induction false} FlipOrigin(pol: Policy, ops: seq<Op>, id: Id) returns (k: nat)
    requires NoFailures(ops)
    ensures id in Run(pol, ops).flips ==> RecordedAt(pol, ops, k, id, Run(pol, ops).flips[id])
  {
    k := 0;
    if id in Run(pol, ops).flips {
      var n := |ops| - 1;
      var init, op := ops[..n], ops[n];
      assert ops == init + [op];
      forall i | 0 <= i < n ensures init[i] == ops[i] {
      }
      var s := Run(pol, init);
      RestartKeepsFlips(pol, init);
      FlipStep(pol, s, op, id);
      if op.Eval? && op.o.id == id && Flips(pol, op.o) && id !in s.seen {
        k := n;
        assert ops[k + 1..] == [];
      } else {
        k := FlipOrigin(pol, init, id);
        RecordedLater(pol, init, k, id, s.flips[id], op);
      }
    }
  }

  ghost predicate DisputedAfter(ops: seq<Op>, k: nat, id: Id) {
    exists i :: k < i < |ops| && Labels(ops[i], id)
  }

  lemma {:induction false} UnlabeledIffUndisputed(pol: Policy, ops: seq<Op>, k: nat, id: Id, f: Flip)
    requires RecordedAt(pol, ops, k, id, f)
    ensures f.Status() == Unlabeled <==> !DisputedAfter(ops, k, id)
  {
    var rest := ops[k + 1..];
    LastDisputeExact(rest, id);
    if LastDispute(rest, id).None? {
      forall i | k < i < |ops| ensures !Labels(ops[i], id) {
        assert ops[i] == rest[i - k - 1];
      }
    } else {
      var j :| 0 <= j < |rest| && IsLastDispute(rest, id, j) && rest[j].d == LastDispute(rest, id).value;
      assert rest[j] == ops[j + k + 1];
    }
  }

  // Without write failures, restarts anywhere: a recorded flip stems from one flipping evaluation,
  // is unlabelled exactly if no dispute for it with a comparable date came later, and else carries the
  // label of the last such dispute, mature from the maturation window on.
  lemma {:induction false} LabelsFollowDisputes(pol: Policy, ops: seq<Op>, id: Id) returns (k: nat)
    requires NoFailures(ops)
    ensures id in Run(pol, ops).flips ==>
              var f := Run(pol, ops).flips[id];
              RecordedAt(pol, ops, k, id, f) && (f.Status() == Unlabeled <==> !DisputedAfter(ops, k, id))
  {
    k := FlipOrigin(pol, ops, id);
    if id in Run(pol, ops).flips {
      UnlabeledIffUndisputed(pol, ops, k, id, Run(pol, ops).flips[id]);
    }
  }

  // the recorded fields of a flip, by the evaluation that recorded it
  ghost predicate EntryFields(pol: Policy, f: Flip, o: Order) {
    && f.id == o.id && f.timestamp == o.timestamp && f.amount == o.amount && f.prob == o.prob
    && f.hurdle == Hurdle(pol.costs, o.amount)
    && (f.tier == LIVE <==> o.signed && (o.tier == LIVE || o.tier == "PRODUCTION_LIVE"))
    && (f.tier != LIVE && f.tier != UNTRUSTED ==> f.tier == o.tier && o.tier in ALLOWED_TIERS)
    && (f.tier == UNTRUSTED <==>
          if o.tier == LIVE || o.tier == "PRODUCTION_LIVE" then !o.signed else o.tier !in ALLOWED_TIERS)
    && (f.riskTier == "LOW_RISK" <==> o.prob < 0.02)
    && (f.riskTier == "MODERATE_RISK" <==> 0.02 <= o.prob < 0.10)
    && (f.riskTier == "ELEVATED_RISK" <==> 0.10 <= o.prob < 0.25)
    && (f.riskTier == "CRITICAL_FRAUD" <==> o.prob >= 0.25)
  }

  // the outcome that a dispute puts on a flip recorded by an evaluation
  ghost predicate OutcomeFields(pol: Policy, x: Outcome, o: Order, d: Dispute) {
    && d.reportedAt.Instant?
    && x.truth == d.isFraud && x.chargeback == d.amount && x.at == d.reportedAt.t
    && x.elapsed == d.reportedAt.t - o.timestamp
    && (x.status == MatureFraud <==> d.reportedAt.t - o.timestamp >= pol.windowDays * 86400 && d.isFraud == 1)
    && (x.status == MatureLegitimate <==> d.reportedAt.t - o.timestamp >= pol.windowDays * 86400 && d.isFraud != 1)
    && (x.status == PendingMaturation <==> d.reportedAt.t - o.timestamp < pol.windowDays * 86400)
  }

  lemma {:induction false} LabelledFields(pol: Policy, f: Flip, o: Order, last: Option<Dispute>)
    requires (last.Some? ==> Dated(last.value)) && f == Labelled(pol, Entry(pol, o), last)
    ensures EntryFields(pol, f, o)
    ensures if last.None? then f.outcome == None
            else f.outcome.Some? && OutcomeFields(pol, f.outcome.value, o, last.value)
    ensures f.outcome == None <==> f.Status() == Unlabeled
  {
  }

  lemma {:induction false} LastOfSuffix(ops: seq<Op>, k: nat, id: Id, i: nat)
    requires k < i < |ops| && IsLastDispute(ops, id, i)
    ensures LastDispute(ops[k + 1..], id) == Some(ops[i].d)
  {
    var rest := ops[k + 1..];
    LastDisputeExact(rest, id);
    assert rest[i - k - 1] == ops[i];
    var j :| 0 <= j < |rest| && IsLastDispute(rest, id, j) && rest[j].d == LastDispute(rest, id).value;
    assert rest[j] == ops[j + k + 1];
    assert j >= i - k - 1;
  }

  // Without write failures, restarts anywhere: every field of a recorded flip, by the calls. The one flipping
  // evaluation at k gives the entry; if call i is the last dispute for it with a comparable date, that dispute
  // alone gives the outcome.
  lemma {:induction false} FlipFieldsExact(pol: Policy, ops: seq<Op>, id: Id) returns (k: nat)
    requires NoFailures(ops)
    ensures id in Run(pol, ops).flips ==>
              var f := Run(pol, ops).flips[id];
              && FlipsAt(pol, ops, k, id) && EntryFields(pol, f, ops[k].o)
              && (f.outcome == None <==> !DisputedAfter(ops, k, id))
              && forall i :: k < i < |ops| && IsLastDispute(ops, id, i) ==>
                   f.outcome.Some? && OutcomeFields(pol, f.outcome.value, ops[k].o, ops[i].d)
  {
    k := LabelsFollowDisputes(pol, ops, id);
    if id in Run(pol, ops).flips {
      LabelledFields(pol, Run(pol, ops).flips[id], ops[k].o, LastDispute(ops[k + 1..], id));
      forall i | k < i < |ops| && IsLastDispute(ops, id, i)
        ensures LastDispute(ops[k + 1..], id) == Some(ops[i].d)
      {
        LastOfSuffix(ops, k, id, i);
      }
    }
  }

  // A dispute enters index and log whatever its date; it labels the flip of its id exactly when its date can
  // be compared.
  lemma {:induction false} DisputeLabelsIff(pol: Policy, s: Store, d: Dispute, flushOk: bool)
    requires Indexed(s) && d.id in s.flips && s.flips[d.id].Status() == Unlabeled
    ensures var t := Ingest(pol, s, d, true, flushOk);
            && t.disputes == s.disputes[d.id := d] && t.disputeFile == s.disputeFile + [d]
            && t.flips.Keys == s.flips.Keys && (forall id :: id in s.flips && id != d.id ==> t.flips[id] == s.flips[id])
            && (t.flips[d.id].Status() != Unlabeled <==> Dated(d))
            && (!Dated(d) ==> t.flips == s.flips && t.flipFile == s.flipFile)
  {
  }

  lemma {:induction false} NoFailuresNothingLost(pol: Policy, ops: seq<Op>)
    requires NoFailures(ops)
    ensures Missing(pol, ops) == {} && Written(pol, ops) == map[]
  {
    if ops != [] {
      var n := |ops| - 1;
      assert forall i :: 0 <= i < n ==> ops[..n][i] == ops[i];
      NoFailuresNothingLost(pol, ops[..n]);
    }
  }
}
