// Label maturation: the life of a transaction's label from registration to confirmation or to the
// timeout of the dispute window.
// Source: ml-service/graphsage/label_maturation.py

module Maturation {
  import opened Common

  type Id = string

  datatype State = Unlabeled | Suspected | UnderInvestigation | ConfirmedFraud | ConfirmedLegitimate | Rejected

  const DAY := 86400

  datatype Record = Record(
    eventTime: int, state: State, labelTime: Option<int>, source: string, caseId: Option<string>,
    openedAt: Option<int>, closedAt: Option<int>, isCollusion: bool, confidence: real)

  function NewRecord(eventTime: int): Record {
    Record(eventTime, Unlabeled, None, "PENDING", None, None, None, false, 0.0)
  }

  // ---------------------------------------------------------------------------
  // The operations on one record
  // ---------------------------------------------------------------------------

  function Flagged(r: Record): Record {
    if r.state == Unlabeled then r.(state := Suspected) else r
  }

  function Opened(r: Record, caseId: string, at: int): Record {
    r.(state := UnderInvestigation, caseId := Some(caseId), openedAt := Some(at))
  }

  datatype Confirmation = Confirmation(state: State, source: string, at: int, isCollusion: bool, confidence: real,
    caseId: Option<string>)

  function Confirmed(r: Record, c: Confirmation): Record {
    r.(state := c.state, source := c.source, labelTime := Some(c.at), closedAt := Some(c.at),
       isCollusion := c.isCollusion, confidence := c.confidence,
       caseId := if c.caseId.Some? && c.caseId.value != "" then c.caseId else r.caseId)
  }

  predicate Ripe(r: Record, windowDays: nat, asOf: int) {
    r.state == Unlabeled && asOf - r.eventTime >= windowDays * DAY
  }

  function Timeout(r: Record, windowDays: nat): Record {
    r.(state := ConfirmedLegitimate, source := "DISPUTE_WINDOW_TIMEOUT",
       labelTime := Some(r.eventTime + windowDays * DAY), confidence := 0.99)
  }

  function Ripened(r: Record, windowDays: nat, asOf: int): Record {
    if Ripe(r, windowDays, asOf) then Timeout(r, windowDays) else r
  }

  function RipenAll(m: map<Id, Record>, windowDays: nat, asOf: int): map<Id, Record> {
    map id | id in m :: Ripened(m[id], windowDays, asOf)
  }

  function RipeIds(m: map<Id, Record>, windowDays: nat, asOf: int): set<Id> {
    set id | id in m && Ripe(m[id], windowDays, asOf)
  }

  // ---------------------------------------------------------------------------
  // The engine
  // ---------------------------------------------------------------------------

  datatype Op = Register(id: Id, eventTime: int)
              | Flag(id: Id)
              | Open(id: Id, caseId: string, at: int)
              | Confirm(id: Id, c: Confirmation)
              | AutoMature(asOf: int)

  function Step(m: map<Id, Record>, windowDays: nat, op: Op): map<Id, Record> {
    match op
    case Register(id, eventTime) => m[id := NewRecord(eventTime)]
    case Flag(id) => if id in m then m[id := Flagged(m[id])] else m
    case Open(id, caseId, at) => if id in m then m[id := Opened(m[id], caseId, at)] else m
    case Confirm(id, c) =>
      m[id := Confirmed(if id in m then m[id] else NewRecord(c.at - windowDays * DAY), c)]
    case AutoMature(asOf) => RipenAll(m, windowDays, asOf)
  }

  function Run(windowDays: nat, ops: seq<Op>): map<Id, Record> {
    if ops == [] then map[] else Step(Run(windowDays, ops[..|ops| - 1]), windowDays, ops[|ops| - 1])
  }

  // the records of all other ids are as they were
  ghost predicate OthersKept(before: map<Id, Record>, after: map<Id, Record>, id: Id) {
    id in after && after - {id} == before - {id}
  }

  // what an auto-maturation may and must do to a record: only an unlabelled one whose event is at least
  // the window of days old changes, into a legitimate label dated at the end of that window
  ghost predicate MaturedFrom(r: Record, r': Record, windowDays: nat, asOf: int) {
    && r' == r.(state := r'.state, source := r'.source, labelTime := r'.labelTime, confidence := r'.confidence)
    && if r.state == Unlabeled && r.eventTime + windowDays * 86400 <= asOf then
         && r'.state == ConfirmedLegitimate && r'.source == "DISPUTE_WINDOW_TIMEOUT" && r'.confidence == 0.99
         && r'.labelTime == Some(r.eventTime + windowDays * 86400)
       else r' == r
  }

  class LabelMaturationEngine {
    const windowDays: nat
    var records: map<Id, Record>

    constructor (windowDays: nat)
      ensures this.windowDays == windowDays && records == map[]
    {
      this.windowDays, records := windowDays, map[];
    }

    method RegisterTransaction(id: Id, eventTime: int)
      modifies this
      ensures records == Step(old(records), windowDays, Register(id, eventTime))
      ensures records[id] == Record(eventTime, Unlabeled, None, "PENDING", None, None, None, false, 0.0)
      ensures OthersKept(old(records), records, id)
    {
      records := records[id := NewRecord(eventTime)];
    }

    method FlagSuspected(id: Id) returns (found: bool)
      modifies this
      ensures records == Step(old(records), windowDays, Flag(id)) && found == (id in old(records))
      ensures !found ==> records == old(records)
      ensures found ==> && OthersKept(old(records), records, id)
                        && var r := old(records)[id];
                           records[id] == if r.state == Unlabeled then r.(state := Suspected) else r
    {
      found := id in records;
      if found {
        var rec := records[id];
        if rec.state == Unlabeled {
          rec := rec.(state := Suspected);
        }
        records := records[id := rec];
      }
    }

    method OpenInvestigation(id: Id, caseId: string, at: int) returns (found: bool)
      modifies this
      ensures records == Step(old(records), windowDays, Open(id, caseId, at)) && found == (id in old(records))
      ensures !found ==> records == old(records)
      ensures found ==>
                && OthersKept(old(records), records, id)
                && var r, r' := old(records)[id], records[id];
                   && r'.state == UnderInvestigation && r'.caseId == Some(caseId) && r'.openedAt == Some(at)
                   && r' == r.(state := r'.state, caseId := r'.caseId, openedAt := r'.openedAt)
    {
      found := id in records;
      if found {
        records := records[id :=
          records[id].(state := UnderInvestigation, caseId := Some(caseId), openedAt := Some(at))];
      }
    }

    method ConfirmLabel(id: Id, c: Confirmation)
      modifies this
      ensures records == Step(old(records), windowDays, Confirm(id, c))
      ensures OthersKept(old(records), records, id)
      ensures var r' := records[id];
              && r'.state == c.state && r'.source == c.source && r'.isCollusion == c.isCollusion
              && r'.confidence == c.confidence && r'.labelTime == r'.closedAt == Some(c.at)
              && r'.eventTime == (if id in old(records) then old(records)[id].eventTime else c.at - windowDays * 86400)
              && r'.openedAt == (if id in old(records) then old(records)[id].openedAt else None)
              && r'.caseId == (if c.caseId.Some? && c.caseId.value != "" then c.caseId
                               else if id in old(records) then old(records)[id].caseId else None)
    {
      if id !in records {
        RegisterTransaction(id, c.at - windowDays * DAY);
      }
      var rec := records[id];
      rec := rec.(state := c.state, source := c.source, labelTime := Some(c.at), closedAt := Some(c.at));
      rec := rec.(isCollusion := c.isCollusion, confidence := c.confidence);
      if c.caseId.Some? && c.caseId.value != "" {
        rec := rec.(caseId := c.caseId);
      }
      records := records[id := rec];
    }

    method AutoMatureCleanTransactions(asOf: int) returns (matured: nat)
      modifies this
      ensures records == Step(old(records), windowDays, AutoMature(asOf))
      ensures records.Keys == old(records).Keys
      ensures forall id :: id in records ==> MaturedFrom(old(records)[id], records[id], windowDays, asOf)
      ensures matured == |RipeIds(old(records), windowDays, asOf)|
    {
      matured := 0;
      ghost var before := records;
      var todo := records.Keys;
      while todo != {}
        invariant todo <= before.Keys
        invariant PartlyRipened(records, before, todo, windowDays, asOf)
        invariant matured == |RipeIds(before - todo, windowDays, asOf)|
        decreases todo
      {
        var id :| id in todo;
        var rec := records[id];
        ghost var next := records[id := Ripened(rec, windowDays, asOf)];
        RipenOne(records, before, todo, windowDays, asOf, id);
        if rec.state == Unlabeled && asOf - rec.eventTime >= windowDays * DAY {
          records := records[id := rec.(state := ConfirmedLegitimate, source := "DISPUTE_WINDOW_TIMEOUT",
                                        labelTime := Some(rec.eventTime + windowDays * DAY), confidence := 0.99)];
          matured := matured + 1;
        }
        assert records == next;
        todo := todo - {id};
      }
      assert before - {} == before;
    }
  }

  // the records of `todo` are still as they were, the others have been looked at
  ghost predicate PartlyRipened(
    m: map<Id, Record>, before: map<Id, Record>, todo: set<Id>, windowDays: nat, asOf: int)
  {
    && m.Keys == before.Keys
    && forall id :: id in before ==> m[id] == if id in todo then before[id] else Ripened(before[id], windowDays, asOf)
  }

  lemma {:induction false} RipenOne(
    m: map<Id, Record>, before: map<Id, Record>, todo: set<Id>, windowDays: nat, asOf: int, id: Id)
    requires PartlyRipened(m, before, todo, windowDays, asOf) && id in todo && todo <= before.Keys
    ensures m[id] == before[id]
    ensures PartlyRipened(m[id := Ripened(m[id], windowDays, asOf)], before, todo - {id}, windowDays, asOf)
    ensures |RipeIds(before - (todo - {id}), windowDays, asOf)|
         == |RipeIds(before - todo, windowDays, asOf)| + (if Ripe(m[id], windowDays, asOf) then 1 else 0)
  {
    var wasDone, done := RipeIds(before - todo, windowDays, asOf), RipeIds(before - (todo - {id}), windowDays, asOf);
    assert done == if Ripe(before[id], windowDays, asOf) then wasDone + {id} else wasDone;
  }

  // ---------------------------------------------------------------------------
  // Auto-maturation
  // ---------------------------------------------------------------------------

  // Maturing at t1 and then at a later t2 leaves the same records as maturing at t2 alone, and the two
  // counts add up to its count: how often the job runs does not matter.
  lemma {:induction false} MaturationComposes(m: map<Id, Record>, windowDays: nat, t1: int, t2: int)
    requires t1 <= t2
    ensures RipenAll(RipenAll(m, windowDays, t1), windowDays, t2) == RipenAll(m, windowDays, t2)
    ensures |RipeIds(m, windowDays, t1)| + |RipeIds(RipenAll(m, windowDays, t1), windowDays, t2)|
            == |RipeIds(m, windowDays, t2)|
  {
    var a, b := RipeIds(m, windowDays, t1), RipeIds(RipenAll(m, windowDays, t1), windowDays, t2);
    assert RipeIds(m, windowDays, t2) == a + b;
    assert a !! b;
  }

  // A timeout touches unlabelled records only, and dates its label at the end of the window, never
  // after the instant it is run for.
  lemma {:induction false} MaturationTouchesOnlyRipe(m: map<Id, Record>, windowDays: nat, asOf: int, id: Id)
    requires id in m
    ensures var r, r' := m[id], RipenAll(m, windowDays, asOf)[id];
            && (r' != r <==> r.state == Unlabeled && r.eventTime + windowDays * 86400 <= asOf)
            && (r' != r <==> id in RipeIds(m, windowDays, asOf))
            && (r' != r ==> r'.state == ConfirmedLegitimate && r'.labelTime == Some(r.eventTime + windowDays * 86400)
                            && r'.labelTime.value <= asOf)
  {
  }

  // ---------------------------------------------------------------------------
  // The state of a label, from the history of calls
  // ---------------------------------------------------------------------------

  // calls that fix the state of id outright: everything but flags and timeouts
  predicate Decisive(op: Op, id: Id) {
    match op
    case Register(i, _) => i == id
    case Open(i, _, _) => i == id
    case Confirm(i, _) => i == id
    case Flag(_) => false
    case AutoMature(_) => false
  }

  function DecidedState(op: Op): State {
    match op
    case Open(_, _, _) => UnderInvestigation
    case Confirm(_, c) => c.state
    case _ => Unlabeled
  }

  // the calls after the last decisive one for id
  function Since(ops: seq<Op>, id: Id): seq<Op> {
    if ops == [] then []
    else if Decisive(ops[|ops| - 1], id) then []
    else Since(ops[..|ops| - 1], id) + [ops[|ops| - 1]]
  }

  function LastDecisive(ops: seq<Op>, id: Id): Option<Op> {
    if ops == [] then None
    else if Decisive(ops[|ops| - 1], id) then Some(ops[|ops| - 1])
    else LastDecisive(ops[..|ops| - 1], id)
  }

  // does the call take an unlabelled id registered at eventTime out of that state, and to which?
  function Trigger(op: Op, id: Id, windowDays: nat, eventTime: int): Option<State> {
    match op
    case Flag(i) => if i == id then Some(Suspected) else None
    case AutoMature(asOf) => if asOf - eventTime >= windowDays * DAY then Some(ConfirmedLegitimate) else None
    case _ => None
  }

  // the first call that does decides
  function FirstTrigger(ops: seq<Op>, id: Id, windowDays: nat, eventTime: int): State {
    if ops == [] then Unlabeled
    else
      var before := FirstTrigger(ops[..|ops| - 1], id, windowDays, eventTime);
      if before != Unlabeled then before
      else
        match Trigger(ops[|ops| - 1], id, windowDays, eventTime)
        case Some(s) => s
        case None => Unlabeled
  }

  lemma {:induction false} SinceSnoc(ops: seq<Op>, op: Op, id: Id)
    ensures Since(ops + [op], id) == if Decisive(op, id) then [] else Since(ops, id) + [op]
    ensures LastDecisive(ops + [op], id) == if Decisive(op, id) then Some(op) else LastDecisive(ops, id)
  {
    assert (ops + [op])[..|ops|] == ops;
  }

  lemma {:induction false} FirstTriggerSnoc(ops: seq<Op>, op: Op, id: Id, windowDays: nat, eventTime: int)
    ensures FirstTrigger(ops + [op], id, windowDays, eventTime) ==
            var before := FirstTrigger(ops, id, windowDays, eventTime);
            if before != Unlabeled then before
            else match Trigger(op, id, windowDays, eventTime)
                 case Some(s) => s
                 case None => Unlabeled
  {
    assert (ops + [op])[..|ops|] == ops;
  }

  // the state that the history prescribes for an existing record
  function Prescribed(windowDays: nat, ops: seq<Op>, id: Id, eventTime: int): State {
    match LastDecisive(ops, id)
    case None => Unlabeled
    case Some(d) =>
      if DecidedState(d) == Unlabeled then FirstTrigger(Since(ops, id), id, windowDays, eventTime) else DecidedState(d)
  }

  lemma {:induction false} PrescribedSnoc(windowDays: nat, ops: seq<Op>, op: Op, id: Id, eventTime: int)
    requires LastDecisive(ops, id).Some? && !Decisive(op, id)
    ensures Prescribed(windowDays, ops + [op], id, eventTime) ==
            var before := Prescribed(windowDays, ops, id, eventTime);
            if before != Unlabeled then before
            else match Trigger(op, id, windowDays, eventTime)
                 case Some(s) => s
                 case None => Unlabeled
  {
    SinceSnoc(ops, op, id);
    FirstTriggerSnoc(Since(ops, id), op, id, windowDays, eventTime);
  }

  lemma {:induction false} DecisiveStep(m: map<Id, Record>, windowDays: nat, op: Op, id: Id)
    requires id in Step(m, windowDays, op) && Decisive(op, id)
    ensures Step(m, windowDays, op)[id].state == DecidedState(op)
  {
  }

  lemma {:induction false} OtherStep(m: map<Id, Record>, windowDays: nat, op: Op, id: Id)
    requires !Decisive(op, id)
    ensures id in Step(m, windowDays, op) <==> id in m
    ensures id in m ==>
              && Step(m, windowDays, op)[id].eventTime == m[id].eventTime
              && Step(m, windowDays, op)[id].state ==
                 if m[id].state != Unlabeled then m[id].state
                 else match Trigger(op, id, windowDays, m[id].eventTime)
                      case Some(s) => s
                      case None => Unlabeled
  {
  }

  // After any run, the state of a record is the one its last decisive call fixed; and where that call
  // left it unlabelled, the first flag or due timeout after it decides, whichever came first.
  lemma {:induction false} StateFollowsHistory(windowDays: nat, ops: seq<Op>, id: Id)
    requires id in Run(windowDays, ops)
    ensures LastDecisive(ops, id).Some?
    ensures Run(windowDays, ops)[id].state == Prescribed(windowDays, ops, id, Run(windowDays, ops)[id].eventTime)
  {
    if ops != [] {
      var n := |ops| - 1;
      var init, op := ops[..n], ops[n];
      assert ops == init + [op];
      var m := Run(windowDays, init);
      SinceSnoc(init, op, id);
      if Decisive(op, id) {
        DecisiveStep(m, windowDays, op, id);
      } else {
        OtherStep(m, windowDays, op, id);
        StateFollowsHistory(windowDays, init, id);
        PrescribedSnoc(windowDays, init, op, id, m[id].eventTime);
      }
    }
  }

  lemma {:induction false} TriggersAreNotFraud(ops: seq<Op>, id: Id, windowDays: nat, eventTime: int)
    ensures FirstTrigger(ops, id, windowDays, eventTime) in {Unlabeled, Suspected, ConfirmedLegitimate}
  {
    if ops != [] {
      TriggersAreNotFraud(ops[..|ops| - 1], id, windowDays, eventTime);
    }
  }

  // call k fixes the state of id outright, and no later call does
  ghost predicate Decides(ops: seq<Op>, k: nat, id: Id) {
    k < |ops| && Decisive(ops[k], id) && forall j :: k < j < |ops| ==> !Decisive(ops[j], id)
  }

  lemma {:induction false} DecidesAt(ops: seq<Op>, k: nat, id: Id)
    requires Decides(ops, k, id)
    ensures LastDecisive(ops, id) == Some(ops[k]) && Since(ops, id) == ops[k + 1..]
  {
    var n := |ops| - 1;
    if k < n {
      assert !Decisive(ops[n], id);
      DecidesAt(ops[..n], k, id);
      assert ops[..n][k + 1..] + [ops[n]] == ops[k + 1..];
    }
  }

  lemma {:induction false} SomeCallDecides(ops: seq<Op>, id: Id) returns (k: nat)
    requires LastDecisive(ops, id).Some?
    ensures Decides(ops, k, id)
  {
    var n := |ops| - 1;
    if Decisive(ops[n], id) {
      k := n;
    } else {
      k := SomeCallDecides(ops[..n], id);
      assert forall j :: k < j < n ==> ops[j] == ops[..n][j];
    }
  }

  // call j takes the unlabelled id to s, and no call before it takes the id anywhere
  ghost predicate TriggersFirst(ops: seq<Op>, j: nat, id: Id, windowDays: nat, eventTime: int, s: State) {
    && j < |ops| && Trigger(ops[j], id, windowDays, eventTime) == Some(s)
    && forall i :: 0 <= i < j ==> Trigger(ops[i], id, windowDays, eventTime) == None
  }

  lemma {:induction false} FirstTriggerAt(ops: seq<Op>, id: Id, windowDays: nat, eventTime: int, s: State)
    requires s != Unlabeled
    ensures FirstTrigger(ops, id, windowDays, eventTime) == s
            <==> exists j: nat :: TriggersFirst(ops, j, id, windowDays, eventTime, s)
    ensures FirstTrigger(ops, id, windowDays, eventTime) == Unlabeled
            <==> forall j :: 0 <= j < |ops| ==> Trigger(ops[j], id, windowDays, eventTime) == None
  {
    if ops != [] {
      var n := |ops| - 1;
      var init := ops[..n];
      FirstTriggerAt(init, id, windowDays, eventTime, s);
      assert forall j: nat :: j < n ==> init[j] == ops[j];
      assert forall j: nat :: TriggersFirst(init, j, id, windowDays, eventTime, s)
                              <==> j < n && TriggersFirst(ops, j, id, windowDays, eventTime, s);
      assert TriggersFirst(ops, n, id, windowDays, eventTime, s) <==>
             && FirstTrigger(init, id, windowDays, eventTime) == Unlabeled
             && Trigger(ops[n], id, windowDays, eventTime) == Some(s);
    }
  }

  // a timeout that is due for an event of that instant
  predicate DueTimeout(op: Op, windowDays: nat, eventTime: int) {
    op.AutoMature? && eventTime + windowDays * 86400 <= op.asOf
  }

  // call j is the first to move id after its registration, and it flags it
  ghost predicate FlaggedFirst(ops: seq<Op>, k: nat, j: nat, id: Id, windowDays: nat, eventTime: int) {
    k < j < |ops| && ops[j] == Flag(id) && forall i :: k < i < j ==> !DueTimeout(ops[i], windowDays, eventTime)
  }

  // call j is the first to move id after its registration, and it is a due timeout
  ghost predicate TimedOutFirst(ops: seq<Op>, k: nat, j: nat, id: Id, windowDays: nat, eventTime: int) {
    k < j < |ops| && DueTimeout(ops[j], windowDays, eventTime) && forall i :: k < i < j ==> ops[i] != Flag(id)
  }

  // A record last decided by its registration, at call k: it is suspected exactly when some later flag
  // came before every due timeout, and legitimate exactly when some due timeout came before every flag.
  lemma {:induction false} FlagAgainstTimeout(windowDays: nat, ops: seq<Op>, k: nat, id: Id)
    requires Decides(ops, k, id) && ops[k].Register?
    ensures id in Run(windowDays, ops)
    ensures var r := Run(windowDays, ops)[id];
            && r.eventTime == ops[k].eventTime
            && (r.state == Suspected <==>
                exists j: nat :: FlaggedFirst(ops, k, j, id, windowDays, r.eventTime))
            && (r.state == ConfirmedLegitimate <==>
                exists j: nat :: TimedOutFirst(ops, k, j, id, windowDays, r.eventTime))
  {
    RegisteredAt(windowDays, ops, k, id);
    StateFollowsHistory(windowDays, ops, id);
    DecidesAt(ops, k, id);
    var t, later := ops[k].eventTime, ops[k + 1..];
    FirstTriggerAt(later, id, windowDays, t, Suspected);
    FirstTriggerAt(later, id, windowDays, t, ConfirmedLegitimate);
    FirstMovesFlag(ops, k, later, id, windowDays, t);
    FirstMovesTimeout(ops, k, later, id, windowDays, t);
  }

  lemma {:induction false} RegisteredAt(windowDays: nat, ops: seq<Op>, k: nat, id: Id)
    requires Decides(ops, k, id) && ops[k].Register?
    ensures id in Run(windowDays, ops) && Run(windowDays, ops)[id].eventTime == ops[k].eventTime
    decreases |ops|
  {
    var n := |ops| - 1;
    if k < n {
      RegisteredAt(windowDays, ops[..n], k, id);
      OtherStep(Run(windowDays, ops[..n]), windowDays, ops[n], id);
    }
  }

  // the first trigger among the calls after k is a flag that came before every due timeout
  lemma {:induction false} FirstMovesFlag(ops: seq<Op>, k: nat, later: seq<Op>, id: Id, windowDays: nat, t: int)
    requires k < |ops| && later == ops[k + 1..]
    ensures (exists j: nat :: TriggersFirst(later, j, id, windowDays, t, Suspected))
            <==> exists j: nat :: FlaggedFirst(ops, k, j, id, windowDays, t)
  {
    forall j: nat | TriggersFirst(later, j, id, windowDays, t, Suspected)
      ensures FlaggedFirst(ops, k, k + 1 + j, id, windowDays, t)
    {
      forall i | k < i < k + 1 + j ensures !DueTimeout(ops[i], windowDays, t) {
        assert ops[i] == later[i - k - 1];
      }
    }
    if exists j: nat :: FlaggedFirst(ops, k, j, id, windowDays, t) {
      var j: nat :| FlaggedFirst(ops, k, j, id, windowDays, t);
      j := FirstFlag(ops, k, j, id, windowDays, t);
      assert TriggersFirst(later, j - k - 1, id, windowDays, t, Suspected);
    }
  }

  lemma {:induction false} FirstMovesTimeout(ops: seq<Op>, k: nat, later: seq<Op>, id: Id, windowDays: nat, t: int)
    requires k < |ops| && later == ops[k + 1..]
    ensures (exists j: nat :: TriggersFirst(later, j, id, windowDays, t, ConfirmedLegitimate))
            <==> exists j: nat :: TimedOutFirst(ops, k, j, id, windowDays, t)
  {
    forall j: nat | TriggersFirst(later, j, id, windowDays, t, ConfirmedLegitimate)
      ensures TimedOutFirst(ops, k, k + 1 + j, id, windowDays, t)
    {
      forall i | k < i < k + 1 + j ensures ops[i] != Flag(id) {
        assert ops[i] == later[i - k - 1];
      }
    }
    if exists j: nat :: TimedOutFirst(ops, k, j, id, windowDays, t) {
      var j: nat :| TimedOutFirst(ops, k, j, id, windowDays, t);
      j := FirstTimeout(ops, k, j, id, windowDays, t);
      assert TriggersFirst(later, j - k - 1, id, windowDays, t, ConfirmedLegitimate);
    }
  }

  // from a flag before every due timeout back to the first flag
  lemma {:induction false} FirstFlag(ops: seq<Op>, k: nat, j: nat, id: Id, windowDays: nat, t: int) returns (f: nat)
    requires FlaggedFirst(ops, k, j, id, windowDays, t)
    ensures FlaggedFirst(ops, k, f, id, windowDays, t) && forall i :: k < i < f ==> ops[i] != Flag(id)
    decreases j
  {
    f := j;
    if i :| k < i < j && ops[i] == Flag(id) {
      f := FirstFlag(ops, k, i, id, windowDays, t);
    }
  }

  lemma {:induction false} FirstTimeout(ops: seq<Op>, k: nat, j: nat, id: Id, windowDays: nat, t: int)
    returns (f: nat)
    requires TimedOutFirst(ops, k, j, id, windowDays, t)
    ensures TimedOutFirst(ops, k, f, id, windowDays, t) && forall i :: k < i < f ==> !DueTimeout(ops[i], windowDays, t)
    decreases j
  {
    f := j;
    if i :| k < i < j && DueTimeout(ops[i], windowDays, t) {
      f := FirstTimeout(ops, k, i, id, windowDays, t);
    }
  }

  // So a record is confirmed fraud exactly when the last call that registered, opened or confirmed it
  // is a confirmation carrying that state: no flag, timeout or registration gets there.
  lemma {:induction false} FraudOnlyByConfirmation(windowDays: nat, ops: seq<Op>, id: Id)
    requires id in Run(windowDays, ops)
    ensures Run(windowDays, ops)[id].state == ConfirmedFraud <==>
            exists k: nat :: && Decides(ops, k, id)
                             && ops[k].Confirm? && ops[k].c.state == ConfirmedFraud
  {
    StateFollowsHistory(windowDays, ops, id);
    TriggersAreNotFraud(Since(ops, id), id, windowDays, Run(windowDays, ops)[id].eventTime);
    var k := SomeCallDecides(ops, id);
    forall k: nat | Decides(ops, k, id) ensures LastDecisive(ops, id) == Some(ops[k]) {
      DecidesAt(ops, k, id);
    }
  }

  // And an opened investigation is immune to timeouts until it is registered or confirmed again.
  lemma {:induction false} InvestigationIsNotMatured(windowDays: nat, ops: seq<Op>, k: nat, id: Id)
    requires id in Run(windowDays, ops) && Decides(ops, k, id) && ops[k].Open?
    ensures Run(windowDays, ops)[id].state == UnderInvestigation
  {
    StateFollowsHistory(windowDays, ops, id);
    DecidesAt(ops, k, id);
  }
}
