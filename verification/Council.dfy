// The agent council: a vote tallied in maps whose iteration order is arbitrary, the guardrail that an
// opinion must pass, and the compliance audit of the verdicts.
// Sources: backend/internal/agent_council/debate_engine.go,
// backend/internal/agents/agent_guardrails.go, backend/internal/agent_council/compliance_monitor_agent.go

module Council {
  import opened Common

  datatype Opinion = Opinion(agent: string, role: string, action: string, confidence: real, evidence: seq<string>,
    dissentReason: string)

  datatype Consensus = Unanimous | Majority | HumanReviewRequired

  datatype Decision = Decision(incident: string, action: string, confidence: real, consensus: Consensus,
                               supporting: seq<string>, dissenting: seq<string>)

  // ---------------------------------------------------------------------------
  // What a verdict must be
  // ---------------------------------------------------------------------------

  function Votes(ops: seq<Opinion>, action: string): nat {
    if ops == [] then 0
    else Votes(ops[..|ops| - 1], action) + (if ops[|ops| - 1].action == action then 1 else 0)
  }

  function ConfidenceSum(ops: seq<Opinion>, action: string): real {
    if ops == [] then 0.0
    else ConfidenceSum(ops[..|ops| - 1], action) +
         (if ops[|ops| - 1].action == action then ops[|ops| - 1].confidence else 0.0)
  }

  function AgentsFor(ops: seq<Opinion>, action: string): seq<string> {
    if ops == [] then []
    else if ops[|ops| - 1].action == action then AgentsFor(ops[..|ops| - 1], action) + [ops[|ops| - 1].agent]
    else AgentsFor(ops[..|ops| - 1], action)
  }

  function AgentsAgainst(ops: seq<Opinion>, action: string): seq<string> {
    if ops == [] then []
    else if ops[|ops| - 1].action == action then AgentsAgainst(ops[..|ops| - 1], action)
    else AgentsAgainst(ops[..|ops| - 1], action) + [ops[|ops| - 1].agent + " (preferred " + ops[|ops| - 1].action + ")"]
  }

  function ComplianceAgents(ops: seq<Opinion>): seq<string> {
    if ops == [] then []
    else if ops[|ops| - 1].role == "COMPLIANCE" then ComplianceAgents(ops[..|ops| - 1]) + [ops[|ops| - 1].agent]
    else ComplianceAgents(ops[..|ops| - 1])
  }

  predicate Objects(op: Opinion) {
    op.role == "COMPLIANCE" && op.dissentReason != ""
  }

  ghost predicate Vetoed(ops: seq<Opinion>) {
    exists op :: op in ops && Objects(op)
  }

  // no action has more votes
  ghost predicate Leads(ops: seq<Opinion>, action: string) {
    Votes(ops, action) > 0 && forall other :: Votes(ops, other) <= Votes(ops, action)
  }

  function ConsensusOf(votes: nat, n: nat): Consensus {
    if votes == n then Unanimous
    else if votes as real < n as real * 0.6 then HumanReviewRequired
    else Majority
  }

  // the decision for a leading action
  function VerdictFor(incident: string, ops: seq<Opinion>, action: string): Decision
    requires Votes(ops, action) > 0
  {
    Decision(incident, action, ConfidenceSum(ops, action) / Votes(ops, action) as real,
             ConsensusOf(Votes(ops, action), |ops|), AgentsFor(ops, action), AgentsAgainst(ops, action))
  }

  // d is a possible verdict: with a tie there are several, one for each leading action
  ghost predicate Verdict(incident: string, ops: seq<Opinion>, d: Decision) {
    if ops == [] then d == Decision(incident, "REQUIRE_HUMAN_REVIEW", 0.0, HumanReviewRequired, [], [])
    else if Vetoed(ops) then
      d == Decision(incident, "ESCALATE_TO_HUMAN_ANALYST", 0.5, HumanReviewRequired, ["ComplianceAgent"],
        ComplianceAgents(ops))
    else
      Leads(ops, d.action) && d == VerdictFor(incident, ops, d.action)
  }

  // ---------------------------------------------------------------------------
  // The running maximum over one iteration order of the vote map
  // ---------------------------------------------------------------------------

  function Actions(ops: seq<Opinion>): set<string> {
    set op | op in ops :: op.action
  }

  // an order in which an iteration may deliver the keys: each once
  ghost predicate Lists(order: seq<string>, keys: set<string>) {
    NoDuplicates(order) && SetOf(order) == keys
  }

  datatype Lead = Lead(action: string, votes: nat)

  // what the loop has found after the keys of `order`
  function Best(ops: seq<Opinion>, order: seq<string>): Lead {
    if order == [] then Lead("", 0)
    else
      var sofar, act := Best(ops, order[..|order| - 1]), order[|order| - 1];
      if Votes(ops, act) > sofar.votes then Lead(act, Votes(ops, act)) else sofar
  }

  lemma {:induction false} VotesIffProposed(ops: seq<Opinion>, action: string)
    ensures Votes(ops, action) > 0 <==> action in Actions(ops)
  {
    if ops != [] {
      var n := |ops| - 1;
      VotesIffProposed(ops[..n], action);
      assert ops == ops[..n] + [ops[n]];
      assert Actions(ops) == Actions(ops[..n]) + {ops[n].action};
    }
  }

  // the loop ends on the largest count among its keys
  lemma {:induction false} BestIsMaximal(ops: seq<Opinion>, order: seq<string>)
    ensures var b := Best(ops, order);
            && (forall a :: a in order ==> Votes(ops, a) <= b.votes)
            && (b.votes > 0 ==> b.action in order && b.votes == Votes(ops, b.action))
  {
    if order != [] {
      var n := |order| - 1;
      BestIsMaximal(ops, order[..n]);
      assert order == order[..n] + [order[n]];
    }
  }

  lemma {:induction false} BestLeads(ops: seq<Opinion>, order: seq<string>)
    requires ops != [] && Lists(order, Actions(ops))
    ensures var b := Best(ops, order); Leads(ops, b.action) && b.votes == Votes(ops, b.action)
  {
    BestIsMaximal(ops, order);
    forall a ensures Votes(ops, a) <= Best(ops, order).votes {
      VotesIffProposed(ops, a);
      assert a in Actions(ops) <==> a in SetOf(order);
    }
    var last := ops[|ops| - 1].action;
    assert Votes(ops, last) > 0;
  }

  // a leading action met first is never replaced: the comparison is strict
  lemma {:induction false} FirstLeaderStays(ops: seq<Opinion>, x: string, rest: seq<string>)
    requires Leads(ops, x)
    ensures Best(ops, [x] + rest) == Lead(x, Votes(ops, x))
  {
    if rest == [] {
      assert [x] + rest == [x];
      assert Best(ops, [x][..0]) == Lead("", 0);
    } else {
      var n := |rest| - 1;
      assert ([x] + rest)[..n + 1] == [x] + rest[..n];
      FirstLeaderStays(ops, x, rest[..n]);
    }
  }

  lemma {:induction false} Listing(keys: set<string>) returns (order: seq<string>)
    ensures Lists(order, keys)
  {
    if keys == {} {
      order := [];
    } else {
      var k :| k in keys;
      var rest := Listing(keys - {k});
      order := [k] + rest;
      assert k !in SetOf(rest);
      assert SetOf(order) == {k} + SetOf(rest);
    }
  }

  lemma {:induction false} LeaderFirst(ops: seq<Opinion>, x: string) returns (order: seq<string>)
    requires Leads(ops, x)
    ensures Lists(order, Actions(ops)) && Best(ops, order) == Lead(x, Votes(ops, x))
  {
    VotesIffProposed(ops, x);
    var rest := Listing(Actions(ops) - {x});
    order := [x] + rest;
    assert x !in SetOf(rest);
    assert SetOf(order) == {x} + SetOf(rest);
    FirstLeaderStays(ops, x, rest);
  }

  // An action leads exactly when some iteration order makes the loop end on it.
  lemma {:induction false} LeadsIffSomeOrder(ops: seq<Opinion>, x: string)
    requires ops != []
    ensures Leads(ops, x) <==> exists order :: Lists(order, Actions(ops)) && Best(ops, order).action == x
  {
    if Leads(ops, x) {
      var order := LeaderFirst(ops, x);
    }
    if exists order :: Lists(order, Actions(ops)) && Best(ops, order).action == x {
      var order :| Lists(order, Actions(ops)) && Best(ops, order).action == x;
      BestLeads(ops, order);
    }
  }

  // ---------------------------------------------------------------------------
  // The deliberation
  // ---------------------------------------------------------------------------

  // the two tallies after the opinions seen so far
  ghost predicate Tallied(counts: map<string, nat>, sums: map<string, real>, ops: seq<Opinion>) {
    && counts.Keys == sums.Keys
    && forall a :: && (a in counts <==> Votes(ops, a) > 0)
                   && (a in counts ==> counts[a] == Votes(ops, a) && sums[a] == ConfidenceSum(ops, a))
  }

  lemma {:induction false} NoVotesNoConfidence(ops: seq<Opinion>, a: string)
    requires Votes(ops, a) == 0
    ensures ConfidenceSum(ops, a) == 0.0
  {
    if ops != [] {
      NoVotesNoConfidence(ops[..|ops| - 1], a);
    }
  }

  lemma {:induction false} TallyOne(counts: map<string, nat>, sums: map<string, real>, ops: seq<Opinion>, op: Opinion)
    requires Tallied(counts, sums, ops)
    ensures Tallied(counts[op.action := (if op.action in counts then counts[op.action] else 0) + 1],
                    sums[op.action := (if op.action in sums then sums[op.action] else 0.0) + op.confidence], ops + [op])
  {
    assert (ops + [op])[..|ops|] == ops;
    forall a ensures Votes(ops + [op], a) == Votes(ops, a) + (if op.action == a then 1 else 0)
             && ConfidenceSum(ops + [op], a)
                == ConfidenceSum(ops, a) + (if op.action == a then op.confidence else 0.0)
    {
    }
    if op.action !in counts {
      NoVotesNoConfidence(ops, op.action);
    }
  }

  lemma {:induction false} VetoedSnoc(ops: seq<Opinion>, op: Opinion)
    ensures Vetoed(ops + [op]) <==> Vetoed(ops) || Objects(op)
  {
    if Vetoed(ops) {
      var o :| o in ops && Objects(o);
      assert o in ops + [op];
    }
    assert op in ops + [op];
  }

  method Tally(ops: seq<Opinion>) returns (counts: map<string, nat>, sums: map<string, real>, veto: bool)
    ensures Tallied(counts, sums, ops) && veto == Vetoed(ops)
  {
    counts, sums, veto := map[], map[], false;
    for i := 0 to |ops|
      invariant Tallied(counts, sums, ops[..i]) && veto == Vetoed(ops[..i])
    {
      var op := ops[i];
      assert ops[..i + 1] == ops[..i] + [op];
      TallyOne(counts, sums, ops[..i], op);
      VetoedSnoc(ops[..i], op);
      if op.role == "COMPLIANCE" && op.dissentReason != "" {
        veto := true;
      }
      counts := counts[op.action := (if op.action in counts then counts[op.action] else 0) + 1];
      sums := sums[op.action := (if op.action in sums then sums[op.action] else 0.0) + op.confidence];
    }
    assert ops[..|ops|] == ops;
  }

  lemma {:induction false} TalliedKeys(counts: map<string, nat>, sums: map<string, real>, ops: seq<Opinion>)
    requires Tallied(counts, sums, ops)
    ensures counts.Keys == Actions(ops)
  {
    forall a ensures a in counts <==> a in Actions(ops) {
      VotesIffProposed(ops, a);
    }
  }

  // `order` is the order in which this iteration delivers the keys of the vote map
  method Plurality(counts: map<string, nat>, order: seq<string>, ghost ops: seq<Opinion>, ghost sums: map<string, real>)
    returns (best: string, maxVotes: nat)
    requires Tallied(counts, sums, ops) && Lists(order, counts.Keys)
    ensures Lead(best, maxVotes) == Best(ops, order)
  {
    best, maxVotes := "", 0;
    for i := 0 to |order|
      invariant Lead(best, maxVotes) == Best(ops, order[..i])
    {
      assert order[..i + 1][..i] == order[..i];
      var act := order[i];
      assert act in SetOf(order);
      if counts[act] > maxVotes {
        maxVotes := counts[act];
        best := act;
      }
    }
    assert order[..|order|] == order;
  }

  // the decision for one iteration order of the vote map
  ghost function Deliberated(incident: string, ops: seq<Opinion>, order: seq<string>): Decision
    requires Lists(order, Actions(ops))
  {
    if ops == [] then Decision(incident, "REQUIRE_HUMAN_REVIEW", 0.0, HumanReviewRequired, [], [])
    else if Vetoed(ops) then
      Decision(incident, "ESCALATE_TO_HUMAN_ANALYST", 0.5, HumanReviewRequired, ["ComplianceAgent"],
        ComplianceAgents(ops))
    else
      BestLeads(ops, order);
      VerdictFor(incident, ops, Best(ops, order).action)
  }

  method Deliberate(incident: string, ops: seq<Opinion>, order: seq<string>) returns (d: Decision)
    requires Lists(order, Actions(ops))
    ensures d == Deliberated(incident, ops, order)
  {
    if |ops| == 0 {
      return Decision(incident, "REQUIRE_HUMAN_REVIEW", 0.0, HumanReviewRequired, [], []);
    }
    var counts, sums, veto := Tally(ops);
    if veto {
      var objectors := [];
      for i := 0 to |ops|
        invariant objectors == ComplianceAgents(ops[..i])
      {
        assert ops[..i + 1][..i] == ops[..i];
        if ops[i].role == "COMPLIANCE" {
          objectors := objectors + [ops[i].agent];
        }
      }
      assert ops[..|ops|] == ops;
      return Decision(incident, "ESCALATE_TO_HUMAN_ANALYST", 0.5, HumanReviewRequired, ["ComplianceAgent"], objectors);
    }
    TalliedKeys(counts, sums, ops);
    var best, maxVotes := Plurality(counts, order, ops, sums);
    BestLeads(ops, order);
    var average := sums[best] / maxVotes as real;
    var supporting, dissenting := [], [];
    for i := 0 to |ops|
      invariant supporting == AgentsFor(ops[..i], best) && dissenting == AgentsAgainst(ops[..i], best)
    {
      assert ops[..i + 1][..i] == ops[..i];
      if ops[i].action == best {
        supporting := supporting + [ops[i].agent];
      } else {
        dissenting := dissenting + [ops[i].agent + " (preferred " + ops[i].action + ")"];
      }
    }
    assert ops[..|ops|] == ops;
    var consensus := Majority;
    DissentCount(ops, best);
    if |dissenting| == 0 {
      consensus := Unanimous;
    } else if maxVotes as real < |ops| as real * 0.6 {
      consensus := HumanReviewRequired;
    }
    d := Decision(incident, best, average, consensus, supporting, dissenting);
  }

  lemma {:induction false} DissentCount(ops: seq<Opinion>, action: string)
    ensures |AgentsAgainst(ops, action)| == |ops| - Votes(ops, action)
    ensures |AgentsFor(ops, action)| == Votes(ops, action)
  {
    if ops != [] {
      DissentCount(ops[..|ops| - 1], action);
    }
  }

  // ---------------------------------------------------------------------------
  // Order does not matter
  // ---------------------------------------------------------------------------

  lemma {:induction false} TalliesConcat(a: seq<Opinion>, b: seq<Opinion>, action: string)
    ensures Votes(a + b, action) == Votes(a, action) + Votes(b, action)
    ensures ConfidenceSum(a + b, action) == ConfidenceSum(a, action) + ConfidenceSum(b, action)
  {
    if b == [] {
      assert a + b == a;
    } else {
      var n := |b| - 1;
      assert (a + b)[..|a| + n] == a + b[..n];
      TalliesConcat(a, b[..n], action);
    }
  }

  // the positions of the opinions that propose an action
  function VotersFor(ops: seq<Opinion>, action: string): set<nat> {
    set i: nat | i < |ops| && ops[i].action == action
  }

  lemma {:induction false} VotesCount(ops: seq<Opinion>, action: string)
    ensures Votes(ops, action) == |VotersFor(ops, action)|
  {
    if ops != [] {
      var n := |ops| - 1;
      VotesCount(ops[..n], action);
      assert VotersFor(ops, action) == VotersFor(ops[..n], action) + (if ops[n].action == action then {n} else {});
    }
  }

  // What one opinion adds to the sums and to the lists of a verdict; with TalliesConcat and
  // ListsConcat that fixes them for every sequence of opinions.
  lemma {:induction false} OneOpinion(op: Opinion, action: string)
    ensures ConfidenceSum([op], action) == if op.action == action then op.confidence else 0.0
    ensures AgentsFor([op], action) == if op.action == action then [op.agent] else []
    ensures AgentsAgainst([op], action)
         == if op.action == action then [] else [op.agent + " (preferred " + op.action + ")"]
    ensures ComplianceAgents([op]) == if op.role == "COMPLIANCE" then [op.agent] else []
  {
    assert [op][..0] == [];
  }

  lemma {:induction false} ForConcat(a: seq<Opinion>, b: seq<Opinion>, action: string)
    ensures AgentsFor(a + b, action) == AgentsFor(a, action) + AgentsFor(b, action)
  {
    if b == [] {
      assert a + b == a;
    } else {
      var n := |b| - 1;
      assert (a + b)[..|a| + n] == a + b[..n];
      ForConcat(a, b[..n], action);
    }
  }

  lemma {:induction false} AgainstConcat(a: seq<Opinion>, b: seq<Opinion>, action: string)
    ensures AgentsAgainst(a + b, action) == AgentsAgainst(a, action) + AgentsAgainst(b, action)
  {
    if b == [] {
      assert a + b == a;
    } else {
      var n := |b| - 1;
      assert (a + b)[..|a| + n] == a + b[..n];
      AgainstConcat(a, b[..n], action);
    }
  }

  lemma {:induction false} ComplianceConcat(a: seq<Opinion>, b: seq<Opinion>)
    ensures ComplianceAgents(a + b) == ComplianceAgents(a) + ComplianceAgents(b)
  {
    if b == [] {
      assert a + b == a;
    } else {
      var n := |b| - 1;
      assert (a + b)[..|a| + n] == a + b[..n];
      ComplianceConcat(a, b[..n]);
    }
  }

  lemma {:induction false} ListsConcat(a: seq<Opinion>, b: seq<Opinion>, action: string)
    ensures AgentsFor(a + b, action) == AgentsFor(a, action) + AgentsFor(b, action)
    ensures AgentsAgainst(a + b, action) == AgentsAgainst(a, action) + AgentsAgainst(b, action)
    ensures ComplianceAgents(a + b) == ComplianceAgents(a) + ComplianceAgents(b)
  {
    ForConcat(a, b, action);
    AgainstConcat(a, b, action);
    ComplianceConcat(a, b);
  }

  lemma {:induction false} AllVotersIff(ops: seq<Opinion>, action: string)
    ensures |VotersFor(ops, action)| == |ops| <==> forall op :: op in ops ==> op.action == action
    ensures |VotersFor(ops, action)| <= |ops|
  {
    VotesCount(ops, action);
    if ops != [] {
      var n := |ops| - 1;
      AllVotersIff(ops[..n], action);
      VotesCount(ops[..n], action);
      assert ops == ops[..n] + [ops[n]];
    }
  }

  // A verdict where nobody in compliance objects: no action has more voters; it is unanimous exactly when
  // every opinion proposes its action, needs a human exactly when fewer than three fifths do, and its
  // confidence is the mean of its voters'.
  lemma {:induction false} VerdictExact(incident: string, ops: seq<Opinion>, d: Decision)
    requires ops != [] && forall op :: op in ops && op.role == "COMPLIANCE" ==> op.dissentReason == ""
    requires Verdict(incident, ops, d)
    ensures var v := |VotersFor(ops, d.action)|;
            && v > 0 && (forall a :: |VotersFor(ops, a)| <= v)
            && (d.consensus == Unanimous <==> forall op :: op in ops ==> op.action == d.action)
            && (d.consensus == HumanReviewRequired <==> 5 * v < 3 * |ops|)
            && d.confidence * v as real == ConfidenceSum(ops, d.action)
    ensures d.incident == incident
    ensures d.supporting == AgentsFor(ops, d.action) && d.dissenting == AgentsAgainst(ops, d.action)
  {
    VotesCount(ops, d.action);
    AllVotersIff(ops, d.action);
    forall a ensures |VotersFor(ops, a)| <= |VotersFor(ops, d.action)| {
      VotesCount(ops, a);
    }
    QuotientTimes(ConfidenceSum(ops, d.action), Votes(ops, d.action) as real);
  }

  // A verdict where somebody in compliance objects, and one on no opinions.
  lemma {:induction false} EscalatedVerdict(incident: string, ops: seq<Opinion>, d: Decision)
    requires Verdict(incident, ops, d)
    ensures (exists op :: op in ops && op.role == "COMPLIANCE" && op.dissentReason != "") ==>
              d == Decision(incident, "ESCALATE_TO_HUMAN_ANALYST", 0.5, HumanReviewRequired, ["ComplianceAgent"],
                ComplianceAgents(ops))
    ensures ops == [] ==> d == Decision(incident, "REQUIRE_HUMAN_REVIEW", 0.0, HumanReviewRequired, [], [])
  {
    assert forall op :: op in ops && op.role == "COMPLIANCE" && op.dissentReason != "" ==> Objects(op);
  }

  lemma {:induction false} TalliesPermute(a: seq<Opinion>, b: seq<Opinion>, action: string)
    requires multiset(a) == multiset(b)
    ensures Votes(a, action) == Votes(b, action) && ConfidenceSum(a, action) == ConfidenceSum(b, action)
    decreases |a|
  {
    if a == [] {
      assert |multiset(b)| == 0;
    } else {
      var n := |a| - 1;
      var x := a[n];
      assert a == a[..n] + [x];
      assert x in multiset(b);
      var j :| 0 <= j < |b| && b[j] == x;
      var l, r := b[..j], b[j + 1..];
      assert b == l + [x] + r;
      assert multiset(a) == multiset(a[..n]) + multiset{x};
      assert multiset(b) == multiset(l + r) + multiset{x};
      CancelOne(multiset(a[..n]), multiset(l + r), x);
      TalliesPermute(a[..n], l + r, action);
      TalliesConcat(l, r, action);
      TalliesConcat(l + [x], r, action);
      TalliesConcat(l, [x], action);
      TalliesConcat(a[..n], [x], action);
    }
  }

  lemma {:induction false} VetoPermutes(a: seq<Opinion>, b: seq<Opinion>)
    requires multiset(a) == multiset(b)
    ensures |a| == |b| && (Vetoed(a) <==> Vetoed(b))
  {
    assert |multiset(a)| == |multiset(b)|;
    forall op ensures op in a <==> op in b {
      assert op in multiset(a) <==> op in multiset(b);
    }
  }

  lemma {:induction false} TwoActionsFit(ops: seq<Opinion>, x: string, y: string)
    requires x != y
    ensures Votes(ops, x) + Votes(ops, y) <= |ops|
  {
    if ops != [] {
      TwoActionsFit(ops[..|ops| - 1], x, y);
    }
  }

  lemma {:induction false} LeadersTie(a: seq<Opinion>, b: seq<Opinion>, x: string, y: string)
    requires multiset(a) == multiset(b) && Leads(a, x) && Leads(b, y)
    ensures Votes(a, x) == Votes(b, y) == Votes(a, y)
  {
    TalliesPermute(a, b, x);
    TalliesPermute(a, b, y);
  }

  // Whatever the order of the opinions and of the map: the consensus type is the same; and unless a
  // human review is required, so are the action and its confidence.
  lemma {:induction false} VerdictDeterminate(
    incident: string, a: seq<Opinion>, b: seq<Opinion>, d: Decision, d': Decision)
    requires multiset(a) == multiset(b) && Verdict(incident, a, d) && Verdict(incident, b, d')
    ensures d.consensus == d'.consensus
    ensures d.consensus != HumanReviewRequired ==> d.action == d'.action && d.confidence == d'.confidence
  {
    VetoPermutes(a, b);
    if a != [] && !Vetoed(a) {
      LeadersTie(a, b, d.action, d'.action);
      TalliesPermute(a, b, d.action);
      if d.action != d'.action {
        TwoActionsFit(a, d.action, d'.action);
      }
    }
  }

  // The possible verdicts are exactly the decisions that the iteration orders lead to.
  lemma {:induction false} VerdictIffSomeOrder(incident: string, ops: seq<Opinion>, d: Decision)
    ensures Verdict(incident, ops, d)
            <==> exists order :: Lists(order, Actions(ops)) && d == Deliberated(incident, ops, order)
  {
    if Verdict(incident, ops, d) {
      var order;
      if ops != [] && !Vetoed(ops) {
        order := LeaderFirst(ops, d.action);
      } else {
        order := Listing(Actions(ops));
      }
      assert Lists(order, Actions(ops)) && d == Deliberated(incident, ops, order);
    }
    if exists order :: Lists(order, Actions(ops)) && d == Deliberated(incident, ops, order) {
      var order :| Lists(order, Actions(ops)) && d == Deliberated(incident, ops, order);
      if ops != [] {
        BestLeads(ops, order);
      }
    }
  }

  ghost predicate SameAction(incident: string, ops: seq<Opinion>, o: seq<string>, o': seq<string>)
    requires Lists(o, Actions(ops)) && Lists(o', Actions(ops))
  {
    Deliberated(incident, ops, o).action == Deliberated(incident, ops, o').action
  }

  // Without a veto, all iteration orders of the vote map give the same action exactly when one action
  // alone leads.
  lemma {:induction false} ActionDeterminedIffOneLeads(incident: string, ops: seq<Opinion>)
    requires ops != [] && !Vetoed(ops)
    ensures (forall o, o' :: Lists(o, Actions(ops)) && Lists(o', Actions(ops)) ==> SameAction(incident, ops, o, o'))
            <==> (forall x, y :: Leads(ops, x) && Leads(ops, y) ==> x == y)
  {
    if forall o, o' :: Lists(o, Actions(ops)) && Lists(o', Actions(ops)) ==> SameAction(incident, ops, o, o') {
      forall x, y | Leads(ops, x) && Leads(ops, y) ensures x == y {
        var o := LeaderFirst(ops, x);
        var o' := LeaderFirst(ops, y);
        assert SameAction(incident, ops, o, o');
      }
    }
    if forall x, y :: Leads(ops, x) && Leads(ops, y) ==> x == y {
      forall o, o' | Lists(o, Actions(ops)) && Lists(o', Actions(ops)) ensures SameAction(incident, ops, o, o') {
        BestLeads(ops, o);
        BestLeads(ops, o');
      }
    }
  }

  // Two opinions, one vote each: whichever action the map yields first wins.
  lemma {:induction false} TieGoesToTheFirst(incident: string, p: Opinion, q: Opinion)
    requires p.action != q.action && !Vetoed([p, q])
    ensures Lists([p.action, q.action], Actions([p, q])) && Lists([q.action, p.action], Actions([p, q]))
    ensures Deliberated(incident, [p, q], [p.action, q.action]).action == p.action
    ensures Deliberated(incident, [p, q], [q.action, p.action]).action == q.action
  {
    var ops := [p, q];
    assert ops[..1] == [p] && [p][..0] == [];
    assert forall a :: Votes(ops, a) == (if q.action == a then 1 else 0) + Votes([p], a);
    assert forall a :: Votes([p], a) == (if p.action == a then 1 else 0);
    assert p in ops && q in ops;
    assert Actions(ops) == {p.action, q.action};
    assert SetOf([p.action, q.action]) == {p.action, q.action} == SetOf([q.action, p.action]);
    FirstLeaderStays(ops, p.action, [q.action]);
    FirstLeaderStays(ops, q.action, [p.action]);
    assert [p.action] + [q.action] == [p.action, q.action] && [q.action] + [p.action] == [q.action, p.action];
  }

  // ---------------------------------------------------------------------------
  // The guardrail and the audit
  // ---------------------------------------------------------------------------

  const ALLOWED_AGENTS: set<string> := {
    "FraudInvestigatorAgent", "ThreatHunterAgent", "RiskOptimizerAgent", "ComplianceAgent", "ResponseAgent",
    "DataQualityAgent"}

  datatype GuardrailError = UnauthorizedAgent | InsufficientConfidence | EmptyEvidence

  function ValidateAgentAction(agentType: string, action: string, confidence: real, evidence: seq<string>)
    : (e: Option<GuardrailError>)
    ensures e.None? <==> && agentType in ALLOWED_AGENTS
                         && (action == "BLOCK_AND_FREEZE" || action == "FREEZE_ACCOUNT" ==>
                               confidence >= 0.85 && evidence != [])
    ensures e == Some(UnauthorizedAgent) <==> agentType !in ALLOWED_AGENTS
    ensures e == Some(InsufficientConfidence) ==> confidence < 0.85
    ensures e == Some(EmptyEvidence) ==> evidence == [] && confidence >= 0.85
  {
    if agentType !in ALLOWED_AGENTS then Some(UnauthorizedAgent)
    else if action == "BLOCK_AND_FREEZE" || action == "FREEZE_ACCOUNT" then
      if confidence < 0.85 then Some(InsufficientConfidence)
      else if evidence == [] then Some(EmptyEvidence)
      else None
    else None
  }

  // every containment opinion passed the guardrail for some agent type
  ghost predicate Guarded(ops: seq<Opinion>) {
    forall op :: op in ops && op.action == "BLOCK_AND_FREEZE" ==>
      exists agentType :: ValidateAgentAction(agentType, op.action, op.confidence, op.evidence) == None
  }

  predicate Violates(d: Decision) {
    d.action == "BLOCK_AND_FREEZE" && d.confidence < 0.85
  }

  datatype Status = Compliant | ViolationDetected

  // the incidents of the violating decisions, in order
  function Violations(ds: seq<Decision>): seq<string> {
    if ds == [] then []
    else Violations(ds[..|ds| - 1]) + (if Violates(ds[|ds| - 1]) then [ds[|ds| - 1].incident] else [])
  }

  // the list is put together from the single decisions, in order
  lemma {:induction false} ViolationsConcat(a: seq<Decision>, b: seq<Decision>)
    ensures Violations(a + b) == Violations(a) + Violations(b)
    ensures |b| == 1 ==> Violations(b) == if b[0].action == "BLOCK_AND_FREEZE" && b[0].confidence * 20.0 < 17.0
                                          then [b[0].incident] else []
  {
    if b == [] {
      assert a + b == a;
    } else {
      var n := |b| - 1;
      assert (a + b)[..|a| + n] == a + b[..n];
      ViolationsConcat(a, b[..n]);
    }
  }

  lemma {:induction false} NoViolationsIff(ds: seq<Decision>)
    ensures Violations(ds) == [] <==> forall d :: d in ds ==> !Violates(d)
  {
    if ds != [] {
      var n := |ds| - 1;
      NoViolationsIff(ds[..n]);
      assert ds == ds[..n] + [ds[n]];
    }
  }

  method AuditDecisions(ds: seq<Decision>) returns (violations: seq<string>, status: Status)
    ensures violations == Violations(ds)
    ensures status == Compliant <==> forall d :: d in ds ==> !Violates(d)
    ensures status == Compliant <==> violations == []
  {
    violations := [];
    for i := 0 to |ds|
      invariant violations == Violations(ds[..i])
    {
      assert ds[..i + 1][..i] == ds[..i];
      if ds[i].action == "BLOCK_AND_FREEZE" && ds[i].confidence < 0.85 {
        violations := violations + [ds[i].incident];
      }
    }
    assert ds[..|ds|] == ds;
    NoViolationsIff(ds);
    status := Compliant;
    if |violations| > 0 {
      status := ViolationDetected;
    }
  }

  lemma {:induction false} GuardedSum(ops: seq<Opinion>, action: string)
    requires forall op :: op in ops && op.action == action ==> op.confidence >= 0.85
    ensures ConfidenceSum(ops, action) >= 0.85 * Votes(ops, action) as real
  {
    if ops != [] {
      var n := |ops| - 1;
      assert ops == ops[..n] + [ops[n]];
      GuardedSum(ops[..n], action);
    }
  }

  // If every BLOCK_AND_FREEZE opinion passed the guardrail, no verdict on them violates the audit,
  // whichever action leads and whether or not there is a veto or a tie.
  lemma {:induction false} GuardedVerdictPasses(incident: string, ops: seq<Opinion>, d: Decision)
    requires Guarded(ops) && Verdict(incident, ops, d)
    ensures d.action == "BLOCK_AND_FREEZE" ==> d.confidence * 20.0 >= 17.0
  {
    if ops != [] && !Vetoed(ops) && d.action == "BLOCK_AND_FREEZE" {
      GuardedSum(ops, d.action);
      QuotientBelow(ConfidenceSum(ops, d.action), Votes(ops, d.action) as real, 0.85);
    }
  }

  // Hence in any list of verdicts on guarded opinions the audit finds nothing.
  lemma {:induction false} GuardedVerdictsAuditClean(
    incidents: seq<string>, cases: seq<seq<Opinion>>, ds: seq<Decision>)
    requires |incidents| == |cases| == |ds|
    requires forall i :: 0 <= i < |ds| ==> Guarded(cases[i]) && Verdict(incidents[i], cases[i], ds[i])
    ensures Violations(ds) == []
  {
    forall i | 0 <= i < |ds| ensures !Violates(ds[i]) {
      GuardedVerdictPasses(incidents[i], cases[i], ds[i]);
    }
    NoViolationsIff(ds);
  }
}
