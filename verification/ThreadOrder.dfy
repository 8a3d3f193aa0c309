// The order in which the threads of the ingestion engine finish the accepted events: kept exactly while at
// most one thread lives.
// Source: ml-service/graphsage/shadow_telemetry.py

module ThreadOrder {
  import opened Common
  import opened Payloads
  import opened Ingestion

  // finished so far are the first of the accepted events, in their order
  predicate FinishedInOrder(s: Engine) {
    s.finished <= s.accepted
  }

  ghost predicate AtMostOneLive(ws: seq<Worker>) {
    forall i, j :: 0 <= i < j < |ws| ==> ws[i] == Gone || ws[j] == Gone
  }

  // in a continuation from s a start creates a thread only when all earlier ones have ended
  ghost predicate OneAtATime(s: Engine, steps: seq<Step>) {
    forall n :: 0 <= n < |steps| && steps[n] == Start && !From(s, steps[..n]).running ==>
      AllGone(From(s, steps[..n]).workers)
  }

  // ---------------------------------------------------------------------------
  // One thread
  // ---------------------------------------------------------------------------

  function Hands(ws: seq<Worker>): seq<Event> {
    if ws == [] then []
    else
      var n := |ws| - 1;
      Hands(ws[..n]) + (if ws[n].Holding? then [ws[n].e] else [])
  }

  ghost predicate SingleFile(s: Engine) {
    AtMostOneLive(s.workers) && s.taken == s.finished + Hands(s.workers)
  }

  lemma {:induction false} NoHands(ws: seq<Worker>)
    requires AllGone(ws)
    ensures Hands(ws) == []
  {
    if ws != [] {
      NoHands(ws[..|ws| - 1]);
    }
  }

  lemma {:induction false} HandsOfLive(ws: seq<Worker>, w: nat)
    requires AtMostOneLive(ws) && w < |ws| && ws[w] != Gone
    ensures Hands(ws) == if ws[w].Holding? then [ws[w].e] else []
  {
    var n := |ws| - 1;
    if w == n {
      NoHands(ws[..n]);
    } else {
      HandsOfLive(ws[..n], w);
    }
  }

  lemma {:induction false} ChangedHands(ws: seq<Worker>, w: nat, x: Worker)
    requires AtMostOneLive(ws) && w < |ws| && ws[w] != Gone
    ensures AtMostOneLive(ws[w := x]) && Hands(ws[w := x]) == if x.Holding? then [x.e] else []
  {
    if x == Gone {
      NoHands(ws[w := x]);
    } else {
      HandsOfLive(ws[w := x], w);
    }
  }

  lemma {:induction false} WorkerSingleFile(s: Engine, w: nat, x: Worker)
    requires SingleFile(s) && w < |s.workers| && s.workers[w] != Gone && !s.workers[w].Holding? && !x.Holding?
    ensures SingleFile(WithWorker(s, w, x))
  {
    HandsOfLive(s.workers, w);
    ChangedHands(s.workers, w, x);
  }

  lemma {:induction false} TakeSingleFile(s: Engine, w: nat)
    requires SingleFile(s) && w < |s.workers| && s.workers[w] == InGet && s.queue != []
    ensures SingleFile(Next(s, Take(w)))
  {
    var e, t := s.queue[0], Next(s, Take(w));
    HandsOfLive(s.workers, w);
    assert s.taken == s.finished;
    assert t.workers == s.workers[w := Holding(e)] && t.taken == s.finished + [e];
    ChangedHands(s.workers, w, Holding(e));
  }

  lemma {:induction false} ProcessSingleFile(s: Engine, w: nat, e: Event)
    requires SingleFile(s) && w < |s.workers| && s.workers[w] == Holding(e)
    ensures SingleFile(Next(s, Process(w)))
  {
    ProcessIs(s, w, e);
    ProcessCounts(s, e);
    HandsOfLive(s.workers, w);
    ChangedHands(s.workers, w, After(s, e));
  }

  lemma {:induction false} NewThread(ws: seq<Worker>)
    ensures AtMostOneLive(ws + [AtTest]) <==> AllGone(ws)
    ensures Hands(ws + [AtTest]) == Hands(ws)
  {
    var t := ws + [AtTest];
    assert t[..|ws|] == ws;
    if AtMostOneLive(t) {
      forall i | 0 <= i < |ws| ensures ws[i] == Gone {
        assert t[i] == ws[i] && t[|ws|] == AtTest;
      }
    }
  }

  lemma {:induction false} StartSingleFile(s: Engine)
    requires SingleFile(s) && AllGone(s.workers)
    ensures SingleFile(Next(s, Start))
  {
    NoHands(s.workers);
    NewThread(s.workers);
  }

  lemma {:induction false} NextSingleFile(s: Engine, step: Step)
    requires SingleFile(s) && (step == Start && !s.running ==> AllGone(s.workers))
    ensures SingleFile(Next(s, step))
  {
    match step
    case Sync(e) => ProcessCounts(s, e);
    case Start => if !s.running { StartSingleFile(s); }
    case Test(w) =>
      if w < |s.workers| && s.workers[w] == AtTest { WorkerSingleFile(s, w, if s.running then InGet else Gone); }
    case Take(w) => if w < |s.workers| && s.workers[w] == InGet && s.queue != [] { TakeSingleFile(s, w); }
    case Expire(w) => if w < |s.workers| && s.workers[w] == InGet { WorkerSingleFile(s, w, AtTest); }
    case Process(w) => if w < |s.workers| && s.workers[w].Holding? { ProcessSingleFile(s, w, s.workers[w].e); }
    case _ =>
  }

  lemma {:induction false} SingleFileLasts(s: Engine, steps: seq<Step>)
    requires SingleFile(s) && InOrder(s) && OneAtATime(s, steps)
    ensures SingleFile(From(s, steps)) && InOrder(From(s, steps))
  {
    if steps != [] {
      var n := |steps| - 1;
      forall m | 0 <= m < n ensures steps[..n][..m] == steps[..m] && steps[..n][m] == steps[m] {
      }
      SingleFileLasts(s, steps[..n]);
      NextSingleFile(From(s, steps[..n]), steps[n]);
      NextInOrder(From(s, steps[..n]), steps[n]);
    }
  }

  // With one thread at a time the events are finished in the order in which they were accepted.
  lemma {:induction false} OneThreadKeepsOrder(capacity: int, cap: nat, steps: seq<Step>)
    requires OneAtATime(Initial(capacity, cap), steps)
    ensures var s := Run(capacity, cap, steps); SingleFile(s) && s.finished + Hands(s.workers) + s.queue == s.accepted
  {
    EveryRunConserves(capacity, cap, []);
    SingleFileLasts(Initial(capacity, cap), steps);
  }

  // ---------------------------------------------------------------------------
  // What is in hand
  // ---------------------------------------------------------------------------

  lemma {:induction false} CopiesAreMultiplicity(es: seq<Event>, e: Event)
    ensures Copies(es, e) == multiset(es)[e]
  {
    if es != [] {
      var n := |es| - 1;
      CopiesAreMultiplicity(es[..n], e);
      assert es == es[..n] + [es[n]];
    }
  }

  lemma {:induction false} CopiesConcat(a: seq<Event>, b: seq<Event>, e: Event)
    ensures Copies(a + b, e) == Copies(a, e) + Copies(b, e)
  {
    CopiesAreMultiplicity(a, e);
    CopiesAreMultiplicity(b, e);
    CopiesAreMultiplicity(a + b, e);
    assert multiset(a + b) == multiset(a) + multiset(b);
  }

  lemma {:induction false} HandsAreHolders(ws: seq<Worker>, e: Event)
    ensures Copies(Hands(ws), e) == HoldersOf(ws, e)
  {
    if ws != [] {
      var n := |ws| - 1;
      HandsAreHolders(ws[..n], e);
      CopiesConcat(Hands(ws[..n]), if ws[n].Holding? then [ws[n].e] else [], e);
    }
  }

  // what is taken is what is finished and what is in hand
  lemma {:induction false} TakenAre(s: Engine)
    requires InOrder(s)
    ensures multiset(s.taken) == multiset(s.finished + Hands(s.workers))
  {
    var settled := s.finished + Hands(s.workers);
    forall e ensures multiset(s.taken)[e] == multiset(settled)[e] {
      CopiesAreMultiplicity(s.taken, e);
      CopiesAreMultiplicity(settled, e);
      CopiesConcat(s.finished, Hands(s.workers), e);
      HandsAreHolders(s.workers, e);
    }
  }

  lemma {:induction false} SameTail(a: seq<Event>, b: seq<Event>, c: seq<Event>)
    requires multiset(a + b) == multiset(a + c)
    ensures multiset(b) == multiset(c) && |b| == |c|
  {
    assert multiset(a + b) == multiset(a) + multiset(b);
    assert multiset(a + c) == multiset(a) + multiset(c);
    assert multiset(b) == multiset(a + b) - multiset(a);
    assert multiset(c) == multiset(a + c) - multiset(a);
    assert |multiset(b)| == |b| && |multiset(c)| == |c|;
  }

  lemma {:induction false} AtMostOneHand(ws: seq<Worker>)
    requires AtMostOneLive(ws)
    ensures |Hands(ws)| <= 1
  {
    if w: nat :| w < |ws| && ws[w] != Gone {
      HandsOfLive(ws, w);
    } else {
      NoHands(ws);
    }
  }

  lemma {:induction false} SameLength(a: seq<Event>, b: seq<Event>)
    requires multiset(a) == multiset(b)
    ensures |a| == |b|
  {
    assert |multiset(a)| == |a| && |multiset(b)| == |b|;
  }

  lemma {:induction false} SameSingle(a: seq<Event>, b: seq<Event>)
    requires multiset(a) == multiset(b) && |b| <= 1
    ensures a == b
  {
    SameLength(a, b);
    if b != [] {
      assert b[0] in multiset(a);
    }
  }

  lemma {:induction false} PrefixAndHand(taken: seq<Event>, finished: seq<Event>, hands: seq<Event>, all: seq<Event>)
    requires taken <= all && finished <= all && |hands| <= 1 && multiset(taken) == multiset(finished + hands)
    ensures taken == finished + hands
  {
    SameLength(taken, finished + hands);
    var rest := taken[|finished|..];
    assert taken == finished + rest;
    SameTail(finished, rest, hands);
    SameSingle(rest, hands);
  }

  lemma {:induction false} OneLiveIsSingleFile(s: Engine)
    requires InOrder(s) && FinishedInOrder(s) && AtMostOneLive(s.workers)
    ensures SingleFile(s)
  {
    TakenAre(s);
    AtMostOneHand(s.workers);
    PrefixAndHand(s.taken, s.finished, Hands(s.workers), s.accepted);
  }

  // ---------------------------------------------------------------------------
  // Two threads
  // ---------------------------------------------------------------------------

  // the accepted events that are not finished differ from each other
  ghost predicate UnfinishedDiffer(s: Engine) {
    FinishedInOrder(s) && NoDuplicates(s.accepted[|s.finished|..])
  }

  lemma {:induction false} DistinctCopies(es: seq<Event>, e: Event)
    requires NoDuplicates(es)
    ensures Copies(es, e) <= 1
    ensures Copies(es, e) == 1 <==> e in es
  {
    if es != [] {
      DistinctCopies(es[..|es| - 1], e);
      assert es == es[..|es| - 1] + [es[|es| - 1]];
    }
  }

  lemma {:induction false} TwoHolders(ws: seq<Worker>, i: nat, j: nat, e: Event)
    requires i < j < |ws| && ws[i] == ws[j] == Holding(e)
    ensures HoldersOf(ws, e) >= 2
  {
    var n := |ws| - 1;
    if j < n {
      TwoHolders(ws[..n], i, j, e);
    } else {
      OneHolder(ws[..n], i, e);
    }
  }

  lemma {:induction false} OneHolder(ws: seq<Worker>, i: nat, e: Event)
    requires i < |ws| && ws[i] == Holding(e)
    ensures HoldersOf(ws, e) >= 1
  {
    if i < |ws| - 1 {
      OneHolder(ws[..|ws| - 1], i, e);
    }
  }

  lemma {:induction false} HeldEventsDiffer(s: Engine, i: nat, j: nat)
    requires InOrder(s) && UnfinishedDiffer(s) && i < j < |s.workers| && s.workers[i].Holding? && s.workers[j].Holding?
    ensures s.workers[i] != s.workers[j]
  {
    if s.workers[i] == s.workers[j] {
      var e, rest := s.workers[i].e, s.accepted[|s.finished|..];
      TwoHolders(s.workers, i, j, e);
      assert s.accepted == s.finished + rest;
      CopiesConcat(s.taken, s.queue, e);
      CopiesConcat(s.finished, rest, e);
      DistinctCopies(rest, e);
    }
  }

  function Longest(es: seq<Event>): nat {
    if es == [] then 0 else
      var m := Longest(es[..|es| - 1]);
      if |es[|es| - 1].id| > m then |es[|es| - 1].id| else m
  }

  lemma {:induction false} LongestBounds(es: seq<Event>, e: Event)
    requires e in es
    ensures |e.id| <= Longest(es)
  {
    if e != es[|es| - 1] {
      LongestBounds(es[..|es| - 1], e);
    }
  }

  // an event not among some others
  lemma {:induction false} UnusedEvent(es: seq<Event>) returns (e: Event)
    ensures e !in es
  {
    e := Event(seq(Longest(es) + 1, _ => 'x'), Body("", map[], false, Stamp(0, true)));
    if e in es {
      LongestBounds(es, e);
    }
  }

  // t comes from s without finishing anything, and may have accepted more and moved thread w only
  ghost predicate Advances(s: Engine, t: Engine, w: nat) {
    && InOrder(t) && t.running && UnfinishedDiffer(t)
    && t.finished == s.finished && |t.workers| == |s.workers|
    && (forall i :: 0 <= i < |s.workers| && i != w ==> t.workers[i] == s.workers[i])
  }

  lemma {:induction false} FromConcat(s: Engine, a: seq<Step>, b: seq<Step>)
    ensures From(s, a + b) == From(From(s, a), b)
  {
    if b == [] {
      assert a + b == a;
    } else {
      var n := |b| - 1;
      FromConcat(s, a, b[..n]);
      assert (a + b)[..|a + b| - 1] == a + b[..n];
    }
  }

  lemma {:induction false} AcceptUnused(s: Engine, e: Event)
    requires InOrder(s) && UnfinishedDiffer(s) && s.queue == [] && e !in s.accepted
    ensures var t := Next(s, Enqueue(e));
            InOrder(t) && UnfinishedDiffer(t) && t.queue == [e] && t.finished == s.finished
            && t.running == s.running && t.workers == s.workers
  {
    NextInOrder(s, Enqueue(e));
    var rest := s.accepted[|s.finished|..];
    NoDuplicatesConcat(rest, [e]);
    assert (s.accepted + [e])[|s.finished|..] == rest + [e];
  }

  // a thread waiting on the queue of a running engine can come to hold an event
  lemma {:induction false} FillHand(s: Engine, w: nat) returns (steps: seq<Step>)
    requires InOrder(s) && s.running && UnfinishedDiffer(s) && w < |s.workers| && s.workers[w] == InGet
    ensures Advances(s, From(s, steps), w) && From(s, steps).workers[w].Holding? && Start !in steps
  {
    var t := s;
    steps := [];
    if s.queue == [] {
      var e := UnusedEvent(s.accepted);
      AcceptUnused(s, e);
      FromSnoc(s, steps, Enqueue(e));
      steps := steps + [Enqueue(e)];
      t := Next(s, Enqueue(e));
    }
    NextInOrder(t, Take(w));
    FromSnoc(s, steps, Take(w));
    steps := steps + [Take(w)];
  }

  // and so can any live thread
  lemma {:induction false} BringToHand(s: Engine, w: nat) returns (steps: seq<Step>)
    requires InOrder(s) && s.running && UnfinishedDiffer(s) && w < |s.workers| && s.workers[w] != Gone
    ensures Advances(s, From(s, steps), w) && From(s, steps).workers[w].Holding? && Start !in steps
  {
    if s.workers[w].Holding? {
      steps := [];
    } else if s.workers[w] == InGet {
      steps := FillHand(s, w);
    } else {
      var t := Next(s, Test(w));
      NextInOrder(s, Test(w));
      FromSnoc(s, [], Test(w));
      var more := FillHand(t, w);
      FromConcat(s, [Test(w)], more);
      steps := [Test(w)] + more;
    }
  }

  // a thread finishes an event that is not the next accepted one
  lemma {:induction false} FinishOutOfTurn(s: Engine, w: nat, e: Event)
    requires w < |s.workers| && s.workers[w] == Holding(e)
    requires |s.finished| < |s.accepted| ==> s.accepted[|s.finished|] != e
    ensures !FinishedInOrder(Next(s, Process(w)))
  {
    ProcessIs(s, w, e);
    ProcessCounts(s, e);
    var t := Next(s, Process(w));
    assert t.finished[|s.finished|] == e;
  }

  // Two live threads of a running engine can finish events out of order, without any further start.
  lemma {:induction false} TwoThreadsOvertake(s: Engine, i: nat, j: nat) returns (steps: seq<Step>)
    requires InOrder(s) && s.running && UnfinishedDiffer(s) && i < j < |s.workers|
    requires s.workers[i] != Gone && s.workers[j] != Gone
    ensures !FinishedInOrder(From(s, steps)) && Start !in steps
  {
    var first := BringToHand(s, i);
    var t := From(s, first);
    var second := BringToHand(t, j);
    var u := From(t, second);
    FromConcat(s, first, second);
    HeldEventsDiffer(u, i, j);
    var n := |u.finished|;
    var w := if n < |u.accepted| && u.accepted[n] == u.workers[i].e then j else i;
    FinishOutOfTurn(u, w, u.workers[w].e);
    FromSnoc(s, first + second, Process(w));
    steps := first + second + [Process(w)];
  }

  // A running engine that has finished in order does so in every continuation that starts no second thread
  // exactly when at most one thread lives.
  lemma {:induction false} OrderKeptIff(s: Engine)
    requires InOrder(s) && s.running && UnfinishedDiffer(s)
    ensures (forall steps :: OneAtATime(s, steps) ==> FinishedInOrder(From(s, steps))) <==> AtMostOneLive(s.workers)
  {
    if AtMostOneLive(s.workers) {
      OneLiveIsSingleFile(s);
      forall steps | OneAtATime(s, steps) ensures FinishedInOrder(From(s, steps)) {
        SingleFileLasts(s, steps);
      }
    } else {
      var i, j :| 0 <= i < j < |s.workers| && s.workers[i] != Gone && s.workers[j] != Gone;
      var steps := TwoThreadsOvertake(s, i, j);
      assert OneAtATime(s, steps);
    }
  }

  // Starting a stopped engine keeps the order in every such continuation exactly when no earlier thread is
  // alive. If the starts so far kept to this, the handle of the last thread tells.
  lemma {:induction false} StartKeepsOrderIff(s: Engine)
    requires InOrder(s) && !s.running && UnfinishedDiffer(s)
    ensures var t := Next(s, Start);
            (forall steps :: OneAtATime(t, steps) ==> FinishedInOrder(From(t, steps))) <==> AllGone(s.workers)
  {
    var t := Next(s, Start);
    NextInOrder(s, Start);
    OrderKeptIff(t);
    NewThread(s.workers);
  }

  // From an empty engine, whatever the first two events are, a stop and a start while the first is in hand
  // let the second be finished before it.
  lemma {:induction false} SecondThreadOvertakes(cap: nat, a: Event, b: Event) returns (steps: seq<Step>)
    ensures var s := Run(0, cap, steps);
            s.accepted == [a, b] && s.finished == [b] && |s.workers| == 2 && s.workers[0] == Holding(a)
  {
    var i := Initial(0, cap);
    steps := FirstInHand(cap, a);
    FromSnoc(i, steps, Enqueue(b));
    steps := steps + [Enqueue(b)];
    FromSnoc(i, steps, Stop);
    steps := steps + [Stop];
    FromSnoc(i, steps, Start);
    steps := steps + [Start];
    FromSnoc(i, steps, Test(1));
    steps := steps + [Test(1)];
    FromSnoc(i, steps, Take(1));
    steps := steps + [Take(1)];
    assert Run(0, cap, steps).workers == [Holding(a), Holding(b)];
    ProcessIs(Run(0, cap, steps), 1, b);
    ProcessCounts(Run(0, cap, steps), b);
    FromSnoc(i, steps, Process(1));
    steps := steps + [Process(1)];
  }
}
