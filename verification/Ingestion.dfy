// The shadow ingestion pipeline: a bounded queue filled by producers and drained by worker threads, and
// the adapter behind it with its duplicate cache, dead-letter list and counters.
// Sources: ml-service/graphsage/passive_ingestion.py, ml-service/graphsage/shadow_telemetry.py

module Ingestion {
  import opened Common
  import opened DedupCache
  import opened Payloads

  datatype Event = Event(id: Id, body: Body)

  // The last four are exceptions: timestamps that cannot be compared, an eviction from a cache of capacity
  // 0, a payload that does not convert, and a transaction id that cannot be registered. The last one is
  // raised after the event was counted.
  datatype Outcome = Duplicate | Quarantined | Ingested | ClockClash | CacheEmpty | Unconvertible | Unregistrable

  predicate Uncounted(r: Outcome) {
    r == ClockClash || r == CacheEmpty || r == Unconvertible
  }

  predicate Raises(r: Outcome) {
    Uncounted(r) || r == Unregistrable
  }

  // ---------------------------------------------------------------------------
  // The adapter
  // ---------------------------------------------------------------------------

  datatype Adapter = Adapter(
    cache: Cache, last: Option<Stamp>, dlq: seq<Id>, store: seq<Item>,
    consumed: nat, sanitized: nat, rejected: nat, quarantined: nat, duplicated: nat, outOfOrder: nat)

  function Fresh(cap: nat): Adapter {
    Adapter(Cache(cap, {}, []), None, [], [], 0, 0, 0, 0, 0, 0)
  }

  predicate Clashes(last: Option<Stamp>, at: Stamp) {
    last.Some? && last.value.aware != at.aware
  }

  function Consume(a: Adapter, e: Event): (Adapter, Outcome) {
    var a := a.(consumed := a.consumed + 1);
    if e.id in a.cache.seen then (a.(duplicated := a.duplicated + 1), Duplicate)
    else if Clashes(a.last, e.body.at) then (a, ClockClash)
    else Screen(if a.last.Some? && e.body.at.t < a.last.value.t then a.(outOfOrder := a.outOfOrder + 1)
                else a.(last := Some(e.body.at)), e)
  }

  function Screen(a: Adapter, e: Event): (Adapter, Outcome) {
    if e.body.quarantined then
      (a.(quarantined := a.quarantined + 1, rejected := a.rejected + 1, dlq := a.dlq + [e.id]), Quarantined)
    else
      var r := Remember(a.cache, e.id);
      var a := a.(cache := r.cache);
      if r.EmptyDequeError? then (a, CacheEmpty)
      else
        match Convert(e.body)
        case Fails => (a, Unconvertible)
        case Adds(items) => (a.(store := a.store + items, sanitized := a.sanitized + 1), Ingested)
  }

  // Every event is counted once and leaves all else alone but for the following. A duplicate and a clash of
  // clocks only count. Otherwise the clock moves up to the event, or the event is counted as late; then a
  // quarantined one goes to the dead letters, and an ingested one to the cache and, converted, to the store.
  lemma {:induction false} ConsumeExact(a: Adapter, e: Event)
    ensures var (a', r) := Consume(a, e);
            && a'.consumed == a.consumed + 1
            && (r == Duplicate <==> e.id in a.cache.seen)
            && (r == ClockClash <==> e.id !in a.cache.seen && a.last.Some? && a.last.value.aware != e.body.at.aware)
            && (r == Duplicate || r == ClockClash ==> a'.last == a.last && a'.outOfOrder == a.outOfOrder)
            && (r != Duplicate && r != ClockClash ==> ClockStep(a.last, a.outOfOrder, e.body.at, a'.last, a'.outOfOrder)
                                                      && (r == Quarantined <==> e.body.quarantined))
            && a'.duplicated == a.duplicated + (if r == Duplicate then 1 else 0)
            && a'.quarantined == a.quarantined + (if r == Quarantined then 1 else 0)
            && a'.rejected == a.rejected + (if r == Quarantined then 1 else 0)
            && a'.dlq == a.dlq + (if r == Quarantined then [e.id] else [])
            && a'.sanitized == a.sanitized + (if r == Ingested then 1 else 0)
            && (r == Ingested ==> Convert(e.body).Adds?)
            && a'.store == a.store + (if r == Ingested then Convert(e.body).items else [])
            && a'.cache == if r in {Duplicate, ClockClash, Quarantined} then a.cache
                           else Remember(a.cache, e.id).cache
  {
  }

  // the clock is the latest stamp, and every earlier one is counted
  ghost predicate ClockStep(last: Option<Stamp>, late: nat, at: Stamp, last': Option<Stamp>, late': nat) {
    if last.Some? && at.t < last.value.t then last' == last && late' == late + 1
    else last' == Some(at) && late' == late
  }

  class PassiveShadowIngestionAdapter {
    const dedupCacheSize: nat
    var seenEventIds: set<Id>
    var seenIdsOrder: seq<Id>
    var lastEventTimestamp: Option<Stamp>
    var dlq: seq<Id>
    var targetStore: seq<Item>
    var consumed: nat
    var sanitized: nat
    var rejected: nat
    var quarantined: nat
    var duplicated: nat
    var outOfOrder: nat

    ghost function State(): Adapter
      reads this
    {
      Adapter(Cache(dedupCacheSize, seenEventIds, seenIdsOrder), lastEventTimestamp, dlq, targetStore,
              consumed, sanitized, rejected, quarantined, duplicated, outOfOrder)
    }

    constructor (cap: nat)
      ensures State() == Fresh(cap)
    {
      dedupCacheSize, seenEventIds, seenIdsOrder := cap, {}, [];
      lastEventTimestamp, dlq, targetStore := None, [], [];
      consumed, sanitized, rejected, quarantined, duplicated, outOfOrder := 0, 0, 0, 0, 0, 0;
    }

    method ConsumeEvent(e: Event) returns (r: Outcome)
      modifies this
      ensures (State(), r) == Consume(old(State()), e)
    {
      consumed := consumed + 1;
      if e.id in seenEventIds {
        duplicated := duplicated + 1;
        return Duplicate;
      }
      if lastEventTimestamp.Some? && lastEventTimestamp.value.aware != e.body.at.aware {
        return ClockClash;
      }
      if lastEventTimestamp.Some? && e.body.at.t < lastEventTimestamp.value.t {
        outOfOrder := outOfOrder + 1;
      } else {
        lastEventTimestamp := Some(e.body.at);
      }
      r := ScreenEvent(e);
    }

    // from the privacy check on
    method ScreenEvent(e: Event) returns (r: Outcome)
      modifies this
      ensures (State(), r) == Screen(old(State()), e)
    {
      if e.body.quarantined {
        quarantined := quarantined + 1;
        rejected := rejected + 1;
        dlq := dlq + [e.id];
        return Quarantined;
      }
      var failed := RecordSeen(e.id);
      if failed {
        return CacheEmpty;
      }
      failed := IngestToGraphStore(e.body);
      if failed {
        return Unconvertible;
      }
      sanitized := sanitized + 1;
      r := Ingested;
    }

    // the duplicate cache is updated before the payload is converted
    method RecordSeen(id: Id) returns (failed: bool)
      modifies this`seenEventIds, this`seenIdsOrder
      ensures var c := Remember(Cache(dedupCacheSize, old(seenEventIds), old(seenIdsOrder)), id);
              Cache(dedupCacheSize, seenEventIds, seenIdsOrder) == c.cache && failed == c.EmptyDequeError?
    {
      seenEventIds := seenEventIds + {id};
      if dedupCacheSize > 0 {
        if |seenIdsOrder| >= dedupCacheSize {
          seenIdsOrder := seenIdsOrder[1..];
        }
        seenIdsOrder := seenIdsOrder + [id];
      }
      if |seenEventIds| > dedupCacheSize {
        if seenIdsOrder == [] {
          return true;
        }
        seenEventIds := seenEventIds - {seenIdsOrder[0]};
        seenIdsOrder := seenIdsOrder[1..];
      }
      failed := false;
    }

    method IngestToGraphStore(b: Body) returns (failed: bool)
      modifies this`targetStore
      ensures failed == Convert(b).Fails?
      ensures if failed then targetStore == old(targetStore) else targetStore == old(targetStore) + Convert(b).items
    {
      failed := false;
      if b.topic == AUDIT {
        var emp, acct := Get(b.payload, "employee_id"), Get(b.payload, "account_id");
        if Truthy(emp) && Truthy(acct) {
          var kind := EdgeKind(GetOr(b.payload, "action", Text("ACCESS")));
          if kind.None? || !emp.Text? || !acct.Text? {
            return true;
          }
          targetStore := targetStore + [Access(emp.s, acct.s, kind.value, b.at)];
        }
      } else if b.topic == CREATED {
        var txn, acct := Get(b.payload, "transaction_id"), Get(b.payload, "account_id");
        var amount := GetOr(b.payload, "amount", Float(0.0));
        if !FloatAccepts(amount) {
          return true;
        }
        if Truthy(txn) && Truthy(acct) {
          targetStore := targetStore
            + [Transaction(txn, acct, amount, GetOr(b.payload, "currency", Text("USD")), b.at)];
        }
      }
    }
  }

  // ---------------------------------------------------------------------------
  // The engine: one atomic step at a time
  // ---------------------------------------------------------------------------

  // a thread: about to test whether the engine runs, waiting on the queue, holding an event, or ended
  datatype Worker = AtTest | InGet | Holding(e: Event) | Gone

  // A capacity of 0 or less means unbounded. `followed` are the calls that the collusion tracker and the
  // label engine received. The fields after it are the history: what producers offered, what the queue
  // accepted, what the threads took and finished, what was ingested, and which events raised before and
  // after they were counted.
  datatype Engine = Engine(
    adapter: Adapter, capacity: int, queue: seq<Event>, workers: seq<Worker>, running: bool, totalProcessed: nat,
    followed: seq<FollowUp>,
    attempts: nat, syncCalls: nat, accepted: seq<Event>, taken: seq<Event>, finished: seq<Event>,
    ingested: seq<Event>, uncounted: seq<Event>, late: seq<Event>)

  function Initial(capacity: int, cap: nat): Engine {
    Engine(Fresh(cap), capacity, [], [], false, 0, [], 0, 0, [], [], [], [], [], [])
  }

  predicate Full(s: Engine) {
    s.capacity > 0 && |s.queue| >= s.capacity
  }

  datatype Step = Enqueue(e: Event) | Sync(e: Event) | Start | Stop
                | Test(w: nat) | Take(w: nat) | Expire(w: nat) | Process(w: nat)

  // the count, and then the call that the topic asks for
  function Account(s: Engine, e: Event): (Engine, Outcome) {
    var s := s.(totalProcessed := s.totalProcessed + 1, ingested := s.ingested + [e]);
    match Follow(e.body)
    case Raise => (s.(late := s.late + [e]), Unregistrable)
    case Nothing => (s, Ingested)
    case call => (s.(followed := s.followed + [call]), Ingested)
  }

  function ProcessEvent(s: Engine, e: Event): (Engine, Outcome) {
    var (a, r) := Consume(s.adapter, e);
    if r == Ingested then Account(s.(adapter := a), e)
    else if Uncounted(r) then (s.(adapter := a, uncounted := s.uncounted + [e]), r)
    else (s.(adapter := a), r)
  }

  function WithWorker(s: Engine, w: nat, worker: Worker): Engine
    requires w < |s.workers|
  {
    s.(workers := s.workers[w := worker])
  }

  // a step that is not enabled leaves the engine as it is
  function Next(s: Engine, step: Step): Engine {
    match step
    case Enqueue(e) =>
      var s := s.(attempts := s.attempts + 1);
      if Full(s) then s.(adapter := s.adapter.(rejected := s.adapter.rejected + 1))
      else s.(queue := s.queue + [e], accepted := s.accepted + [e])
    case Sync(e) =>
      var (t, _) := ProcessEvent(s, e);
      t.(syncCalls := t.syncCalls + 1)
    case Start => if s.running then s else s.(running := true, workers := s.workers + [AtTest])
    case Stop => s.(running := false)
    case Test(w) =>
      if w < |s.workers| && s.workers[w] == AtTest then WithWorker(s, w, if s.running then InGet else Gone) else s
    case Take(w) =>
      if w < |s.workers| && s.workers[w] == InGet && s.queue != [] then
        WithWorker(s, w, Holding(s.queue[0])).(queue := s.queue[1..], taken := s.taken + [s.queue[0]])
      else s
    case Expire(w) =>
      if w < |s.workers| && s.workers[w] == InGet && s.queue == [] then WithWorker(s, w, AtTest) else s
    case Process(w) =>
      if w < |s.workers| && s.workers[w].Holding? then
        var e := s.workers[w].e;
        var (t, r) := ProcessEvent(s, e);
        t.(workers := s.workers[w := if Raises(r) then Gone else AtTest], finished := t.finished + [e])
      else s
  }

  class PassiveShadowTelemetryEngine {
    const queueSize: int
    const adapter: PassiveShadowIngestionAdapter
    var eventQueue: seq<Event>
    var workers: seq<Worker>
    var isRunning: bool
    var totalProcessed: nat
    var followed: seq<FollowUp>
    ghost var attempts: nat
    ghost var syncCalls: nat
    ghost var accepted: seq<Event>
    ghost var taken: seq<Event>
    ghost var finished: seq<Event>
    ghost var ingested: seq<Event>
    ghost var uncounted: seq<Event>
    ghost var late: seq<Event>

    ghost function State(): Engine
      reads this, adapter
    {
      Engine(adapter.State(), queueSize, eventQueue, workers, isRunning, totalProcessed, followed,
             attempts, syncCalls, accepted, taken, finished, ingested, uncounted, late)
    }

    constructor (queueSize: int, cap: nat)
      ensures State() == Initial(queueSize, cap) && fresh(adapter)
    {
      this.queueSize := queueSize;
      adapter := new PassiveShadowIngestionAdapter(cap);
      eventQueue, workers, isRunning, totalProcessed, followed := [], [], false, 0, [];
      attempts, syncCalls, accepted, taken, finished := 0, 0, [], [], [];
      ingested, uncounted, late := [], [], [];
    }

    method StartEngine()
      modifies this
      ensures State() == Next(old(State()), Start)
      ensures isRunning && workers == if old(isRunning) then old(workers) else old(workers) + [AtTest]
      ensures unchanged(adapter) && eventQueue == old(eventQueue)
    {
      if !isRunning {
        isRunning := true;
        workers := workers + [AtTest];
      }
    }

    // waiting for the thread, with a time limit, changes nothing here
    method StopEngine()
      modifies this
      ensures State() == Next(old(State()), Stop)
      ensures !isRunning && workers == old(workers) && eventQueue == old(eventQueue) && unchanged(adapter)
    {
      isRunning := false;
    }

    method EnqueueEvent(e: Event) returns (ok: bool)
      modifies this, adapter
      ensures State() == Next(old(State()), Enqueue(e))
      ensures ok <==> queueSize <= 0 || |old(eventQueue)| < queueSize
      ensures eventQueue == if ok then old(eventQueue) + [e] else old(eventQueue)
      ensures adapter.rejected == old(adapter.rejected) + if ok then 0 else 1
      ensures workers == old(workers) && isRunning == old(isRunning)
    {
      attempts := attempts + 1;
      if queueSize > 0 && |eventQueue| >= queueSize {
        adapter.rejected := adapter.rejected + 1;
        return false;
      }
      eventQueue := eventQueue + [e];
      accepted := accepted + [e];
      ok := true;
    }

    // the call that an ingested event asks for; building the edge or the record validates the ids
    method FollowUpFor(b: Body) returns (call: FollowUp)
      ensures call == Follow(b)
    {
      call := Nothing;
      if b.topic == AUDIT {
        var emp, acct := Get(b.payload, "employee_id"), Get(b.payload, "account_id");
        if Truthy(emp) && Truthy(acct) {
          call := if emp.Text? && acct.Text? then Track(emp.s, acct.s, b.at) else Raise;
        }
      } else if b.topic == CREATED {
        var txn := Get(b.payload, "transaction_id");
        if Truthy(txn) {
          call := if txn.Text? then Register(txn.s, b.at) else Raise;
        }
      }
    }

    // the count and the follow-up of an ingested event
    method AccountFor(e: Event) returns (r: Outcome)
      modifies this
      ensures (State(), r) == Account(old(State()), e)
      ensures totalProcessed == old(totalProcessed) + 1
      ensures r == Unregistrable <==> Follow(e.body).Raise?
      ensures followed == old(followed) + if Follow(e.body) in {Raise, Nothing} then [] else [Follow(e.body)]
    {
      totalProcessed := totalProcessed + 1;
      ingested := ingested + [e];
      var call := FollowUpFor(e.body);
      r := Ingested;
      if call == Raise {
        late := late + [e];
        r := Unregistrable;
      } else if call != Nothing {
        followed := followed + [call];
      }
    }

    // the body shared by the synchronous call and the worker
    method ProcessOne(e: Event) returns (r: Outcome)
      modifies this, adapter
      ensures (State(), r) == ProcessEvent(old(State()), e)
    {
      r := adapter.ConsumeEvent(e);
      if r == Ingested {
        r := AccountFor(e);
      } else if Uncounted(r) {
        uncounted := uncounted + [e];
      }
    }

    method ProcessEventSync(e: Event) returns (r: Outcome)
      modifies this, adapter
      ensures State() == Next(old(State()), Sync(e)) && r == ProcessEvent(old(State()), e).1
    {
      r := ProcessOne(e);
      syncCalls := syncCalls + 1;
    }

    // One turn of a thread's loop, in the parts between which producers and other threads may run: the
    // test, the wait that yields an event or expires, and the processing.
    method WorkerTest(w: nat)
      requires w < |workers| && workers[w] == AtTest
      modifies this
      ensures State() == Next(old(State()), Test(w))
      ensures workers == old(workers)[w := if isRunning then InGet else Gone]
      ensures isRunning == old(isRunning) && eventQueue == old(eventQueue) && unchanged(adapter)
    {
      workers := workers[w := if isRunning then InGet else Gone];
    }

    method WorkerGet(w: nat) returns (got: bool)
      requires w < |workers| && workers[w] == InGet
      modifies this
      ensures got == (old(eventQueue) != [])
      ensures State() == Next(old(State()), if got then Take(w) else Expire(w))
      ensures got ==> workers == old(workers)[w := Holding(old(eventQueue)[0])] && eventQueue == old(eventQueue)[1..]
      ensures !got ==> workers == old(workers)[w := AtTest] && eventQueue == old(eventQueue)
      ensures isRunning == old(isRunning) && unchanged(adapter)
    {
      got := |eventQueue| > 0;
      if got {
        workers := workers[w := Holding(eventQueue[0])];
        taken := taken + [eventQueue[0]];
        eventQueue := eventQueue[1..];
      } else {
        workers := workers[w := AtTest];
      }
    }

    method WorkerProcess(w: nat)
      requires w < |workers| && workers[w].Holding?
      modifies this, adapter
      ensures State() == Next(old(State()), Process(w))
    {
      var e := workers[w].e;
      ProcessIs(State(), w, e);
      var r := ProcessOne(e);
      finished := finished + [e];
      workers := workers[w := if Raises(r) then Gone else AtTest];  // only an empty queue is caught
    }
  }

  // ---------------------------------------------------------------------------
  // Conservation, in every interleaving
  // ---------------------------------------------------------------------------

  function From(s: Engine, steps: seq<Step>): Engine {
    if steps == [] then s else Next(From(s, steps[..|steps| - 1]), steps[|steps| - 1])
  }

  function Run(capacity: int, cap: nat, steps: seq<Step>): Engine {
    From(Initial(capacity, cap), steps)
  }

  function Copies(es: seq<Event>, e: Event): nat {
    if es == [] then 0 else Copies(es[..|es| - 1], e) + (if es[|es| - 1] == e then 1 else 0)
  }

  // how many threads hold an event, and how many hold this one
  function Holders(ws: seq<Worker>): nat {
    if ws == [] then 0 else Holders(ws[..|ws| - 1]) + (if ws[|ws| - 1].Holding? then 1 else 0)
  }

  function HoldersOf(ws: seq<Worker>, e: Event): nat {
    if ws == [] then 0 else HoldersOf(ws[..|ws| - 1], e) + (if ws[|ws| - 1] == Holding(e) then 1 else 0)
  }

  function ItemsOf(es: seq<Event>): seq<Item> {
    if es == [] then []
    else
      var n := |es| - 1;
      ItemsOf(es[..n]) + (if Convert(es[n].body).Adds? then Convert(es[n].body).items else [])
  }

  function CallsOf(es: seq<Event>): seq<FollowUp> {
    if es == [] then []
    else
      var n := |es| - 1;
      var f := Follow(es[n].body);
      CallsOf(es[..n]) + (if f.Track? || f.Register? then [f] else [])
  }

  function RaisingLate(es: seq<Event>): seq<Event> {
    if es == [] then []
    else
      var n := |es| - 1;
      RaisingLate(es[..n]) + (if Follow(es[n].body).Raise? then [es[n]] else [])
  }

  // no event is lost or counted twice
  ghost predicate Balanced(s: Engine) {
    && s.attempts + s.syncCalls
       == s.adapter.consumed + |s.queue| + Holders(s.workers) + (s.adapter.rejected - s.adapter.quarantined)
    && s.adapter.consumed == s.adapter.duplicated + s.adapter.quarantined + s.adapter.sanitized + |s.uncounted|
    && |s.adapter.dlq| == s.adapter.quarantined
    && s.totalProcessed == s.adapter.sanitized == |s.ingested|
  }

  // the graph store, the downstream calls and the late exceptions are those of the ingested events, in order
  ghost predicate Delivered(s: Engine) {
    && s.adapter.store == ItemsOf(s.ingested)
    && s.followed == CallsOf(s.ingested)
    && s.late == RaisingLate(s.ingested)
  }

  // every taken event is either finished or in a thread's hand, as often as it was taken
  ghost predicate Settled(taken: seq<Event>, finished: seq<Event>, ws: seq<Worker>) {
    forall e :: Copies(taken, e) == Copies(finished, e) + HoldersOf(ws, e)
  }

  // the threads take the accepted events in order, each finishes what it takes, and the queue keeps its bound
  ghost predicate InOrder(s: Engine) {
    && s.taken + s.queue == s.accepted
    && Settled(s.taken, s.finished, s.workers)
    && (s.capacity > 0 ==> |s.queue| <= s.capacity)
  }

  lemma {:induction false} CopiesSnoc(es: seq<Event>, x: Event, e: Event)
    ensures Copies(es + [x], e) == Copies(es, e) + (if x == e then 1 else 0)
  {
    assert (es + [x])[..|es|] == es;
  }

  lemma {:induction false} HoldersSnoc(ws: seq<Worker>, x: Worker)
    ensures Holders(ws + [x]) == Holders(ws) + (if x.Holding? then 1 else 0)
    ensures forall e :: HoldersOf(ws + [x], e) == HoldersOf(ws, e) + (if x == Holding(e) then 1 else 0)
  {
    assert (ws + [x])[..|ws|] == ws;
  }

  // what one thread's change does to the events in hand
  lemma {:induction false} HoldersUpdate(ws: seq<Worker>, w: nat, x: Worker)
    requires w < |ws|
    ensures Holders(ws[w := x]) == Holders(ws) - (if ws[w].Holding? then 1 else 0) + (if x.Holding? then 1 else 0)
    ensures forall e :: HoldersOf(ws[w := x], e)
                        == HoldersOf(ws, e) - (if ws[w] == Holding(e) then 1 else 0)
                          + (if x == Holding(e) then 1 else 0)
  {
    var n := |ws| - 1;
    var init, last := ws[..n], ws[n];
    assert ws == init + [last];
    HoldersSnoc(init, last);
    if w == n {
      assert ws[w := x] == init + [x];
      HoldersSnoc(init, x);
    } else {
      assert ws[w := x] == init[w := x] + [last];
      HoldersSnoc(init[w := x], last);
      HoldersUpdate(init, w, x);
    }
  }

  lemma {:induction false} SettledTake(taken: seq<Event>, finished: seq<Event>, ws: seq<Worker>, w: nat, x: Event)
    requires Settled(taken, finished, ws) && w < |ws| && !ws[w].Holding?
    ensures Settled(taken + [x], finished, ws[w := Holding(x)])
  {
    HoldersUpdate(ws, w, Holding(x));
    forall e ensures Copies(taken + [x], e) == Copies(finished, e) + HoldersOf(ws[w := Holding(x)], e) {
      CopiesSnoc(taken, x, e);
    }
  }

  lemma {:induction false} SettledFinish(
    taken: seq<Event>, finished: seq<Event>, ws: seq<Worker>, w: nat, x: Event, next: Worker)
    requires Settled(taken, finished, ws) && w < |ws| && ws[w] == Holding(x) && !next.Holding?
    ensures Settled(taken, finished + [x], ws[w := next])
  {
    HoldersUpdate(ws, w, next);
    forall e ensures Copies(taken, e) == Copies(finished + [x], e) + HoldersOf(ws[w := next], e) {
      CopiesSnoc(finished, x, e);
    }
  }

  lemma {:induction false} ConsumeCounts(a: Adapter, e: Event)
    ensures var (b, r) := Consume(a, e);
            && r != Unregistrable
            && b.consumed == a.consumed + 1
            && b.rejected - b.quarantined == a.rejected - a.quarantined
            && b.duplicated == a.duplicated + (if r == Duplicate then 1 else 0)
            && b.quarantined == a.quarantined + (if r == Quarantined then 1 else 0)
            && b.sanitized == a.sanitized + (if r == Ingested then 1 else 0)
            && |b.dlq| == |a.dlq| + (if r == Quarantined then 1 else 0)
            && (r == Ingested ==> Convert(e.body).Adds?)
            && b.store == a.store + (if r == Ingested then Convert(e.body).items else [])
  {
  }

  // what processing one event does to the books
  lemma {:induction false} ProcessCounts(s: Engine, e: Event)
    ensures var (t, r) := ProcessEvent(s, e);
            && t == s.(adapter := t.adapter, totalProcessed := t.totalProcessed, followed := t.followed,
                       ingested := t.ingested, uncounted := t.uncounted, late := t.late)
            && t.adapter.consumed == s.adapter.consumed + 1
            && t.adapter.rejected - t.adapter.quarantined == s.adapter.rejected - s.adapter.quarantined
            && (Balanced(s) ==>
                  && t.adapter.consumed
                     == t.adapter.duplicated + t.adapter.quarantined + t.adapter.sanitized + |t.uncounted|
                  && |t.adapter.dlq| == t.adapter.quarantined
                  && t.totalProcessed == t.adapter.sanitized == |t.ingested|)
  {
    ConsumeCounts(s.adapter, e);
  }

  lemma {:induction false} DeliveredSnoc(es: seq<Event>, e: Event)
    ensures ItemsOf(es + [e]) == ItemsOf(es) + (if Convert(e.body).Adds? then Convert(e.body).items else [])
    ensures CallsOf(es + [e]) == CallsOf(es)
            + (if Follow(e.body).Track? || Follow(e.body).Register? then [Follow(e.body)] else [])
    ensures RaisingLate(es + [e]) == RaisingLate(es) + (if Follow(e.body).Raise? then [e] else [])
  {
    assert (es + [e])[..|es|] == es;
  }

  lemma {:induction false} ProcessDelivers(s: Engine, e: Event)
    requires Delivered(s)
    ensures Delivered(ProcessEvent(s, e).0)
  {
    ConsumeCounts(s.adapter, e);
    DeliveredSnoc(s.ingested, e);
  }

  lemma {:induction false} WorkerBalances(s: Engine, w: nat, step: Step)
    requires Balanced(s) && w < |s.workers| && (step == Test(w) || step == Take(w) || step == Expire(w))
    ensures Balanced(Next(s, step))
  {
    HoldersUpdate(s.workers, w, Next(s, step).workers[w]);
    assert s.workers[w := s.workers[w]] == s.workers;
  }

  // the thread's next state after processing
  function After(s: Engine, e: Event): Worker {
    if Raises(ProcessEvent(s, e).1) then Gone else AtTest
  }

  lemma {:induction false} ProcessIs(s: Engine, w: nat, e: Event)
    requires w < |s.workers| && s.workers[w] == Holding(e)
    ensures var t := ProcessEvent(s, e).0;
            Next(s, Process(w)) == t.(workers := s.workers[w := After(s, e)], finished := s.finished + [e])
  {
    ProcessCounts(s, e);
  }

  lemma {:induction false} ProcessBalances(s: Engine, w: nat, e: Event)
    requires Balanced(s) && w < |s.workers| && s.workers[w] == Holding(e)
    ensures Balanced(Next(s, Process(w)))
  {
    ProcessIs(s, w, e);
    ProcessCounts(s, e);
    HoldersUpdate(s.workers, w, After(s, e));
  }

  lemma {:induction false} NextBalances(s: Engine, step: Step)
    requires Balanced(s)
    ensures Balanced(Next(s, step))
  {
    match step
    case Enqueue(_) =>
    case Sync(e) => ProcessCounts(s, e);
    case Start => HoldersSnoc(s.workers, AtTest);
    case Stop =>
    case Test(w) => if w < |s.workers| { WorkerBalances(s, w, step); }
    case Take(w) => if w < |s.workers| { WorkerBalances(s, w, step); }
    case Expire(w) => if w < |s.workers| { WorkerBalances(s, w, step); }
    case Process(w) => if w < |s.workers| && s.workers[w].Holding? { ProcessBalances(s, w, s.workers[w].e); }
  }

  lemma {:induction false} NextDelivers(s: Engine, step: Step)
    requires Delivered(s)
    ensures Delivered(Next(s, step))
  {
    match step
    case Sync(e) => ProcessDelivers(s, e);
    case Process(w) =>
      if w < |s.workers| && s.workers[w].Holding? {
        ProcessIs(s, w, s.workers[w].e);
        ProcessDelivers(s, s.workers[w].e);
      }
    case _ =>
  }

  lemma {:induction false} TakeInOrder(s: Engine, w: nat)
    requires InOrder(s) && w < |s.workers| && s.workers[w] == InGet && s.queue != []
    ensures InOrder(Next(s, Take(w)))
  {
    var e := s.queue[0];
    SettledTake(s.taken, s.finished, s.workers, w, e);
    assert s.queue == [e] + s.queue[1..];
    assert (s.taken + [e]) + s.queue[1..] == s.taken + s.queue;
  }

  // a change of one thread that takes nothing and finishes nothing
  lemma {:induction false} IdleInOrder(s: Engine, w: nat, x: Worker)
    requires InOrder(s) && w < |s.workers| && !s.workers[w].Holding? && !x.Holding?
    ensures InOrder(WithWorker(s, w, x))
  {
    HoldersUpdate(s.workers, w, x);
  }

  lemma {:induction false} ProcessInOrder(s: Engine, w: nat, e: Event)
    requires InOrder(s) && w < |s.workers| && s.workers[w] == Holding(e)
    ensures InOrder(Next(s, Process(w)))
  {
    ProcessIs(s, w, e);
    ProcessCounts(s, e);
    SettledFinish(s.taken, s.finished, s.workers, w, e, After(s, e));
  }

  lemma {:induction false} NextInOrder(s: Engine, step: Step)
    requires InOrder(s)
    ensures InOrder(Next(s, step))
  {
    match step
    case Enqueue(e) => assert s.taken + (s.queue + [e]) == (s.taken + s.queue) + [e];
    case Sync(e) => ProcessCounts(s, e);
    case Start => HoldersSnoc(s.workers, AtTest);
    case Stop =>
    case Test(w) =>
      if w < |s.workers| && s.workers[w] == AtTest { IdleInOrder(s, w, if s.running then InGet else Gone); }
    case Take(w) =>
      if w < |s.workers| && s.workers[w] == InGet && s.queue != [] { TakeInOrder(s, w); }
    case Expire(w) =>
      if w < |s.workers| && s.workers[w] == InGet { IdleInOrder(s, w, AtTest); }
    case Process(w) =>
      if w < |s.workers| && s.workers[w].Holding? { ProcessInOrder(s, w, s.workers[w].e); }
  }

  // In every interleaving of producers, threads and direct calls: attempts are accounted for; the outcomes
  // partition the consumed events, where an event that raises late is also one of the sanitized; store and
  // downstream calls are those of the ingested events; and the threads take a prefix of the accepted ones.
  lemma {:induction false} EveryRunConserves(capacity: int, cap: nat, steps: seq<Step>)
    ensures var s := Run(capacity, cap, steps); Balanced(s) && Delivered(s) && InOrder(s)
  {
    if steps != [] {
      var n := |steps| - 1;
      EveryRunConserves(capacity, cap, steps[..n]);
      NextBalances(Run(capacity, cap, steps[..n]), steps[n]);
      NextDelivers(Run(capacity, cap, steps[..n]), steps[n]);
      NextInOrder(Run(capacity, cap, steps[..n]), steps[n]);
    }
  }

  ghost predicate AllGone(ws: seq<Worker>) {
    forall i :: 0 <= i < |ws| ==> ws[i] == Gone
  }

  lemma {:induction false} FromSnoc(s: Engine, steps: seq<Step>, step: Step)
    ensures From(s, steps + [step]) == Next(From(s, steps), step)
  {
    assert (steps + [step])[..|steps|] == steps;
  }

  // an engine started on one queued event, up to the thread holding it
  lemma {:induction false} FirstInHand(cap: nat, e: Event) returns (steps: seq<Step>)
    ensures var s := Run(0, cap, steps);
            && s.running && s.workers == [Holding(e)] && s.queue == [] && s.adapter == Fresh(cap)
            && s.accepted == s.taken == [e] && s.finished == [] && s.totalProcessed == 0
            && s.uncounted == [] && s.late == [] && s.ingested == []
  {
    var i := Initial(0, cap);
    steps := [];
    FromSnoc(i, steps, Start);
    steps := steps + [Start];
    FromSnoc(i, steps, Enqueue(e));
    steps := steps + [Enqueue(e)];
    FromSnoc(i, steps, Test(0));
    steps := steps + [Test(0)];
    FromSnoc(i, steps, Take(0));
    steps := steps + [Take(0)];
  }

  // ---------------------------------------------------------------------------
  // Duplicates, in every run
  // ---------------------------------------------------------------------------

  // the event gets as far as the duplicate cache
  predicate Admits(a: Adapter, e: Event) {
    e.id !in a.cache.seen && !Clashes(a.last, e.body.at) && !e.body.quarantined
  }

  // the ids that reached the duplicate cache, after one more consumed event
  function Kept(a: Adapter, kept: seq<Id>, e: Event): seq<Id> {
    if Admits(a, e) then kept + [e.id] else kept
  }

  function NextCache(a: Adapter, e: Event): Cache {
    if Admits(a, e) then Remember(a.cache, e.id).cache else a.cache
  }

  function KeptNext(s: Engine, kept: seq<Id>, step: Step): seq<Id> {
    match step
    case Process(w) => if w < |s.workers| && s.workers[w].Holding? then Kept(s.adapter, kept, s.workers[w].e) else kept
    case Sync(e) => Kept(s.adapter, kept, e)
    case _ => kept
  }

  // all ids that reached the duplicate cache in a run, in order
  function KeptBy(capacity: int, cap: nat, steps: seq<Step>): seq<Id> {
    if steps == [] then []
    else
      var n := |steps| - 1;
      KeptNext(Run(capacity, cap, steps[..n]), KeptBy(capacity, cap, steps[..n]), steps[n])
  }

  lemma {:induction false} NextCacheHolds(a: Adapter, kept: seq<Id>, e: Event)
    requires Holds(a.cache, kept)
    ensures Holds(NextCache(a, e), Kept(a, kept, e)) && NextCache(a, e).cap == a.cache.cap
    ensures Admits(a, e) ==> Remember(a.cache, e.id).Stored?
  {
    if Admits(a, e) {
      RememberExact(a.cache, kept, e.id);
    }
  }

  lemma {:induction false} ProcessAdapter(s: Engine, e: Event)
    ensures ProcessEvent(s, e).0.adapter == Consume(s.adapter, e).0
    ensures Consume(s.adapter, e).0.cache == NextCache(s.adapter, e)
    ensures Consume(s.adapter, e).0.last == s.adapter.last || Consume(s.adapter, e).0.last == Some(e.body.at)
  {
  }

  lemma {:induction false} NextHolds(s: Engine, kept: seq<Id>, step: Step)
    requires Holds(s.adapter.cache, kept)
    ensures Holds(Next(s, step).adapter.cache, KeptNext(s, kept, step))
            && Next(s, step).adapter.cache.cap == s.adapter.cache.cap
  {
    match step
    case Process(w) =>
      if w < |s.workers| && s.workers[w].Holding? {
        var e := s.workers[w].e;
        NextCacheHolds(s.adapter, kept, e);
        ProcessAdapter(s, e);
        ProcessIs(s, w, e);
      }
    case Sync(e) =>
      NextCacheHolds(s.adapter, kept, e);
      ProcessAdapter(s, e);
    case _ =>
  }

  lemma {:induction false} CacheRuns(capacity: int, cap: pos, steps: seq<Step>)
    ensures Holds(Run(capacity, cap, steps).adapter.cache, KeptBy(capacity, cap, steps))
    ensures Run(capacity, cap, steps).adapter.cache.cap == cap
  {
    if steps != [] {
      var n := |steps| - 1;
      CacheRuns(capacity, cap, steps[..n]);
      NextHolds(Run(capacity, cap, steps[..n]), KeptBy(capacity, cap, steps[..n]), steps[n]);
    }
  }

  lemma {:induction false} DuplicateIff(a: Adapter, e: Event)
    ensures Consume(a, e).1 == Duplicate <==> e.id in a.cache.seen
  {
  }

  // In every run with a cache of capacity at least 1 the cache is the closed form of the ids it took
  // in, so an event is dropped as a duplicate exactly when its id is the first, or among the last
  // cap - 1, of them (or among all of them while there are at most cap).
  lemma {:induction false} DuplicatesExact(capacity: int, cap: pos, steps: seq<Step>, e: Event)
    ensures var a, kept := Run(capacity, cap, steps).adapter, KeptBy(capacity, cap, steps);
            && Holds(a.cache, kept) && a.cache.cap == cap
            && (Consume(a, e).1 == Duplicate <==>
                  if |kept| <= cap then e.id in kept else e.id == kept[0] || e.id in kept[|kept| - (cap - 1)..])
  {
    var a := Run(capacity, cap, steps).adapter;
    CacheRuns(capacity, cap, steps);
    CacheRemembers(a.cache, KeptBy(capacity, cap, steps), e.id);
    DuplicateIff(a, e);
  }

  // ---------------------------------------------------------------------------
  // Exceptions
  // ---------------------------------------------------------------------------

  // a body that can be consumed whatever the state, clocks apart
  predicate Sound(b: Body) {
    b.quarantined || (ConversionSchema(b) && RegistrationSchema(b))
  }

  predicate Fatal(a: Adapter, e: Event) {
    e.id !in a.cache.seen && (Clashes(a.last, e.body.at) || !Sound(e.body))
  }

  function ExpectedOutcome(a: Adapter, e: Event): Outcome {
    if e.id in a.cache.seen then Duplicate
    else if Clashes(a.last, e.body.at) then ClockClash
    else if e.body.quarantined then Quarantined
    else if !ConversionSchema(e.body) then Unconvertible
    else if !RegistrationSchema(e.body) then Unregistrable
    else Ingested
  }

  lemma {:induction false} ConsumeOutcome(a: Adapter, e: Event)
    requires Admits(a, e) ==> Remember(a.cache, e.id).Stored?
    ensures Consume(a, e).1 == if ExpectedOutcome(a, e) == Unregistrable then Ingested else ExpectedOutcome(a, e)
  {
    ConversionFailsIff(e.body);
  }

  lemma {:induction false} ProcessOutcome(s: Engine, e: Event)
    requires Admits(s.adapter, e) ==> Remember(s.adapter.cache, e.id).Stored?
    ensures ProcessEvent(s, e).1 == ExpectedOutcome(s.adapter, e)
  {
    ConsumeOutcome(s.adapter, e);
    if Consume(s.adapter, e).1 == Ingested {
      ConversionFailsIff(e.body);
      FollowUpRaisesIff(e.body);
    }
  }

  // the part of the history that an outcome writes
  lemma {:induction false} ProcessHistory(s: Engine, e: Event)
    ensures var (t, r) := ProcessEvent(s, e);
            && t.uncounted == s.uncounted + (if Uncounted(r) then [e] else [])
            && t.late == s.late + (if r == Unregistrable then [e] else [])
            && t.ingested == s.ingested + (if r == Ingested || r == Unregistrable then [e] else [])
            && t.totalProcessed == s.totalProcessed + (if r == Ingested || r == Unregistrable then 1 else 0)
  {
    ConsumeCounts(s.adapter, e);
  }

  // Processing raises exactly on an unseen event whose time stamp is of the other kind than the last one's,
  // quarantined or not, or whose payload is not quarantined and breaks a schema. It raises after the count
  // exactly when only the transaction id is at fault.
  lemma {:induction false} ProcessRaisesIff(s: Engine, kept: seq<Id>, e: Event)
    requires Holds(s.adapter.cache, kept)
    ensures var (t, r) := ProcessEvent(s, e);
            && (Raises(r) <==> Fatal(s.adapter, e))
            && (r == Unregistrable <==>
                  Fatal(s.adapter, e) && !Clashes(s.adapter.last, e.body.at)
                  && !e.body.quarantined && ConversionSchema(e.body))
            && t.uncounted == s.uncounted + (if Uncounted(r) then [e] else [])
            && t.late == s.late + (if r == Unregistrable then [e] else [])
            && t.ingested == s.ingested + (if r == Ingested || r == Unregistrable then [e] else [])
            && t.totalProcessed == s.totalProcessed + (if r == Ingested || r == Unregistrable then 1 else 0)
  {
    NextCacheHolds(s.adapter, kept, e);
    ProcessOutcome(s, e);
    ProcessHistory(s, e);
  }

  // A thread ends with the event it holds exactly when that event is fatal at that moment.
  lemma {:induction false} ThreadEndsIff(s: Engine, kept: seq<Id>, w: nat, e: Event)
    requires Holds(s.adapter.cache, kept) && w < |s.workers| && s.workers[w] == Holding(e)
    ensures Next(s, Process(w)).workers[w] == Gone <==> Fatal(s.adapter, e)
  {
    ProcessRaisesIff(s, kept, e);
    ProcessIs(s, w, e);
  }

  // Any payload that is not quarantined and breaks a schema ends the only thread of a running engine: it is
  // counted before if it converts, and not if it does not.
  lemma {:induction false} UnsoundEventEndsThread(cap: pos, e: Event) returns (steps: seq<Step>)
    requires !Sound(e.body)
    ensures var s := Run(0, cap, steps);
            && s.running && s.workers == [Gone] && s.accepted == s.finished == [e]
            && s.ingested == (if ConversionSchema(e.body) then [e] else [])
            && s.totalProcessed == |s.ingested|
  {
    steps := FirstInHand(cap, e);
    var s := Run(0, cap, steps);
    ProcessRaisesIff(s, [], e);
    ProcessIs(s, 0, e);
    ProcessCounts(s, e);
    FromSnoc(Initial(0, cap), steps, Process(0));
    steps := steps + [Process(0)];
  }

  // An amount that is a text but no number raises before the event is counted.
  lemma {:induction false} TextAmountEndsThread(cap: pos, at: Stamp) returns (steps: seq<Step>)
    ensures var s := Run(0, cap, steps);
            s.running && s.workers == [Gone] && s.accepted == [Event("a", TextAmount(at))] && s.totalProcessed == 0
  {
    TextAmountFails(at);
    steps := UnsoundEventEndsThread(cap, Event("a", TextAmount(at)));
  }

  lemma {:induction false} StoreOfOne(s: Engine, e: Event)
    requires Balanced(s) && Delivered(s) && s.ingested == [e] && Convert(e.body).Adds?
    ensures s.adapter.store == Convert(e.body).items && s.totalProcessed == s.adapter.sanitized == 1
  {
    DeliveredSnoc([], e);
    assert [] + [e] == [e];
  }

  // A transaction id that is a number raises after it: stored, sanitized and processed.
  lemma {:induction false} NumericIdEndsThread(cap: pos, at: Stamp) returns (steps: seq<Step>)
    ensures var s := Run(0, cap, steps);
            && s.running && s.workers == [Gone] && s.accepted == [Event("a", NumericId(at))]
            && s.totalProcessed == s.adapter.sanitized == 1 && s.adapter.store == Convert(NumericId(at)).items != []
  {
    var e := Event("a", NumericId(at));
    NumericIdRaisesLate(at);
    steps := UnsoundEventEndsThread(cap, e);
    EveryRunConserves(0, cap, steps);
    StoreOfOne(Run(0, cap, steps), e);
  }

  // ---------------------------------------------------------------------------
  // When no run raises
  // ---------------------------------------------------------------------------

  ghost predicate Drawn(steps: seq<Step>, bodies: iset<Body>) {
    forall i :: 0 <= i < |steps| && (steps[i].Enqueue? || steps[i].Sync?) ==> steps[i].e.body in bodies
  }

  ghost predicate Harmonious(bodies: iset<Body>) {
    && (forall b :: b in bodies ==> Sound(b))
    && (forall b, c :: b in bodies && c in bodies ==> b.at.aware == c.at.aware)
  }

  predicate Quiet(s: Engine) {
    s.uncounted == [] && s.late == []
  }

  // nothing has raised or can raise, and a running engine has a live thread
  ghost predicate Healthy(s: Engine, bodies: iset<Body>) {
    && Quiet(s)
    && (s.running ==> s.workers != [] && s.workers[|s.workers| - 1] != Gone)
    && (forall e :: e in s.queue ==> e.body in bodies)
    && (forall x :: x in s.workers && x.Holding? ==> x.e.body in bodies)
    && (forall b :: b in bodies ==> !Clashes(s.adapter.last, b.at))
  }

  lemma {:induction false} ProcessHealthy(s: Engine, kept: seq<Id>, e: Event, bodies: iset<Body>)
    requires Healthy(s, bodies) && Harmonious(bodies) && Holds(s.adapter.cache, kept) && e.body in bodies
    ensures Healthy(ProcessEvent(s, e).0, bodies) && !Raises(ProcessEvent(s, e).1)
  {
    ProcessRaisesIff(s, kept, e);
    ProcessCounts(s, e);
    ProcessAdapter(s, e);
  }

  lemma {:induction false} WorkerHealthy(s: Engine, w: nat, x: Worker, bodies: iset<Body>)
    requires Healthy(s, bodies) && w < |s.workers| && (x == Gone ==> !s.running) && (x.Holding? ==> x.e.body in bodies)
    ensures Healthy(WithWorker(s, w, x), bodies)
  {
    forall y | y in s.workers[w := x] && y.Holding? ensures y.e.body in bodies {
      assert y == x || y in s.workers;
    }
  }

  lemma {:induction false} StepHealthy(s: Engine, kept: seq<Id>, w: nat, e: Event, bodies: iset<Body>)
    requires Healthy(s, bodies) && Harmonious(bodies) && Holds(s.adapter.cache, kept)
    requires w < |s.workers| && s.workers[w] == Holding(e)
    ensures Healthy(Next(s, Process(w)), bodies)
  {
    assert e.body in bodies by {
      assert s.workers[w] in s.workers;
    }
    ProcessHealthy(s, kept, e, bodies);
    ProcessIs(s, w, e);
    ProcessCounts(s, e);
    WorkerHealthy(ProcessEvent(s, e).0, w, AtTest, bodies);
  }

  lemma {:induction false} TakeHealthy(s: Engine, w: nat, bodies: iset<Body>)
    requires Healthy(s, bodies) && w < |s.workers| && s.workers[w] == InGet && s.queue != []
    ensures Healthy(Next(s, Take(w)), bodies)
  {
    assert s.queue[0] in s.queue;
    WorkerHealthy(s, w, Holding(s.queue[0]), bodies);
  }

  lemma {:induction false} EnqueueHealthy(s: Engine, e: Event, bodies: iset<Body>)
    requires Healthy(s, bodies) && e.body in bodies
    ensures Healthy(Next(s, Enqueue(e)), bodies)
  {
  }

  lemma {:induction false} StartHealthy(s: Engine, bodies: iset<Body>)
    requires Healthy(s, bodies)
    ensures Healthy(Next(s, Start), bodies)
  {
    forall x | x in s.workers + [AtTest] && x.Holding? ensures x.e.body in bodies {
      assert x in s.workers;
    }
  }

  lemma {:induction false} NextHealthy(s: Engine, kept: seq<Id>, step: Step, bodies: iset<Body>)
    requires Healthy(s, bodies) && Harmonious(bodies) && Holds(s.adapter.cache, kept)
    requires step.Enqueue? || step.Sync? ==> step.e.body in bodies
    ensures Healthy(Next(s, step), bodies)
  {
    match step
    case Enqueue(e) => EnqueueHealthy(s, e, bodies);
    case Sync(e) => ProcessHealthy(s, kept, e, bodies);
    case Start => StartHealthy(s, bodies);
    case Stop =>
    case Test(w) =>
      if w < |s.workers| && s.workers[w] == AtTest { WorkerHealthy(s, w, if s.running then InGet else Gone, bodies); }
    case Take(w) =>
      if w < |s.workers| && s.workers[w] == InGet && s.queue != [] { TakeHealthy(s, w, bodies); }
    case Expire(w) =>
      if w < |s.workers| && s.workers[w] == InGet && s.queue == [] { WorkerHealthy(s, w, AtTest, bodies); }
    case Process(w) =>
      if w < |s.workers| && s.workers[w].Holding? { StepHealthy(s, kept, w, s.workers[w].e, bodies); }
  }

  lemma {:induction false} HarmoniousRunsStayHealthy(capacity: int, cap: pos, steps: seq<Step>, bodies: iset<Body>)
    requires Harmonious(bodies) && Drawn(steps, bodies)
    ensures Healthy(Run(capacity, cap, steps), bodies)
  {
    if steps != [] {
      var n := |steps| - 1;
      assert forall i :: 0 <= i < n ==> steps[..n][i] == steps[i];
      HarmoniousRunsStayHealthy(capacity, cap, steps[..n], bodies);
      CacheRuns(capacity, cap, steps[..n]);
      NextHealthy(Run(capacity, cap, steps[..n]), KeptBy(capacity, cap, steps[..n]), steps[n], bodies);
    }
  }

  lemma {:induction false} FirstStamps(a: Adapter, e: Event)
    requires a.cache.seen == {} && a.last == None && a.cache.cap >= 1
    ensures Consume(a, e).0.last == Some(e.body.at) && Consume(a, e).0.cache.seen <= {e.id}
  {
  }

  lemma {:induction false} FirstSync(cap: pos, e: Event) returns (kept: seq<Id>)
    ensures var s := Run(0, cap, [Sync(e)]);
            s.adapter.last == Some(e.body.at) && s.adapter.cache.seen <= {e.id} && Holds(s.adapter.cache, kept)
  {
    var i := Initial(0, cap);
    FromSnoc(i, [], Sync(e));
    assert [] + [Sync(e)] == [Sync(e)];
    NextHolds(i, [], Sync(e));
    kept := KeptNext(i, [], Sync(e));
    ProcessAdapter(i, e);
    FirstStamps(i.adapter, e);
  }

  // stamps of different kinds, one after the other: the second event raises even if it is to be quarantined
  lemma {:induction false} ClockClashRaises(cap: pos, b: Body, c: Body)
    requires b.at.aware != c.at.aware
    ensures !Quiet(Run(0, cap, [Sync(Event("a", b)), Sync(Event("b", c))]))
  {
    var e, f := Event("a", b), Event("b", c);
    var kept := FirstSync(cap, e);
    FromSnoc(Initial(0, cap), [Sync(e)], Sync(f));
    assert [Sync(e)] + [Sync(f)] == [Sync(e), Sync(f)];
    ProcessRaisesIff(Run(0, cap, [Sync(e)]), kept, f);
  }

  lemma {:induction false} UnsoundRaises(cap: pos, b: Body)
    requires !Sound(b)
    ensures !Quiet(Run(0, cap, [Sync(Event("a", b))]))
  {
    var i, e := Initial(0, cap), Event("a", b);
    FromSnoc(i, [], Sync(e));
    assert [] + [Sync(e)] == [Sync(e)];
    ProcessRaisesIff(i, [], e);
  }

  // Over a set of bodies, no run of any length, with any ids and any interleaving, raises exactly when every
  // body is sound and all their time stamps are of one kind. In those runs a running engine has a live thread.
  lemma {:induction false} NoRunRaisesIff(cap: pos, bodies: iset<Body>)
    ensures (forall capacity, steps :: Drawn(steps, bodies) ==> Quiet(Run(capacity, cap, steps)))
            <==> Harmonious(bodies)
  {
    if Harmonious(bodies) {
      forall capacity, steps | Drawn(steps, bodies) ensures Quiet(Run(capacity, cap, steps)) {
        HarmoniousRunsStayHealthy(capacity, cap, steps, bodies);
      }
    } else if exists b :: b in bodies && !Sound(b) {
      var b :| b in bodies && !Sound(b);
      UnsoundRaises(cap, b);
      assert Drawn([Sync(Event("a", b))], bodies);
    } else {
      var b, c :| b in bodies && c in bodies && b.at.aware != c.at.aware;
      ClockClashRaises(cap, b, c);
      assert Drawn([Sync(Event("a", b)), Sync(Event("b", c))], bodies);
    }
  }

  lemma {:induction false} DeadStep(s: Engine, step: Step)
    requires s.running && AllGone(s.workers) && step != Stop
    ensures var t := Next(s, step);
            t.running && t.workers == s.workers && t.finished == s.finished && s.queue <= t.queue
  {
    match step
    case Sync(e) => ProcessCounts(s, e);
    case _ =>
  }

  // Once all threads of a running engine have ended, then until it is stopped no start revives it and no
  // queued event is finished.
  lemma {:induction false} DeadEngineStaysDead(s: Engine, steps: seq<Step>)
    requires s.running && AllGone(s.workers) && Stop !in steps
    ensures var t := From(s, steps);
            t.running && t.workers == s.workers && t.finished == s.finished && s.queue <= t.queue
  {
    if steps != [] {
      var n := |steps| - 1;
      assert steps[n] in steps;
      DeadEngineStaysDead(s, steps[..n]);
      DeadStep(From(s, steps[..n]), steps[n]);
    }
  }

}
