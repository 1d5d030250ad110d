/** Whole runs of the admission core: every sequence of client operations on a fresh ledger and an
    empty pool. */
module AdmissionRuns {
  import opened Wrappers
  import opened Budgets
  import opened Keys
  import opened Capacity
  import opened OrderedQueues
  import opened WarmPool

  /** What a client may do. `Release` names one of the reservations its clients still hold. */
  datatype Op =
    | Reserve(budget: ResourceBudget)
    | Release(slot: nat)
    | Maintain(entry: WarmPoolEntry)
    | Checkout(key: WarmPoolKey)
    | Expire(key: WarmPoolKey)
    | Evict(request: ResourceBudget)

  datatype Reply =
    | Done
    | Denied(error: CapacityError)
    | Took(entry: Option<WarmPoolEntry>)
    | Freed(entries: seq<WarmPoolEntry>)

  /** Pool and ledger, with the active reservations the clients hold in order of admission. */
  datatype System = System(state: State, held: seq<ResourceBudget>)

  function Fresh(capacity: ResourceBudget): System {
    System(State([], Empty(capacity)), [])
  }

  function Answer(error: Option<CapacityError>): Reply {
    if error.None? then Done else Denied(error.value)
  }

  function Step(sys: System, op: Op): (r: (Reply, System))
    requires Sorted(sys.state.pool) && Filled(sys.state.pool)
    ensures Sorted(r.1.state.pool) && Filled(r.1.state.pool)
  {
    var s := sys.state;
    match op
    case Reserve(budget) =>
      var (error, ledger) := ReservedActive(s.ledger, budget);
      (Answer(error), System(s.(ledger := ledger), if error.None? then sys.held + [budget] else sys.held))
    case Release(slot) =>
      if slot < |sys.held| then
        (Done, System(s.(ledger := ReleasedActive(s.ledger, sys.held[slot])), Without(sys.held, slot)))
      else
        (Done, sys)
    case Maintain(entry) =>
      var (error, next) := Maintained(s, entry);
      StoreLaws(s.pool, entry.key, Lookup(s.pool, entry.key) + [entry]);
      (Answer(error), sys.(state := next))
    case Checkout(key) =>
      var (result, next) := CheckedOut(s, key);
      StoreLaws(s.pool, key, if Lookup(s.pool, key) == [] then [] else Lookup(s.pool, key)[1..]);
      if result.Refused? then (Denied(result.error), sys.(state := next))
      else if result.entry.None? then (Took(None), sys.(state := next))
      else (Took(result.entry), System(next, sys.held + [result.entry.value.budget]))
    case Expire(key) =>
      var (entry, next) := Expired(s, key);
      StoreLaws(s.pool, key, if Lookup(s.pool, key) == [] then [] else Lookup(s.pool, key)[1..]);
      (Took(entry), sys.(state := next))
    case Evict(request) =>
      var (entries, next) := Evicted(s, request);
      (Freed(entries), sys.(state := next))
  }

  function Run(sys: System, ops: seq<Op>): (r: (seq<Reply>, System))
    requires Sorted(sys.state.pool) && Filled(sys.state.pool)
    ensures Sorted(r.1.state.pool) && Filled(r.1.state.pool)
    ensures |r.0| == |ops|
  {
    if ops == [] then ([], sys)
    else
      var (replies, last) := Run(sys, ops[..|ops| - 1]);
      var (reply, next) := Step(last, ops[|ops| - 1]);
      (replies + [reply], next)
  }

  /** The run-level invariant: pool and ledger are in step, and the active counter is the exact
      total of the reservations still held. */
  ghost predicate Consistent(sys: System) {
    Coupled(sys.state) && sys.state.ledger.active == Total(sys.held)
  }

  lemma {:induction false} ReserveStepKeeps(sys: System, budget: ResourceBudget)
    requires Consistent(sys)
    ensures Consistent(Step(sys, Reserve(budget)).1)
    ensures Step(sys, Reserve(budget)).1.state.ledger.capacity == sys.state.ledger.capacity
  {
    ReserveIsExact(sys.state.ledger, budget);
    TotalSnoc(sys.held, budget);
  }

  lemma {:induction false} ReleaseStepKeeps(sys: System, slot: nat)
    requires Consistent(sys)
    ensures Consistent(Step(sys, Release(slot)).1)
    ensures Step(sys, Release(slot)).1.state.ledger.capacity == sys.state.ledger.capacity
  {
    if slot < |sys.held| {
      TotalWithout(sys.held, slot);
      TotalNonNegative(Without(sys.held, slot));
    }
  }

  lemma {:induction false} CheckoutStepKeeps(sys: System, key: WarmPoolKey)
    requires Consistent(sys)
    ensures Consistent(Step(sys, Checkout(key)).1)
    ensures Step(sys, Checkout(key)).1.state.ledger.capacity == sys.state.ledger.capacity
  {
    CheckoutKeeps(sys.state, key);
    var queue := Lookup(sys.state.pool, key);
    if queue != [] {
      TotalSnoc(sys.held, queue[0].budget);
    }
  }

  lemma {:induction false} StepKeeps(sys: System, op: Op)
    requires Consistent(sys)
    ensures Consistent(Step(sys, op).1)
    ensures Step(sys, op).1.state.ledger.capacity == sys.state.ledger.capacity
  {
    match op
    case Reserve(budget) => ReserveStepKeeps(sys, budget);
    case Release(slot) => ReleaseStepKeeps(sys, slot);
    case Maintain(entry) => MaintainKeeps(sys.state, entry);
    case Checkout(key) => CheckoutStepKeeps(sys, key);
    case Expire(key) => ExpireKeeps(sys.state, key);
    case Evict(request) => EvictKeeps(sys.state, request);
  }

  /** On every run from a fresh ledger and an empty pool: capacity never changes, the warm counter
      is the exact total of the pooled budgets, the active counter is the exact total of the held
      reservations, and together they stay within capacity. */
  lemma {:induction false} EveryRunIsConsistent(capacity: ResourceBudget, ops: seq<Op>)
    ensures var end := Run(Fresh(capacity), ops).1;
      && end.state.ledger.capacity == capacity
      && end.state.ledger.warmPool == PoolTotal(end.state.pool)
      && end.state.ledger.active == Total(end.held)
      && Fits(Plus(Total(end.held), PoolTotal(end.state.pool)), capacity)
      && ValidPool(end.state.pool)
      && Consistent(end)
  {
    RunKeeps(Fresh(capacity), ops);
  }

  lemma {:induction false} RunKeeps(sys: System, ops: seq<Op>)
    requires Consistent(sys)
    ensures Consistent(Run(sys, ops).1)
    ensures Run(sys, ops).1.state.ledger.capacity == sys.state.ledger.capacity
  {
    if ops != [] {
      RunKeeps(sys, ops[..|ops| - 1]);
      StepKeeps(Run(sys, ops[..|ops| - 1]).1, ops[|ops| - 1]);
    }
  }

  /** In a consistent system a denied operation changes nothing, and a checkout is never denied. */
  lemma {:induction false} DeniedChangesNothing(sys: System, op: Op)
    requires Consistent(sys)
    ensures Step(sys, op).0.Denied? ==> Step(sys, op).1 == sys
    ensures op.Checkout? ==> Step(sys, op).0 == Took(PopFront(sys.state.pool, op.key).0)
  {
    match op
    case Checkout(key) => CheckoutKeeps(sys.state, key);
    case _ =>
  }

  // ---------- per-key first-in, first-out conservation ----------

  /** The entries of one key, in order. */
  function OfKey(entries: seq<WarmPoolEntry>, k: WarmPoolKey): seq<WarmPoolEntry> {
    if entries == [] then []
    else (if entries[0].key == k then [entries[0]] else []) + OfKey(entries[1..], k)
  }

  /** The entries of key `k` that a reply handed out. */
  function TakenBy(reply: Reply, k: WarmPoolKey): seq<WarmPoolEntry> {
    match reply
    case Took(Some(entry)) => OfKey([entry], k)
    case Freed(entries) => OfKey(entries, k)
    case _ => []
  }

  /** The entry of key `k` that an operation queued, if it did. */
  function StoredBy(op: Op, reply: Reply, k: WarmPoolKey): seq<WarmPoolEntry> {
    if op.Maintain? && reply.Done? then OfKey([op.entry], k) else []
  }

  function Taken(replies: seq<Reply>, k: WarmPoolKey): seq<WarmPoolEntry> {
    if replies == [] then []
    else Taken(replies[..|replies| - 1], k) + TakenBy(replies[|replies| - 1], k)
  }

  function Stored(ops: seq<Op>, replies: seq<Reply>, k: WarmPoolKey): seq<WarmPoolEntry>
    requires |ops| == |replies|
  {
    if ops == [] then []
    else Stored(ops[..|ops| - 1], replies[..|ops| - 1], k) + StoredBy(ops[|ops| - 1], replies[|ops| - 1], k)
  }

  lemma {:induction false} OfKeyCons(entry: WarmPoolEntry, rest: seq<WarmPoolEntry>, k: WarmPoolKey)
    ensures OfKey([entry] + rest, k) == if entry.key == k then [entry] + OfKey(rest, k) else OfKey(rest, k)
  {
    assert ([entry] + rest)[1..] == rest;
  }

  lemma {:induction false} OfKeyOne(entry: WarmPoolEntry, k: WarmPoolKey)
    ensures OfKey([entry], k) == if entry.key == k then [entry] else []
  {
    OfKeyCons(entry, [], k);
    assert [entry] + [] == [entry];
  }

  /** Popping one key hands out the head of its queue, filed under that key. */
  lemma {:induction false} PopIsFifo(p: Pool, key: WarmPoolKey, k: WarmPoolKey)
    requires ValidPool(p)
    ensures TakenBy(Took(PopFront(p, key).0), k) + Lookup(PopFront(p, key).1, k) == Lookup(p, k)
  {
    var queue := Lookup(p, key);
    if queue == [] {
      assert [] + Lookup(p, k) == Lookup(p, k);
    } else {
      PopKeeps(p, key);
      LookupFiled(p, key);
      OfKeyOne(queue[0], k);
      if k == key {
        assert [queue[0]] + queue[1..] == queue;
      } else {
        assert [] + Lookup(p, k) == Lookup(p, k);
      }
    }
  }

  lemma {:induction false} EvictIsFifo(s: State, request: ResourceBudget, k: WarmPoolKey)
    requires Coupled(s)
    ensures OfKey(Evicted(s, request).0, k) + Lookup(Evicted(s, request).1.pool, k) == Lookup(s.pool, k)
    decreases |Flatten(s.pool)|
  {
    if !Fits(request, Available(s.ledger)) && s.pool != [] {
      var first := s.pool[0].key;
      var next := Expired(s, first).1;
      EvictStep(s, request);
      ExpireKeeps(s, first);
      PopIsFifo(s.pool, first, k);
      EvictIsFifo(next, request, k);
      OfKeyOne(Expired(s, first).0.value, k);
      OfKeyCons(Expired(s, first).0.value, Evicted(next, request).0, k);
    }
  }

  /** One operation: what is handed out plus what stays queued is what was queued plus what came in. */
  ghost predicate Fifo(sys: System, op: Op, k: WarmPoolKey)
    requires Sorted(sys.state.pool) && Filled(sys.state.pool)
  {
    var (reply, next) := Step(sys, op);
    TakenBy(reply, k) + Lookup(next.state.pool, k) == Lookup(sys.state.pool, k) + StoredBy(op, reply, k)
  }

  lemma {:induction false} MaintainStepIsFifo(sys: System, entry: WarmPoolEntry, k: WarmPoolKey)
    requires Consistent(sys)
    ensures Fifo(sys, Maintain(entry), k)
  {
    MaintainKeeps(sys.state, entry);
    OfKeyOne(entry, k);
  }

  /** Nothing is handed out and nothing comes in. */
  lemma {:induction false} QuietStepIsFifo(sys: System, op: Op, k: WarmPoolKey)
    requires Consistent(sys) && (op.Reserve? || op.Release?)
    ensures Fifo(sys, op, k)
  {
    QuietStepShape(sys, op, k);
    assert [] + Lookup(sys.state.pool, k) == Lookup(sys.state.pool, k) + [];
  }

  lemma QuietStepShape(sys: System, op: Op, k: WarmPoolKey)
    requires Sorted(sys.state.pool) && Filled(sys.state.pool) && (op.Reserve? || op.Release?)
    ensures Step(sys, op).1.state.pool == sys.state.pool
    ensures TakenBy(Step(sys, op).0, k) == [] && StoredBy(op, Step(sys, op).0, k) == []
  {
  }

  lemma {:induction false} PopStepIsFifo(sys: System, op: Op, k: WarmPoolKey)
    requires Consistent(sys) && (op.Checkout? || op.Expire?)
    ensures Fifo(sys, op, k)
  {
    if op.Checkout? {
      CheckoutKeeps(sys.state, op.key);
    }
    PopIsFifo(sys.state.pool, op.key, k);
    assert Lookup(sys.state.pool, k) + [] == Lookup(sys.state.pool, k);
  }

  lemma {:induction false} StepIsFifo(sys: System, op: Op, k: WarmPoolKey)
    requires Consistent(sys)
    ensures Fifo(sys, op, k)
  {
    match op
    case Reserve(_) => QuietStepIsFifo(sys, op, k);
    case Release(_) => QuietStepIsFifo(sys, op, k);
    case Maintain(entry) => MaintainStepIsFifo(sys, entry, k);
    case Checkout(_) => PopStepIsFifo(sys, op, k);
    case Expire(_) => PopStepIsFifo(sys, op, k);
    case Evict(request) =>
      EvictIsFifo(sys.state, request, k);
      assert Lookup(sys.state.pool, k) + [] == Lookup(sys.state.pool, k);
  }

  lemma {:induction false} Regroup<T>(a: seq<T>, b: seq<T>, c: seq<T>, d: seq<T>, e: seq<T>)
    requires b + c == d + e
    ensures (a + b) + c == (a + d) + e
  {
    assert (a + b) + c == a + (b + c);
    assert (a + d) + e == a + (d + e);
  }

  /** Conservation carries over from a run to the run extended by one operation. */
  lemma {:induction false} FifoExtends(ops: seq<Op>, op: Op, replies: seq<Reply>, reply: Reply,
                                       before: seq<WarmPoolEntry>, after: seq<WarmPoolEntry>, k: WarmPoolKey)
    requires |ops| == |replies|
    requires Taken(replies, k) + before == Stored(ops, replies, k)
    requires TakenBy(reply, k) + after == before + StoredBy(op, reply, k)
    ensures Taken(replies + [reply], k) + after == Stored(ops + [op], replies + [reply], k)
  {
    Regroup(Taken(replies, k), TakenBy(reply, k), after, before, StoredBy(op, reply, k));
  }

  lemma {:induction false} RunSnoc(sys: System, ops: seq<Op>, op: Op)
    requires Sorted(sys.state.pool) && Filled(sys.state.pool)
    ensures var (replies, last) := Run(sys, ops);
      Run(sys, ops + [op]) == (replies + [Step(last, op).0], Step(last, op).1)
  {
    assert (ops + [op])[..|ops|] == ops;
  }

  /** On every run, for every key: the entries handed out by checkout, expiry and eviction, in
      order, followed by those still queued, are the successfully maintained ones, in order. */
  lemma {:induction false} EveryRunIsFifo(capacity: ResourceBudget, ops: seq<Op>, k: WarmPoolKey)
    ensures var (replies, end) := Run(Fresh(capacity), ops);
      Taken(replies, k) + Lookup(end.state.pool, k) == Stored(ops, replies, k)
  {
    if ops != [] {
      var earlier, op := ops[..|ops| - 1], ops[|ops| - 1];
      assert ops == earlier + [op];
      var (replies, last) := Run(Fresh(capacity), earlier);
      var (reply, next) := Step(last, op);
      RunSnoc(Fresh(capacity), earlier, op);
      EveryRunIsFifo(capacity, earlier, k);
      EveryRunIsConsistent(capacity, earlier);
      StepIsFifo(last, op, k);
      FifoExtends(earlier, op, replies, reply, Lookup(last.state.pool, k), Lookup(next.state.pool, k), k);
    }
  }
}
