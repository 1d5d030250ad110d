/** The warm pool: pre-reserved entries queued per key, kept in step with the capacity ledger. */
module WarmPool {
  import opened Wrappers
  import opened Budgets
  import opened Keys
  import opened Capacity
  import opened OrderedQueues

  datatype WarmPoolEntry = WarmPoolEntry(key: WarmPoolKey, snapshotId: string, budget: ResourceBudget)

  type Pool = Buckets<WarmPoolEntry>

  /** A pool together with the ledger it draws on. */
  datatype State = State(pool: Pool, ledger: Ledger)

  datatype CheckoutResult = Checked(entry: Option<WarmPoolEntry>) | Refused(error: CapacityError)

  // ---------- what each operation does, on values, in every state ----------

  function Maintained(s: State, entry: WarmPoolEntry): (Option<CapacityError>, State) {
    var (error, ledger) := ReservedWarm(s.ledger, entry.budget);
    (error, State(if error.None? then PushBack(s.pool, entry.key, entry) else s.pool, ledger))
  }

  /** The entry is popped before the promotion is attempted. */
  function CheckedOut(s: State, key: WarmPoolKey): (CheckoutResult, State) {
    match Get(s.pool, key)
    case None => (Checked(None), s)
    case Some(queue) =>
      if queue == [] then (Checked(None), s.(pool := Remove(s.pool, key)))
      else
        var entry := queue[0];
        var (error, ledger) := Promoted(s.ledger, entry.budget);
        (if error.None? then Checked(Some(entry)) else Refused(error.value),
         State(Store(s.pool, key, queue[1..]), ledger))
  }

  function Expired(s: State, key: WarmPoolKey): (Option<WarmPoolEntry>, State) {
    var (entry, pool) := PopFront(s.pool, key);
    (entry, State(pool, if entry.None? then s.ledger else ReleasedWarm(s.ledger, entry.value.budget)))
  }

  /** Expires the first key's oldest entry until the request fits or the pool is empty.
      An empty queue at the first key would make the loop spin forever, so none may be stored. */
  function Evicted(s: State, request: ResourceBudget): (r: (seq<WarmPoolEntry>, State))
    requires Sorted(s.pool) && Filled(s.pool)
    ensures Sorted(r.1.pool) && Filled(r.1.pool)
    decreases |Flatten(s.pool)|
  {
    if Fits(request, Available(s.ledger)) || s.pool == [] then ([], s)
    else
      PopFirst(s.pool);
      var (entry, next) := Expired(s, s.pool[0].key);
      var (more, last) := Evicted(next, request);
      ([entry.value] + more, last)
  }

  /** One pass of the eviction loop. */
  lemma {:induction false} EvictStep(s: State, request: ResourceBudget)
    requires Sorted(s.pool) && Filled(s.pool) && s.pool != [] && !Fits(request, Available(s.ledger))
    ensures Expired(s, s.pool[0].key).0.Some?
    ensures var next := Expired(s, s.pool[0].key).1;
      && Sorted(next.pool) && Filled(next.pool)
      && |Flatten(next.pool)| < |Flatten(s.pool)|
      && Evicted(s, request) == ([Expired(s, s.pool[0].key).0.value] + Evicted(next, request).0,
                                 Evicted(next, request).1)
  {
    PopFirst(s.pool);
  }

  // ---------- the coupling invariant ----------

  /** Exact total of the budgets of some entries. */
  function Cost(entries: seq<WarmPoolEntry>): Amount {
    if entries == [] then ZERO else Plus(entries[0].budget, Cost(entries[1..]))
  }

  /** Exact total of the pooled budgets. */
  function PoolTotal(p: Pool): Amount {
    if p == [] then ZERO else Plus(Cost(p[0].queue), PoolTotal(p[1..]))
  }

  /** Every entry is queued under its own key. */
  ghost predicate Filed(p: Pool) {
    forall i, j :: 0 <= i < |p| && 0 <= j < |p[i].queue| ==> p[i].queue[j].key == p[i].key
  }

  ghost predicate ValidPool(p: Pool) {
    Sorted(p) && Filled(p) && Filed(p)
  }

  /** Pool and ledger are in step: the warm counter is the exact total of the pooled budgets and
      nothing is over-committed. */
  ghost predicate Coupled(s: State) {
    ValidPool(s.pool) && s.ledger.warmPool == PoolTotal(s.pool) && Solvent(s.ledger)
  }

  lemma {:induction false} CostConcat(a: seq<WarmPoolEntry>, b: seq<WarmPoolEntry>)
    ensures Cost(a + b) == Plus(Cost(a), Cost(b))
  {
    if a == [] {
      assert a + b == b;
    } else {
      assert (a + b)[1..] == a[1..] + b;
      CostConcat(a[1..], b);
    }
  }

  lemma {:induction false} CostNonNegative(entries: seq<WarmPoolEntry>)
    ensures Fits(ZERO, Cost(entries))
  {
    if entries != [] {
      CostNonNegative(entries[1..]);
    }
  }

  lemma {:induction false} PoolTotalIsFlatCost(p: Pool)
    ensures PoolTotal(p) == Cost(Flatten(p))
    ensures Fits(ZERO, PoolTotal(p))
  {
    CostNonNegative(Flatten(p));
    if p != [] {
      PoolTotalIsFlatCost(p[1..]);
      CostConcat(p[0].queue, Flatten(p[1..]));
    }
  }

  lemma {:induction false} PutTotal(p: Pool, k: WarmPoolKey, q: seq<WarmPoolEntry>)
    requires Sorted(p)
    ensures SameSum(PoolTotal(Put(p, k, q)), Cost(Lookup(p, k)), PoolTotal(p), Cost(q))
  {
    var r := Put(p, k, q);
    if p == [] {
      assert r[1..] == p;
    } else if KeyLess(k, p[0].key) {
      assert r[1..] == p;
      if Get(p, k).Some? {
        var i := GetIndex(p, k);
        if i > 0 { KeyTransitive(k, p[0].key, k); }
        KeyIrreflexive(k);
      }
    } else if p[0].key == k {
      assert r[1..] == p[1..];
    } else {
      assert r[1..] == Put(p[1..], k, q);
      PutTotal(p[1..], k, q);
    }
  }

  lemma {:induction false} RemoveTotal(p: Pool, k: WarmPoolKey)
    ensures SameSum(PoolTotal(Remove(p, k)), Cost(Lookup(p, k)), PoolTotal(p), ZERO)
  {
    if p != [] && p[0].key != k {
      assert Remove(p, k)[1..] == Remove(p[1..], k);
      RemoveTotal(p[1..], k);
    }
  }

  /** Replacing the queue under one key moves the pool total by the difference of the queues. */
  lemma {:induction false} StoreTotal(p: Pool, k: WarmPoolKey, q: seq<WarmPoolEntry>)
    requires Sorted(p)
    ensures SameSum(PoolTotal(Store(p, k, q)), Cost(Lookup(p, k)), PoolTotal(p), Cost(q))
  {
    if q == [] {
      RemoveTotal(p, k);
    } else {
      PutTotal(p, k, q);
    }
  }

  lemma {:induction false} StoreFiled(p: Pool, k: WarmPoolKey, q: seq<WarmPoolEntry>)
    requires Sorted(p) && Filed(p)
    requires forall j :: 0 <= j < |q| ==> q[j].key == k
    ensures Filed(Store(p, k, q))
  {
    PutKeeps(p, k, q);
    RemoveKeeps(p, k);
  }

  lemma {:induction false} LookupFiled(p: Pool, k: WarmPoolKey)
    requires Filed(p)
    ensures forall j :: 0 <= j < |Lookup(p, k)| ==> Lookup(p, k)[j].key == k
  {
    if Get(p, k).Some? {
      var i := GetIndex(p, k);
    }
  }

  /** A queued entry's budget is covered by the warm total. */
  lemma {:induction false} HeadIsCovered(p: Pool, k: WarmPoolKey)
    requires Sorted(p) && Lookup(p, k) != []
    ensures Fits(Lookup(p, k)[0].budget, PoolTotal(p))
    ensures PoolTotal(Store(p, k, Lookup(p, k)[1..])) == Minus(PoolTotal(p), Lookup(p, k)[0].budget)
  {
    var q := Lookup(p, k);
    StoreTotal(p, k, q[1..]);
    PoolTotalIsFlatCost(Store(p, k, q[1..]));
  }

  /** The ledger `after` is `before` with the warm counter at `warm`. */
  ghost predicate SameButWarm(after: Ledger, before: Ledger, warm: Amount) {
    after.capacity == before.capacity && after.active == before.active && after.warmPool == warm
  }

  // ---------- every operation keeps pool and ledger in step ----------

  lemma {:induction false} MaintainKeeps(s: State, entry: WarmPoolEntry)
    requires Coupled(s)
    ensures Coupled(Maintained(s, entry).1)
    ensures Maintained(s, entry).0.None? <==> Fits(entry.budget, Available(s.ledger))
    ensures Maintained(s, entry).0.Some? ==> Maintained(s, entry).1 == s
    ensures Maintained(s, entry).0.None? ==>
      && SameButWarm(Maintained(s, entry).1.ledger, s.ledger, Plus(s.ledger.warmPool, entry.budget))
      && forall k :: Lookup(Maintained(s, entry).1.pool, k)
                  == if k == entry.key then Lookup(s.pool, k) + [entry] else Lookup(s.pool, k)
  {
    ReserveIsExact(s.ledger, entry.budget);
    var k := entry.key;
    var q := Lookup(s.pool, k) + [entry];
    CostConcat(Lookup(s.pool, k), [entry]);
    StoreTotal(s.pool, k, q);
    StoreLaws(s.pool, k, q);
    LookupFiled(s.pool, k);
    StoreFiled(s.pool, k, q);
  }

  /** Although the entry is popped before it is promoted, a checkout in step is never refused. */
  lemma {:induction false} CheckoutKeeps(s: State, key: WarmPoolKey)
    requires Coupled(s)
    ensures Coupled(CheckedOut(s, key).1)
    ensures CheckedOut(s, key).0 == Checked(PopFront(s.pool, key).0)
    ensures CheckedOut(s, key).1.pool == PopFront(s.pool, key).1
    ensures Lookup(s.pool, key) == [] ==> CheckedOut(s, key).1 == s
    ensures Lookup(s.pool, key) != [] ==>
      var budget := Lookup(s.pool, key)[0].budget;
      && CheckedOut(s, key).1.ledger.capacity == s.ledger.capacity
      && CheckedOut(s, key).1.ledger.active == Plus(s.ledger.active, budget)
      && CheckedOut(s, key).1.ledger.warmPool == Minus(s.ledger.warmPool, budget)
    ensures forall k :: Lookup(CheckedOut(s, key).1.pool, k)
                     == if k == key && Lookup(s.pool, k) != [] then Lookup(s.pool, k)[1..] else Lookup(s.pool, k)
  {
    PopKeeps(s.pool, key);
    if Get(s.pool, key).Some? {
      var i := GetIndex(s.pool, key);
      HeadIsCovered(s.pool, key);
    }
  }

  lemma {:induction false} ExpireKeeps(s: State, key: WarmPoolKey)
    requires Coupled(s)
    ensures Coupled(Expired(s, key).1)
    ensures Lookup(s.pool, key) == [] ==> Expired(s, key) == (None, s)
    ensures Lookup(s.pool, key) != [] ==>
      var entry := Lookup(s.pool, key)[0];
      && Expired(s, key).0 == Some(entry)
      && SameButWarm(Expired(s, key).1.ledger, s.ledger, Minus(s.ledger.warmPool, entry.budget))
    ensures forall k :: Lookup(Expired(s, key).1.pool, k)
                     == if k == key && Lookup(s.pool, k) != [] then Lookup(s.pool, k)[1..] else Lookup(s.pool, k)
  {
    PopKeeps(s.pool, key);
    if Lookup(s.pool, key) != [] {
      HeadIsCovered(s.pool, key);
    }
  }

  lemma {:induction false} PopKeeps(p: Pool, key: WarmPoolKey)
    requires ValidPool(p)
    ensures ValidPool(PopFront(p, key).1)
    ensures forall k :: Lookup(PopFront(p, key).1, k)
                     == if k == key && Lookup(p, k) != [] then Lookup(p, k)[1..] else Lookup(p, k)
  {
    var q := Lookup(p, key);
    if q != [] {
      StoreLaws(p, key, q[1..]);
      LookupFiled(p, key);
      StoreFiled(p, key, q[1..]);
    }
  }

  lemma {:induction false} EvictKeeps(s: State, request: ResourceBudget)
    requires Coupled(s)
    ensures Coupled(Evicted(s, request).1)
    ensures Evicted(s, request).1.ledger.capacity == s.ledger.capacity
    ensures Evicted(s, request).1.ledger.active == s.ledger.active
    decreases |Flatten(s.pool)|
  {
    if !Fits(request, Available(s.ledger)) && s.pool != [] {
      PopFirst(s.pool);
      ExpireKeeps(s, s.pool[0].key);
      EvictKeeps(Expired(s, s.pool[0].key).1, request);
    }
  }

  /** A valid pool is determined by its flattening: the entries say where the queues end. */
  lemma {:induction false} FlattenDetermines(p: Pool, q: Pool)
    requires ValidPool(p) && ValidPool(q) && Flatten(p) == Flatten(q)
    ensures p == q
  {
    if p == [] {
      if q != [] { FirstIsQueued(q); }
    } else {
      FirstIsQueued(p);
      assert q != [];
      FirstIsQueued(q);
      var all, n := Flatten(p), |p[0].queue|;
      assert all[0].key == p[0].key && all[0].key == q[0].key;
      QueueEnds(p, q);
      QueueEnds(q, p);
      assert p[0].queue == all[..n] && q[0].queue == all[..n];
      assert Flatten(p[1..]) == all[n..] && Flatten(q[1..]) == all[n..];
      FlattenDetermines(p[1..], q[1..]);
      assert p == [p[0]] + p[1..] && q == [q[0]] + q[1..];
    }
  }

  lemma {:induction false} QueueEnds(p: Pool, q: Pool)
    requires ValidPool(p) && ValidPool(q) && Flatten(p) == Flatten(q) && p != [] && q != []
    requires p[0].key == q[0].key
    ensures |q[0].queue| <= |p[0].queue|
  {
    var n := |p[0].queue|;
    if n < |q[0].queue| {
      assert Flatten(q)[n] == q[0].queue[n];
      assert Flatten(p)[n] == Flatten(p[1..])[0];
      FirstIsQueued(p[1..]);
      assert p[1..][0] == p[1] && Flatten(p[1..])[0] == p[1].queue[0];
      assert KeyLess(p[0].key, p[1].key);
      KeyIrreflexive(p[0].key);
    }
  }

  // ---------- outside the invariant ----------

  /** In any state at all, checkout is refused exactly when the head entry exceeds the warm counter,
      and then the entry is gone from the pool although nothing was promoted. */
  lemma {:induction false} RefusedCheckoutLosesEntry(s: State, key: WarmPoolKey)
    requires Sorted(s.pool)
    ensures CheckedOut(s, key).0.Refused? <==>
              Lookup(s.pool, key) != [] && !Fits(Lookup(s.pool, key)[0].budget, s.ledger.warmPool)
    ensures CheckedOut(s, key).0.Refused? ==>
      && CheckedOut(s, key).1.ledger == s.ledger
      && Lookup(CheckedOut(s, key).1.pool, key) == Lookup(s.pool, key)[1..]
  {
    if Lookup(s.pool, key) != [] {
      StoreLaws(s.pool, key, Lookup(s.pool, key)[1..]);
    }
  }

  /** One pass of the eviction loop makes progress exactly when the first queue is not empty:
      an empty first queue would leave the state, and so the loop guard, as they were. */
  lemma {:induction false} EvictionPassProgress(s: State)
    requires Sorted(s.pool) && s.pool != []
    ensures s.pool[0].queue == [] <==> Expired(s, s.pool[0].key) == (None, s)
    ensures s.pool[0].queue != [] <==> |Flatten(Expired(s, s.pool[0].key).1.pool)| < |Flatten(s.pool)|
  {
    if s.pool[0].queue != [] {
      FlattenStoreFirst(s.pool, s.pool[0].queue[1..]);
    }
  }

  /** The mutable pool. Every method works on the caller's ledger as well. */
  class WarmPoolLedger {
    var entries: Pool

    constructor ()
      ensures entries == []
    {
      entries := [];
    }

    method Maintain(entry: WarmPoolEntry, capacity: CapacityLedger) returns (error: Option<CapacityError>)
      modifies this, capacity
      ensures (error, State(entries, capacity.Value())) == Maintained(old(State(entries, capacity.Value())), entry)
    {
      error := capacity.ReserveWarmPool(entry.budget);
      if error.Some? {
        return;
      }
      entries := PushBack(entries, entry.key, entry);
    }

    method Checkout(key: WarmPoolKey, capacity: CapacityLedger) returns (result: CheckoutResult)
      modifies this, capacity
      ensures (result, State(entries, capacity.Value())) == CheckedOut(old(State(entries, capacity.Value())), key)
    {
      var found := Get(entries, key);
      if found.None? {
        return Checked(None);
      }
      var queue := found.value;
      if queue == [] {
        entries := Remove(entries, key);
        return Checked(None);
      }
      var entry := queue[0];
      entries := Store(entries, key, queue[1..]);
      var error := capacity.PromoteWarmPoolToActive(entry.budget);
      if error.Some? {
        return Refused(error.value);
      }
      result := Checked(Some(entry));
    }

    method Expire(key: WarmPoolKey, capacity: CapacityLedger) returns (entry: Option<WarmPoolEntry>)
      modifies this, capacity
      ensures (entry, State(entries, capacity.Value())) == Expired(old(State(entries, capacity.Value())), key)
    {
      var found := Get(entries, key);
      if found.None? || found.value == [] {
        return None;
      }
      var queue := found.value;
      entries := Store(entries, key, queue[1..]);
      capacity.ReleaseWarmPool(queue[0].budget);
      entry := Some(queue[0]);
    }

    method Contains(key: WarmPoolKey) returns (found: bool)
      ensures found <==> Lookup(entries, key) != []
    {
      var queue := Get(entries, key);
      found := queue.Some? && queue.value != [];
    }

    method Count(key: WarmPoolKey) returns (count: nat)
      ensures count == |Lookup(entries, key)|
    {
      var queue := Get(entries, key);
      count := if queue.Some? then |queue.value| else 0;
    }

    method EvictUntilAvailable(request: ResourceBudget, capacity: CapacityLedger) returns (evicted: seq<WarmPoolEntry>)
      requires Sorted(entries) && Filled(entries)
      modifies this, capacity
      ensures (evicted, State(entries, capacity.Value())) == Evicted(old(State(entries, capacity.Value())), request)
    {
      evicted := [];
      ghost var start := State(entries, capacity.Value());
      ghost var rest := Evicted(start, request);
      assert [] + rest.0 == rest.0;
      while !Fits(request, Available(capacity.Value()))
        invariant Sorted(entries) && Filled(entries)
        invariant rest == Evicted(State(entries, capacity.Value()), request)
        invariant Evicted(start, request) == (evicted + rest.0, rest.1)
        decreases |Flatten(entries)|
      {
        if entries == [] {
          break;
        }
        EvictStep(State(entries, capacity.Value()), request);
        var entry := Expire(entries[0].key, capacity);
        if entry.Some? {
          rest := Evicted(State(entries, capacity.Value()), request);
          AppendOne(evicted, entry.value, rest.0);
          evicted := evicted + [entry.value];
        }
      }
      assert rest.0 == [] && evicted + [] == evicted;
    }
  }
}
