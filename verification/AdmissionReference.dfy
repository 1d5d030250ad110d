/** A reference for the admission core with no counters, no buckets and no bounded arithmetic: the
    reservations held and one list of warm entries in order of arrival. Every run of the real core
    gives the same answers. */
module AdmissionReference {
  import opened Wrappers
  import opened Budgets
  import opened Keys
  import opened Capacity
  import opened OrderedQueues
  import opened WarmPool
  import opened AdmissionRuns
  import opened Shelves

  datatype Desk = Desk(capacity: ResourceBudget, held: seq<ResourceBudget>, shelf: seq<WarmPoolEntry>)

  /** What is left of the capacity, computed afresh from everything handed out. */
  function Room(d: Desk): Amount {
    Minus(d.capacity, Plus(Total(d.held), Cost(d.shelf)))
  }

  /** Removes the oldest entry of the least key until the request fits or the shelf is bare. */
  function Sweep(d: Desk, request: ResourceBudget): (seq<WarmPoolEntry>, Desk)
    decreases |d.shelf|
  {
    if Fits(request, Room(d)) || d.shelf == [] then ([], d)
    else
      LeastKeyIsOnShelf(d.shelf);
      var i := Oldest(d.shelf, LeastKey(d.shelf));
      var (more, last) := Sweep(d.(shelf := Without(d.shelf, i)), request);
      ([d.shelf[i]] + more, last)
  }

  function Serve(d: Desk, op: Op): (Reply, Desk) {
    match op
    case Reserve(budget) =>
      var error := Shortfall(budget, Room(d));
      (Answer(error), if error.None? then d.(held := d.held + [budget]) else d)
    case Release(slot) =>
      (Done, if slot < |d.held| then d.(held := Without(d.held, slot)) else d)
    case Maintain(entry) =>
      var error := Shortfall(entry.budget, Room(d));
      (Answer(error), if error.None? then d.(shelf := d.shelf + [entry]) else d)
    case Checkout(key) =>
      var i := Oldest(d.shelf, key);
      if i == |d.shelf| then (Took(None), d)
      else (Took(Some(d.shelf[i])), Desk(d.capacity, d.held + [d.shelf[i].budget], Without(d.shelf, i)))
    case Expire(key) =>
      var i := Oldest(d.shelf, key);
      if i == |d.shelf| then (Took(None), d)
      else (Took(Some(d.shelf[i])), d.(shelf := Without(d.shelf, i)))
    case Evict(request) =>
      var (entries, next) := Sweep(d, request);
      (Freed(entries), next)
  }

  function ServeAll(d: Desk, ops: seq<Op>): (seq<Reply>, Desk) {
    if ops == [] then ([], d)
    else
      var (replies, last) := ServeAll(d, ops[..|ops| - 1]);
      var (reply, next) := Serve(last, ops[|ops| - 1]);
      (replies + [reply], next)
  }

  // ---------- the refinement ----------

  ghost predicate SameQueues(p: Pool, shelf: seq<WarmPoolEntry>) {
    && (forall k :: Lookup(p, k) == OfKey(shelf, k))
    && PoolTotal(p) == Cost(shelf)
  }

  ghost predicate Represents(d: Desk, sys: System) {
    && Consistent(sys)
    && sys.state.ledger.capacity == d.capacity
    && sys.held == d.held
    && SameQueues(sys.state.pool, d.shelf)
  }

  lemma {:induction false} RoomIsAvailable(d: Desk, sys: System)
    requires Represents(d, sys)
    ensures Available(sys.state.ledger) == Room(d)
  {
    AvailableIsExact(sys.state.ledger);
  }

  /** Popping a key's queue and taking its oldest entry off the shelf are the same act. */
  lemma {:induction false} PopIsTake(p: Pool, shelf: seq<WarmPoolEntry>, key: WarmPoolKey)
    requires ValidPool(p) && SameQueues(p, shelf)
    ensures PopFront(p, key).0.None? <==> Oldest(shelf, key) == |shelf|
    ensures PopFront(p, key).0.None? ==> PopFront(p, key).1 == p
    ensures PopFront(p, key).0.Some? ==>
      var i := Oldest(shelf, key);
      PopFront(p, key).0.value == shelf[i] && SameQueues(PopFront(p, key).1, Without(shelf, i))
  {
    OfKeyNone(shelf, key);
    var i := Oldest(shelf, key);
    if i < |shelf| {
      PopKeeps(p, key);
      HeadIsCovered(p, key);
      CostWithout(shelf, i);
      TakeOldest(shelf, key);
      forall k ensures Lookup(PopFront(p, key).1, k) == OfKey(Without(shelf, i), k) {
        if k != key { TakeLeavesOthers(shelf, i, k); }
      }
    }
  }

  /** The first key of the pool is the least key on the shelf. */
  lemma {:induction false} FirstIsLeastKey(p: Pool, shelf: seq<WarmPoolEntry>)
    requires ValidPool(p) && SameQueues(p, shelf)
    ensures p == [] <==> shelf == []
    ensures p != [] ==> p[0].key == LeastKey(shelf) && Oldest(shelf, LeastKey(shelf)) < |shelf|
  {
    if shelf != [] {
      OfKeyNone(shelf, shelf[0].key);
      assert Lookup(p, shelf[0].key) != [];
    }
    if p != [] {
      FirstIsQueued(p);
      OfKeyNone(shelf, p[0].key);
      var i := Oldest(shelf, p[0].key);
      assert shelf[i].key == p[0].key;
      LeastKeyIsLeast(shelf);
      LeastKeyIsOnShelf(shelf);
      OfKeyNone(shelf, LeastKey(shelf));
      FirstIsLeast(p, LeastKey(shelf));
    }
  }

  lemma {:induction false} PushIsAppend(p: Pool, shelf: seq<WarmPoolEntry>, entry: WarmPoolEntry)
    requires ValidPool(p) && SameQueues(p, shelf)
    ensures SameQueues(PushBack(p, entry.key, entry), shelf + [entry])
  {
    var queue := Lookup(p, entry.key) + [entry];
    StoreLaws(p, entry.key, queue);
    StoreTotal(p, entry.key, queue);
    CostConcat(Lookup(p, entry.key), [entry]);
    CostConcat(shelf, [entry]);
    forall k ensures Lookup(PushBack(p, entry.key, entry), k) == OfKey(shelf + [entry], k) {
      OfKeyConcat(shelf, [entry], k);
      OfKeyOne(entry, k);
    }
  }

  lemma {:induction false} MaintainRefines(d: Desk, sys: System, entry: WarmPoolEntry)
    requires Represents(d, sys)
    ensures Step(sys, Maintain(entry)).0 == Serve(d, Maintain(entry)).0
    ensures Represents(Serve(d, Maintain(entry)).1, Step(sys, Maintain(entry)).1)
  {
    RoomIsAvailable(d, sys);
    StepKeeps(sys, Maintain(entry));
    PushIsAppend(sys.state.pool, d.shelf, entry);
  }

  lemma {:induction false} CheckoutRefines(d: Desk, sys: System, key: WarmPoolKey)
    requires Represents(d, sys)
    ensures Step(sys, Checkout(key)).0 == Serve(d, Checkout(key)).0
    ensures Represents(Serve(d, Checkout(key)).1, Step(sys, Checkout(key)).1)
  {
    CheckoutKeeps(sys.state, key);
    CheckoutStepKeeps(sys, key);
    PopIsTake(sys.state.pool, d.shelf, key);
  }

  lemma {:induction false} ExpireIsTake(d: Desk, sys: System, key: WarmPoolKey)
    requires Represents(d, sys) && Oldest(d.shelf, key) < |d.shelf|
    ensures Expired(sys.state, key).0 == Some(d.shelf[Oldest(d.shelf, key)])
    ensures Represents(d.(shelf := Without(d.shelf, Oldest(d.shelf, key))), sys.(state := Expired(sys.state, key).1))
  {
    ExpireKeeps(sys.state, key);
    PopIsTake(sys.state.pool, d.shelf, key);
  }

  lemma {:induction false} ExpireRefines(d: Desk, sys: System, key: WarmPoolKey)
    requires Represents(d, sys)
    ensures Step(sys, Expire(key)).0 == Serve(d, Expire(key)).0
    ensures Represents(Serve(d, Expire(key)).1, Step(sys, Expire(key)).1)
  {
    if Oldest(d.shelf, key) < |d.shelf| {
      ExpireIsTake(d, sys, key);
    } else {
      PopIsTake(sys.state.pool, d.shelf, key);
    }
  }

  lemma {:induction false} EvictRefines(d: Desk, sys: System, request: ResourceBudget)
    requires Represents(d, sys)
    ensures Evicted(sys.state, request).0 == Sweep(d, request).0
    ensures Represents(Sweep(d, request).1, sys.(state := Evicted(sys.state, request).1))
    decreases |d.shelf|
  {
    RoomIsAvailable(d, sys);
    FirstIsLeastKey(sys.state.pool, d.shelf);
    if !Fits(request, Room(d)) && d.shelf != [] {
      var key := sys.state.pool[0].key;
      var i := Oldest(d.shelf, key);
      EvictStep(sys.state, request);
      ExpireIsTake(d, sys, key);
      var next := d.(shelf := Without(d.shelf, i));
      EvictRefines(next, sys.(state := Expired(sys.state, key).1), request);
      assert Sweep(d, request) == ([d.shelf[i]] + Sweep(next, request).0, Sweep(next, request).1);
    } else {
      assert Evicted(sys.state, request) == ([], sys.state);
      assert Sweep(d, request) == ([], d);
    }
  }

  lemma {:induction false} StepRefines(d: Desk, sys: System, op: Op)
    requires Represents(d, sys)
    ensures Step(sys, op).0 == Serve(d, op).0
    ensures Represents(Serve(d, op).1, Step(sys, op).1)
  {
    match op
    case Reserve(budget) =>
      RoomIsAvailable(d, sys);
      ReserveStepKeeps(sys, budget);
    case Release(slot) =>
      ReleaseStepKeeps(sys, slot);
    case Maintain(entry) =>
      MaintainRefines(d, sys, entry);
    case Checkout(key) =>
      CheckoutRefines(d, sys, key);
    case Expire(key) =>
      ExpireRefines(d, sys, key);
    case Evict(request) =>
      EvictRefines(d, sys, request);
  }

  lemma {:induction false} RunRefines(capacity: ResourceBudget, ops: seq<Op>)
    ensures Run(Fresh(capacity), ops).0 == ServeAll(Desk(capacity, [], []), ops).0
    ensures Represents(ServeAll(Desk(capacity, [], []), ops).1, Run(Fresh(capacity), ops).1)
  {
    if ops != [] {
      var earlier, op := ops[..|ops| - 1], ops[|ops| - 1];
      assert ops == earlier + [op];
      RunRefines(capacity, earlier);
      StepRefines(ServeAll(Desk(capacity, [], []), earlier).1, Run(Fresh(capacity), earlier).1, op);
      RunSnoc(Fresh(capacity), earlier, op);
    }
  }

  /** On every run the counters, sorted buckets and saturating arithmetic of the real core give
      exactly the answers of the reference, and leave exactly its room and its entries of every key. */
  lemma {:induction false} EveryRunMatchesReference(capacity: ResourceBudget, ops: seq<Op>, k: WarmPoolKey)
    ensures var (replies, end) := Run(Fresh(capacity), ops);
      var (expected, desk) := ServeAll(Desk(capacity, [], []), ops);
      && replies == expected
      && end.held == desk.held
      && Available(end.state.ledger) == Room(desk)
      && Lookup(end.state.pool, k) == OfKey(desk.shelf, k)
  {
    RunRefines(capacity, ops);
    RoomIsAvailable(ServeAll(Desk(capacity, [], []), ops).1, Run(Fresh(capacity), ops).1);
  }
}
