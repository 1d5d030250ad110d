/** Planning for active work: which warm entries to give up for a request, and whether a request
    that still does not fit should wait or be turned away. */
module ActiveAdmission {
  import opened Wrappers
  import opened Budgets
  import opened Keys
  import opened Capacity
  import opened OrderedQueues
  import opened WarmPool
  import opened AdmissionRuns

  datatype AdmissionPlan = AdmissionPlan(
    request: ResourceBudget, evictions: seq<WarmPoolEntry>, error: Option<CapacityError>)

  /** Takes entries off the front until the request fits, adding up what they give back. */
  function Reclaim(request: ResourceBudget, available: ResourceBudget, entries: seq<WarmPoolEntry>)
    : (seq<WarmPoolEntry>, ResourceBudget)
    decreases entries
  {
    if Fits(request, available) || entries == [] then ([], available)
    else
      var (more, last) := Reclaim(request, Add(available, entries[0].budget), entries[1..]);
      ([entries[0]] + more, last)
  }

  function AdmissionFor(request: ResourceBudget, s: State): AdmissionPlan {
    var (evictions, available) := Reclaim(request, Available(s.ledger), Flatten(s.pool));
    AdmissionPlan(request, evictions, Shortfall(request, available))
  }

  lemma {:induction false} FlattenFrom<T>(p: Buckets<T>, i: nat)
    requires i < |p|
    ensures Flatten(p[i..]) == p[i].queue + Flatten(p[i + 1..])
  {
    assert p[i..][1..] == p[i + 1..];
  }

  /** `taken` entries have been reclaimed, `rest` are still to be looked at. */
  ghost predicate Underway(request: ResourceBudget, start: ResourceBudget, all: seq<WarmPoolEntry>,
                           available: ResourceBudget, taken: seq<WarmPoolEntry>, rest: seq<WarmPoolEntry>) {
    var (more, last) := Reclaim(request, available, rest);
    Reclaim(request, start, all) == (taken + more, last)
  }

  lemma {:induction false} ReclaimOne(request: ResourceBudget, start: ResourceBudget, all: seq<WarmPoolEntry>,
                                      available: ResourceBudget, taken: seq<WarmPoolEntry>, rest: seq<WarmPoolEntry>)
    requires Underway(request, start, all, available, taken, rest)
    requires rest != [] && !Fits(request, available)
    ensures Underway(request, start, all, Add(available, rest[0].budget), taken + [rest[0]], rest[1..])
  {
    var next := Add(available, rest[0].budget);
    AppendOne(taken, rest[0], Reclaim(request, next, rest[1..]).0);
  }

  lemma {:induction false} ReclaimDone(request: ResourceBudget, start: ResourceBudget, all: seq<WarmPoolEntry>,
                                       available: ResourceBudget, taken: seq<WarmPoolEntry>, rest: seq<WarmPoolEntry>)
    requires Underway(request, start, all, available, taken, rest)
    requires rest == [] || Fits(request, available)
    ensures Reclaim(request, start, all) == (taken, available)
  {
    assert taken + [] == taken;
  }

  /** The planner's nested loops, with their labelled break, over any pool and ledger. */
  method PlanAdmission(request: ResourceBudget, pool: Pool, ledger: Ledger) returns (plan: AdmissionPlan)
    ensures plan == AdmissionFor(request, State(pool, ledger))
  {
    var available := Available(ledger);
    var evictions: seq<WarmPoolEntry> := [];
    ghost var start, all, rest := available, Flatten(pool), Flatten(pool);
    assert [] + Reclaim(request, start, all).0 == Reclaim(request, start, all).0;
    if !Fits(request, available) {
      assert pool[0..] == pool;
      label entries:
      for i := 0 to |pool|
        invariant rest == Flatten(pool[i..])
        invariant !Fits(request, available)
        invariant Underway(request, start, all, available, evictions, rest)
      {
        var queue := pool[i].queue;
        FlattenFrom(pool, i);
        for j := 0 to |queue|
          invariant rest == queue[j..] + Flatten(pool[i + 1..])
          invariant !Fits(request, available)
          invariant Underway(request, start, all, available, evictions, rest)
        {
          assert rest[0] == queue[j] && rest[1..] == queue[j + 1..] + Flatten(pool[i + 1..]);
          ReclaimOne(request, start, all, available, evictions, rest);
          available := Add(available, queue[j].budget);
          evictions := evictions + [queue[j]];
          rest := rest[1..];
          if Fits(request, available) {
            break entries;
          }
        }
      }
    }
    ReclaimDone(request, start, all, available, evictions, rest);
    plan := AdmissionPlan(request, evictions, Shortfall(request, available));
  }

  // ---------- what the plan means ----------

  /** `n` is the least number of leading entries whose budgets, added to `start`, make room. */
  ghost predicate ShortestPrefix(request: Amount, start: Amount, entries: seq<WarmPoolEntry>, n: nat) {
    && n <= |entries|
    && (forall m :: 0 <= m < n ==> !Fits(request, Plus(start, Cost(entries[..m]))))
    && (n == |entries| || Fits(request, Plus(start, Cost(entries[..n]))))
  }

  lemma {:induction false} ShortestPrefixCons(request: Amount, start: Amount, entries: seq<WarmPoolEntry>, n: nat)
    requires entries != [] && !Fits(request, start)
    requires ShortestPrefix(request, Plus(start, entries[0].budget), entries[1..], n)
    ensures ShortestPrefix(request, start, entries, n + 1)
  {
    forall m | 0 <= m < |entries|
      ensures Plus(start, Cost(entries[..m + 1])) == Plus(Plus(start, entries[0].budget), Cost(entries[1..][..m]))
    {
      assert entries[..m + 1][1..] == entries[1..][..m];
    }
    forall m | 0 <= m < n + 1 ensures !Fits(request, Plus(start, Cost(entries[..m]))) {
      if m > 0 {
        assert entries[..m] == entries[..(m - 1) + 1];
        assert !Fits(request, Plus(Plus(start, entries[0].budget), Cost(entries[1..][..m - 1])));
      }
    }
  }

  /** `available` is `exact` cut off at the largest representable amount. */
  ghost predicate SaturatedFrom(available: ResourceBudget, exact: Amount) {
    && Fits(ZERO, exact)
    && available.cpus == Clamp(exact.cpus, U32_MAX)
    && available.memory == Clamp(exact.memory, U64_MAX)
    && available.disk == Clamp(exact.disk, U64_MAX)
  }

  lemma {:induction false} ReclaimIsShortestPrefix(request: ResourceBudget, available: ResourceBudget,
                                                   exact: Amount, entries: seq<WarmPoolEntry>)
    requires SaturatedFrom(available, exact)
    ensures Reclaim(request, available, entries).0 <= entries
    ensures ShortestPrefix(request, exact, entries, |Reclaim(request, available, entries).0|)
    decreases entries
  {
    if Fits(request, available) || entries == [] {
      assert entries[..0] == [];
    } else {
      ReclaimIsShortestPrefix(request, Add(available, entries[0].budget), Plus(exact, entries[0].budget), entries[1..]);
      ShortestPrefixCons(request, exact, entries,
                         |Reclaim(request, Add(available, entries[0].budget), entries[1..]).0|);
    }
  }

  /** In every state whatever, saturation included: the plan gives up the shortest prefix of the
      key-ordered, oldest-first entries whose exact budgets make room, or all of them when none does,
      and it reports an error exactly when even that is not enough. */
  lemma {:induction false} PlanIsShortestPrefix(request: ResourceBudget, s: State)
    ensures var plan := AdmissionFor(request, s);
      && plan.request == request
      && plan.evictions <= Flatten(s.pool)
      && ShortestPrefix(request, Available(s.ledger), Flatten(s.pool), |plan.evictions|)
      && (plan.error.None? <==> Fits(request, Plus(Available(s.ledger), Cost(plan.evictions))))
  {
    var available, entries := Available(s.ledger), Flatten(s.pool);
    ReclaimIsShortestPrefix(request, available, available, entries);
    ReclaimTotal(request, available, available, entries);
    var (taken, last) := Reclaim(request, available, entries);
    FitsSaturated(request, last, Plus(available, Cost(taken)));
  }

  lemma FitsSaturated(request: ResourceBudget, available: ResourceBudget, exact: Amount)
    requires SaturatedFrom(available, exact)
    ensures Fits(request, available) <==> Fits(request, exact)
  {
  }

  lemma {:induction false} ReclaimTotal(request: ResourceBudget, available: ResourceBudget,
                                        exact: Amount, entries: seq<WarmPoolEntry>)
    requires SaturatedFrom(available, exact)
    ensures var (taken, last) := Reclaim(request, available, entries);
      SaturatedFrom(last, Plus(exact, Cost(taken)))
    decreases entries
  {
    if !Fits(request, available) && entries != [] {
      var next := Add(available, entries[0].budget);
      ReclaimTotal(request, next, Plus(exact, entries[0].budget), entries[1..]);
      assert Reclaim(request, available, entries).0[1..] == Reclaim(request, next, entries[1..]).0;
    }
  }

  // ---------- the plan predicts the executor ----------

  /** In step, reclaiming on paper and evicting for real take the same entries and leave the same room. */
  lemma {:induction false} EvictionFollowsReclaim(s: State, request: ResourceBudget)
    requires Coupled(s)
    ensures Evicted(s, request).0 == Reclaim(request, Available(s.ledger), Flatten(s.pool)).0
    ensures Available(Evicted(s, request).1.ledger) == Reclaim(request, Available(s.ledger), Flatten(s.pool)).1
    decreases |Flatten(s.pool)|
  {
    if !Fits(request, Available(s.ledger)) && s.pool != [] {
      var key := s.pool[0].key;
      var next := Expired(s, key).1;
      PopFirst(s.pool);
      EvictStep(s, request);
      ExpireMakesRoom(s, key);
      ExpireKeeps(s, key);
      EvictionFollowsReclaim(next, request);
    }
  }

  lemma {:induction false} ExpireMakesRoom(s: State, key: WarmPoolKey)
    requires Coupled(s) && Lookup(s.pool, key) != []
    ensures Available(Expired(s, key).1.ledger) == Add(Available(s.ledger), Lookup(s.pool, key)[0].budget)
  {
    ExpireKeeps(s, key);
    AvailableIsExact(s.ledger);
    AvailableIsExact(Expired(s, key).1.ledger);
  }

  /** The admission plan lists, entry by entry, what the executor then removes, and its error is
      exactly the answer the reservation after that gives. */
  lemma {:induction false} PlanPredictsExecutor(request: ResourceBudget, s: State)
    requires Coupled(s)
    ensures var (evicted, after) := Evicted(s, request);
      && AdmissionFor(request, s).evictions == evicted
      && AdmissionFor(request, s).error == ReservedActive(after.ledger, request).0
  {
    EvictionFollowsReclaim(s, request);
  }

  /** The executor removes the shortest prefix of the flattened pool that makes room, keeps the rest
      in order, and empties the pool when no prefix does. */
  lemma {:induction false} EvictionIsShortestPrefix(s: State, request: ResourceBudget)
    requires Coupled(s)
    ensures var (evicted, after) := Evicted(s, request);
      && evicted + Flatten(after.pool) == Flatten(s.pool)
      && ShortestPrefix(request, Available(s.ledger), Flatten(s.pool), |evicted|)
  {
    EvictionFollowsReclaim(s, request);
    ReclaimIsShortestPrefix(request, Available(s.ledger), Available(s.ledger), Flatten(s.pool));
    EvictionKeepsOrder(s, request);
  }

  lemma {:induction false} EvictionKeepsOrder(s: State, request: ResourceBudget)
    requires Coupled(s)
    ensures Evicted(s, request).0 + Flatten(Evicted(s, request).1.pool) == Flatten(s.pool)
    decreases |Flatten(s.pool)|
  {
    if !Fits(request, Available(s.ledger)) && s.pool != [] {
      var next := Expired(s, s.pool[0].key).1;
      PopFirst(s.pool);
      EvictStep(s, request);
      ExpireKeeps(s, s.pool[0].key);
      EvictionKeepsOrder(next, request);
      assert Flatten(s.pool) == [Flatten(s.pool)[0]] + Flatten(next.pool);
    }
  }

  /** The listing of a valid pool goes through the keys field by field. */
  lemma {:induction false} ListingFollowsKeys(p: Pool, i: nat, j: nat)
    requires ValidPool(p) && i < j < |Flatten(p)|
    ensures InFieldOrder(Flatten(p)[i].key, Flatten(p)[j].key)
  {
    var m, n := BucketOf(p, i), BucketOf(p, j);
    BucketsInOrder(p, i, j);
    KeysAreInFieldOrder(p[m].key, p[n].key);
  }

  /** The bucket that position `i` of the listing comes from. */
  ghost function BucketOf(p: Pool, i: nat): (b: nat)
    requires Filed(p) && i < |Flatten(p)|
    ensures b < |p| && Flatten(p)[i].key == p[b].key
  {
    if i < |p[0].queue| then 0 else BucketOf(p[1..], i - |p[0].queue|) + 1
  }

  lemma {:induction false} BucketsInOrder(p: Pool, i: nat, j: nat)
    requires Filed(p) && i < j < |Flatten(p)|
    ensures BucketOf(p, i) <= BucketOf(p, j)
  {
    var n := |p[0].queue|;
    if i >= n {
      BucketsInOrder(p[1..], i - n, j - n);
    }
  }

  /** A prefix of the listing and what is left of it follow the keys too. */
  lemma {:induction false} PartsFollowKeys(p: Pool, taken: seq<WarmPoolEntry>, rest: seq<WarmPoolEntry>, i: nat, j: nat)
    requires ValidPool(p) && taken + rest == Flatten(p) && i < |taken|
    ensures i < j < |taken| ==> InFieldOrder(taken[i].key, taken[j].key)
    ensures j < |rest| ==> InFieldOrder(taken[i].key, rest[j].key)
  {
    var all := Flatten(p);
    assert all[i] == taken[i];
    if i < j < |taken| {
      assert all[j] == taken[j];
      ListingFollowsKeys(p, i, j);
    }
    if j < |rest| {
      assert all[|taken| + j] == rest[j];
      ListingFollowsKeys(p, i, |taken| + j);
    }
  }

  /** Entries are given up, in the plan and for real, by repository, then template, then runtime profile,
      and no entry that is kept comes before one that is given up. */
  lemma {:induction false} EvictionFollowsKeys(s: State, request: ResourceBudget, i: nat, j: nat)
    requires Coupled(s)
    ensures AdmissionFor(request, s).evictions == Evicted(s, request).0
    ensures var (evicted, after) := Evicted(s, request);
      i < |evicted| ==>
        && (i < j < |evicted| ==> InFieldOrder(evicted[i].key, evicted[j].key))
        && (j < |Flatten(after.pool)| ==> InFieldOrder(evicted[i].key, Flatten(after.pool)[j].key))
  {
    PlanPredictsExecutor(request, s);
    EvictionIsShortestPrefix(s, request);
    var (evicted, after) := Evicted(s, request);
    if i < |evicted| {
      PartsFollowKeys(s.pool, evicted, Flatten(after.pool), i, j);
    }
  }

  /** What warm entries hold can always be reclaimed, so admission depends on active work alone. */
  lemma {:induction false} AdmittedIffActiveLeavesRoom(request: ResourceBudget, s: State)
    requires Coupled(s)
    ensures AdmissionFor(request, s).error.None? <==> Fits(request, Minus(s.ledger.capacity, s.ledger.active))
  {
    AvailableIsExact(s.ledger);
    PlanIsShortestPrefix(request, s);
    PoolTotalIsFlatCost(s.pool);
    var plan := AdmissionFor(request, s);
    var all := Flatten(s.pool);
    var n := |plan.evictions|;
    assert plan.evictions == all[..n] && all == all[..n] + all[n..];
    CostConcat(all[..n], all[n..]);
    CostNonNegative(all[n..]);
    if n == |all| {
      assert all[..n] == all;
    }
  }

  // ---------- bounded backpressure ----------

  datatype Decision = AdmitNow | Queue | Reject

  datatype Rejection = Oversized(error: CapacityError) | QueueFull(maxPending: nat, pending: nat)

  datatype BackpressurePlan = BackpressurePlan(
    request: ResourceBudget, decision: Decision, evictions: seq<WarmPoolEntry>,
    queuePosition: Option<nat>, rejection: Option<Rejection>)

  function Decide(admission: AdmissionPlan, capacity: ResourceBudget, pending: nat, maxPending: nat): BackpressurePlan {
    var request := admission.request;
    if admission.error.None? then
      BackpressurePlan(request, AdmitNow, admission.evictions, None, None)
    else
      var oversized := Shortfall(request, capacity);
      if oversized.Some? then
        BackpressurePlan(request, Reject, [], None, Some(Oversized(oversized.value)))
      else if pending >= maxPending then
        BackpressurePlan(request, Reject, [], None, Some(QueueFull(maxPending, pending)))
      else
        BackpressurePlan(request, Queue, [], Some(pending + 1), None)
  }

  function BackpressureFor(request: ResourceBudget, s: State, pending: nat, maxPending: nat): BackpressurePlan {
    Decide(AdmissionFor(request, s), s.ledger.capacity, pending, maxPending)
  }

  method PlanBackpressure(request: ResourceBudget, pool: Pool, ledger: Ledger, pending: nat, maxPending: nat)
    returns (plan: BackpressurePlan)
    ensures plan == BackpressureFor(request, State(pool, ledger), pending, maxPending)
  {
    var admission := PlanAdmission(request, pool, ledger);
    plan := Decide(admission, ledger.capacity, pending, maxPending);
  }

  /** Closed form in every coupled state. Warm inventory plays no part in the decision. */
  lemma {:induction false} BackpressureClosedForm(request: ResourceBudget, s: State, pending: nat, maxPending: nat)
    requires Coupled(s)
    ensures var plan := BackpressureFor(request, s, pending, maxPending);
      var now := Fits(request, Minus(s.ledger.capacity, s.ledger.active));
      var ever := Fits(request, s.ledger.capacity);
      && plan.request == request
      && (plan.decision.AdmitNow? <==> now)
      && (plan.decision.Queue? <==> ever && !now && pending < maxPending)
      && (plan.rejection.Some? <==> plan.decision.Reject?)
      && (plan.decision.Reject? && ever ==> plan.rejection == Some(QueueFull(maxPending, pending)))
      && (!ever ==> plan.rejection == Some(Oversized(Shortfall(request, s.ledger.capacity).value)))
      && (plan.queuePosition == if plan.decision.Queue? then Some(pending + 1) else None)
      && (plan.decision.Queue? ==> pending + 1 <= maxPending)
      && plan.evictions == if now then Evicted(s, request).0 else []
  {
    AdmittedIffActiveLeavesRoom(request, s);
    PlanPredictsExecutor(request, s);
  }

  /** A queued request is admitted after any further run that ends with no reservation held. */
  lemma {:induction false} QueuedIsAdmittedOnceIdle(sys: System, request: ResourceBudget, pending: nat, maxPending: nat,
                                                    ops: seq<Op>, pendingLater: nat)
    requires Consistent(sys)
    requires BackpressureFor(request, sys.state, pending, maxPending).decision.Queue?
    requires Run(sys, ops).1.held == []
    ensures BackpressureFor(request, Run(sys, ops).1.state, pendingLater, maxPending).decision.AdmitNow?
  {
    var later := Run(sys, ops).1;
    RunKeeps(sys, ops);
    BackpressureClosedForm(request, sys.state, pending, maxPending);
    BackpressureClosedForm(request, later.state, pendingLater, maxPending);
    assert later.state.ledger.active == ZERO;
  }

  /** Releasing one reservation after another does end with none held. */
  lemma {:induction false} ReleasingAllIsIdle(sys: System, n: nat)
    requires Sorted(sys.state.pool) && Filled(sys.state.pool)
    requires n <= |sys.held|
    ensures Run(sys, seq(n, _ => Release(0))).1.held == sys.held[n..]
  {
    if n > 0 {
      var ops := seq(n, _ => Release(0));
      assert ops[..n - 1] == seq(n - 1, _ => Release(0));
      ReleasingAllIsIdle(sys, n - 1);
      assert Without(sys.held[n - 1..], 0) == sys.held[n..];
    }
  }

  /** An oversized request stays oversized, with the same error, on every later run. */
  lemma {:induction false} OversizedForever(sys: System, request: ResourceBudget, pending: nat, maxPending: nat,
                                            ops: seq<Op>, pendingLater: nat, maxLater: nat)
    requires Consistent(sys)
    requires BackpressureFor(request, sys.state, pending, maxPending).rejection.Some?
    requires BackpressureFor(request, sys.state, pending, maxPending).rejection.value.Oversized?
    ensures BackpressureFor(request, Run(sys, ops).1.state, pendingLater, maxLater).rejection
         == BackpressureFor(request, sys.state, pending, maxPending).rejection
  {
    RunKeeps(sys, ops);
    BackpressureClosedForm(request, sys.state, pending, maxPending);
    BackpressureClosedForm(request, Run(sys, ops).1.state, pendingLater, maxLater);
    TotalNonNegative(Run(sys, ops).1.held);
  }
}
