/** The runtime's use of the admission core: restored sessions kept beside the warm pool, a
    replenishment pass with failing launches, and the eviction a new active session causes. */
module RuntimePool {
  import opened Wrappers
  import opened Budgets
  import opened Keys
  import opened Capacity
  import opened OrderedQueues
  import opened WarmPool
  import opened ActiveAdmission
  import opened Replenishment

  /** A restored session with the pool entry recorded for it. */
  datatype Report<S> = Report(session: S, entry: WarmPoolEntry)

  datatype Host<S> = Host(state: State, sessions: Buckets<Report<S>>)

  /** What the outside world does when asked to restore a snapshot. */
  datatype Attempt<S> = DiskPressure(error: CapacityError) | LaunchFailed | Restored(session: S)

  datatype Kept<S> = Kept(report: Report<S>) | CapacityFailure(error: CapacityError) | LaunchFailure

  datatype Handout<S> =
    | Nothing
    | Handed(report: Report<S>, reservation: ResourceBudget)
    | NotPromoted(error: CapacityError)
    | MissingRetainedSession

  // ---------- what each operation does, on values, in every state ----------

  function HostMaintain<S>(h: Host<S>, target: Target, attempt: Attempt<S>): (Kept<S>, Host<S>) {
    match attempt
    case DiskPressure(error) => (CapacityFailure(error), h)
    case LaunchFailed => (LaunchFailure, h)
    case Restored(session) =>
      var entry := EntryFor(target);
      var (error, next) := Maintained(h.state, entry);
      if error.Some? then (CapacityFailure(error.value), h.(state := next))
      else (Kept.Kept(Report(session, entry)), Host(next, PushBack(h.sessions, target.key, Report(session, entry))))
  }

  function HostCheckout<S>(h: Host<S>, key: WarmPoolKey): (Handout<S>, Host<S>) {
    var (result, next) := CheckedOut(h.state, key);
    if result.Refused? then (NotPromoted(result.error), h.(state := next))
    else if result.entry.None? then (Nothing, h.(state := next))
    else
      var budget := result.entry.value.budget;
      var reports := Lookup(h.sessions, key);
      if reports == [] then
        (MissingRetainedSession, Host(next.(ledger := ReleasedActive(next.ledger, budget)), Remove(h.sessions, key)))
      else
        (Handed(reports[0], budget), Host(next, Store(h.sessions, key, reports[1..])))
  }

  /** Expires one entry and drops the session kept for it. */
  function HostExpire<S>(h: Host<S>, key: WarmPoolKey): (seq<S>, Host<S>) {
    var (entry, next) := Expired(h.state, key);
    if entry.None? then ([], h.(state := next))
    else
      var reports := Lookup(h.sessions, key);
      if reports == [] then ([], Host(next, Remove(h.sessions, key)))
      else ([reports[0].session], Host(next, Store(h.sessions, key, reports[1..])))
  }

  function HostExpireAll<S>(h: Host<S>, entries: seq<WarmPoolEntry>): (seq<S>, Host<S>)
    decreases |entries|
  {
    if entries == [] then ([], h)
    else
      var (sessions, last) := HostExpireAll(h, entries[..|entries| - 1]);
      var (more, next) := HostExpire(last, entries[|entries| - 1].key);
      (sessions + more, next)
  }

  // ---------- the session map mirrors the pool ----------

  function EntriesOf<S>(reports: seq<Report<S>>): seq<WarmPoolEntry> {
    seq(|reports|, i requires 0 <= i < |reports| => reports[i].entry)
  }

  /** The pool as the session map records it: forget the sessions, keep keys and order. */
  function Mirror<S>(m: Buckets<Report<S>>): Pool {
    seq(|m|, i requires 0 <= i < |m| => Bucket(m[i].key, EntriesOf(m[i].queue)))
  }

  ghost predicate InStep<S>(h: Host<S>) {
    Coupled(h.state) && h.state.pool == Mirror(h.sessions)
  }

  lemma {:induction false} MirrorLookup<S>(m: Buckets<Report<S>>, k: WarmPoolKey)
    ensures Lookup(Mirror(m), k) == EntriesOf(Lookup(m, k))
    ensures Get(m, k).None? <==> Get(Mirror(m), k).None?
  {
    if m != [] && m[0].key != k {
      assert Mirror(m)[1..] == Mirror(m[1..]);
      MirrorLookup(m[1..], k);
    }
  }

  lemma {:induction false} MirrorPut<S>(m: Buckets<Report<S>>, k: WarmPoolKey, q: seq<Report<S>>)
    ensures Mirror(Put(m, k, q)) == Put(Mirror(m), k, EntriesOf(q))
  {
    if m == [] || KeyLess(k, m[0].key) || m[0].key == k {
    } else {
      assert Mirror(m)[1..] == Mirror(m[1..]);
      MirrorPut(m[1..], k, q);
    }
  }

  lemma {:induction false} MirrorRemove<S>(m: Buckets<Report<S>>, k: WarmPoolKey)
    ensures Mirror(Remove(m, k)) == Remove(Mirror(m), k)
  {
    if m != [] {
      assert Mirror(m)[1..] == Mirror(m[1..]);
      if m[0].key != k {
        MirrorRemove(m[1..], k);
      }
    }
  }

  lemma {:induction false} MirrorStore<S>(m: Buckets<Report<S>>, k: WarmPoolKey, q: seq<Report<S>>)
    ensures Mirror(Store(m, k, q)) == Store(Mirror(m), k, EntriesOf(q))
  {
    MirrorPut(m, k, q);
    MirrorRemove(m, k);
  }

  lemma {:induction false} MirrorFlatten<S>(m: Buckets<Report<S>>)
    ensures EntriesOf(Flatten(m)) == Flatten(Mirror(m))
  {
    if m != [] {
      assert Mirror(m)[1..] == Mirror(m[1..]);
      MirrorFlatten(m[1..]);
      assert EntriesOf(m[0].queue + Flatten(m[1..])) == EntriesOf(m[0].queue) + EntriesOf(Flatten(m[1..]));
    }
  }

  // ---------- maintain and checkout ----------

  /** A restored session is kept exactly when its budget fits, and the map stays a mirror. */
  lemma {:induction false} HostMaintainKeeps<S>(h: Host<S>, target: Target, attempt: Attempt<S>)
    requires InStep(h)
    ensures InStep(HostMaintain(h, target, attempt).1)
    ensures HostMaintain(h, target, attempt).0.Kept? <==>
              attempt.Restored? && Fits(target.budget, Available(h.state.ledger))
    ensures !HostMaintain(h, target, attempt).0.Kept? ==> HostMaintain(h, target, attempt).1 == h
  {
    if attempt.Restored? {
      var entry, report := EntryFor(target), Report(attempt.session, EntryFor(target));
      MaintainKeeps(h.state, entry);
      MirrorLookup(h.sessions, target.key);
      var queue := Lookup(h.sessions, target.key);
      MirrorPut(h.sessions, target.key, queue + [report]);
      assert EntriesOf(queue + [report]) == EntriesOf(queue) + [entry];
    }
  }

  /** A checkout hands out the oldest kept session with its own entry, or nothing when the key is
      cold. It never loses a session, and never fails. */
  lemma {:induction false} HostCheckoutKeeps<S>(h: Host<S>, key: WarmPoolKey)
    requires InStep(h)
    ensures InStep(HostCheckout(h, key).1)
    ensures Lookup(h.sessions, key) == [] ==> HostCheckout(h, key) == (Nothing, h)
    ensures Lookup(h.sessions, key) != [] ==>
      var report := Lookup(h.sessions, key)[0];
      && HostCheckout(h, key).0 == Handed(report, report.entry.budget)
      && PopFront(h.state.pool, key).0 == Some(report.entry)
      && HostCheckout(h, key).1.sessions == PopFront(h.sessions, key).1
  {
    CheckoutKeeps(h.state, key);
    MirrorLookup(h.sessions, key);
    var reports := Lookup(h.sessions, key);
    if reports != [] {
      MirrorStore(h.sessions, key, reports[1..]);
      assert EntriesOf(reports[1..]) == EntriesOf(reports)[1..];
    }
  }

  /** Outside the mirror: a checkout that finds the pool entry but no session gives the promoted budget
      back, so only the warm reservation is spent. */
  lemma {:induction false} MissingSessionGivesBack<S>(h: Host<S>, key: WarmPoolKey)
    requires Coupled(h.state) && Lookup(h.state.pool, key) != [] && Lookup(h.sessions, key) == []
    ensures var (handout, next) := HostCheckout(h, key);
      var budget := Lookup(h.state.pool, key)[0].budget;
      && handout == MissingRetainedSession
      && next.state.pool == PopFront(h.state.pool, key).1
      && next.state.ledger == Ledger(h.state.ledger.capacity, h.state.ledger.active, Minus(h.state.ledger.warmPool, budget))
  {
    CheckoutKeeps(h.state, key);
  }

  // ---------- a replenishment pass with failing launches ----------

  datatype Failure = Failure(key: WarmPoolKey, error: Option<CapacityError>)

  datatype PassReport = PassReport(maintained: seq<WarmPoolKey>, skipped: seq<Skip>, failed: seq<Failure>)

  /** Restores planned targets in order; `attempts(i)` is what happens to the i-th. */
  function Restock<S>(h: Host<S>, targets: seq<Target>, attempts: nat -> Attempt<S>)
    : (seq<WarmPoolKey>, seq<Failure>, Host<S>)
    decreases |targets|
  {
    if targets == [] then ([], [], h)
    else
      var n := |targets| - 1;
      var (maintained, failed, last) := Restock(h, targets[..n], attempts);
      var (kept, next) := HostMaintain(last, targets[n], attempts(n));
      match kept
      case Kept(report) => (maintained + [report.entry.key], failed, next)
      case CapacityFailure(error) => (maintained, failed + [Failure(targets[n].key, Some(error))], next)
      case LaunchFailure => (maintained, failed + [Failure(targets[n].key, None)], next)
  }

  /** The outcome the attempts alone would give: every restored session is kept. */
  function Expected<S>(targets: seq<Target>, attempts: nat -> Attempt<S>): (seq<WarmPoolKey>, seq<Failure>)
    decreases |targets|
  {
    if targets == [] then ([], [])
    else
      var n := |targets| - 1;
      var (maintained, failed) := Expected(targets[..n], attempts);
      match attempts(n)
      case Restored(_) => (maintained + [targets[n].key], failed)
      case DiskPressure(error) => (maintained, failed + [Failure(targets[n].key, Some(error))])
      case LaunchFailed => (maintained, failed + [Failure(targets[n].key, None)])
  }

  /** The ledger after some targets holds at least what paying for all of them would leave. */
  ghost predicate Covered<S>(h: Host<S>, targets: seq<Target>, last: Host<S>) {
    && InStep(last)
    && Fits(Available(h.state.ledger), Plus(Available(last.state.ledger), Spend(targets)))
  }

  lemma {:induction false} HostMaintainTakesRoom<S>(h: Host<S>, target: Target, attempt: Attempt<S>)
    requires InStep(h) && Fits(target.budget, Available(h.state.ledger))
    ensures Fits(Available(h.state.ledger),
                 Plus(Available(HostMaintain(h, target, attempt).1.state.ledger), target.budget))
  {
    if attempt.Restored? {
      MaintainTakesRoom(h.state, EntryFor(target));
    }
  }

  lemma {:induction false} CoveredNext<S>(h: Host<S>, targets: seq<Target>, last: Host<S>, target: Target, attempt: Attempt<S>)
    requires Covered(h, targets, last) && Fits(Spend(targets + [target]), Available(h.state.ledger))
    ensures HostMaintain(last, target, attempt).0.Kept? <==> attempt.Restored?
    ensures Covered(h, targets + [target], HostMaintain(last, target, attempt).1)
  {
    SpendSnoc(targets, target);
    HostMaintainKeeps(last, target, attempt);
    HostMaintainTakesRoom(last, target, attempt);
  }

  lemma {:induction false} RestockSnoc<S>(h: Host<S>, targets: seq<Target>, target: Target, attempts: nat -> Attempt<S>)
    ensures var (maintained, failed, last) := Restock(h, targets, attempts);
      var (kept, next) := HostMaintain(last, target, attempts(|targets|));
      Restock(h, targets + [target], attempts)
        == match kept {
             case Kept(report) => (maintained + [report.entry.key], failed, next)
             case CapacityFailure(error) => (maintained, failed + [Failure(target.key, Some(error))], next)
             case LaunchFailure => (maintained, failed + [Failure(target.key, None)], next)
           }
  {
    assert (targets + [target])[..|targets|] == targets;
  }

  lemma {:induction false} ExpectedSnoc<S>(targets: seq<Target>, target: Target, attempts: nat -> Attempt<S>)
    ensures var (maintained, failed) := Expected(targets, attempts);
      Expected(targets + [target], attempts)
        == match attempts(|targets|) {
             case Restored(_) => (maintained + [target.key], failed)
             case DiskPressure(error) => (maintained, failed + [Failure(target.key, Some(error))])
             case LaunchFailed => (maintained, failed + [Failure(target.key, None)])
           }
  {
    assert (targets + [target])[..|targets|] == targets;
  }

  /** Whatever fails outside, the ledger refuses nothing that fits in total. */
  lemma {:induction false} RestockFollowsAttempts<S>(h: Host<S>, targets: seq<Target>, attempts: nat -> Attempt<S>)
    requires InStep(h) && Fits(Spend(targets), Available(h.state.ledger))
    ensures Covered(h, targets, Restock(h, targets, attempts).2)
    ensures (Restock(h, targets, attempts).0, Restock(h, targets, attempts).1) == Expected(targets, attempts)
  {
    if targets != [] {
      var earlier, target := targets[..|targets| - 1], targets[|targets| - 1];
      assert targets == earlier + [target];
      SpendPrefix(targets);
      RestockFollowsAttempts(h, earlier, attempts);
      CoveredNext(h, earlier, Restock(h, earlier, attempts).2, target, attempts(|earlier|));
      RestockSnoc(h, earlier, target, attempts);
      ExpectedSnoc(earlier, target, attempts);
    }
  }

  /** A whole pass: a failure is always the probe's or the launcher's, never the ledger's. */
  lemma {:induction false} PassFailsOnlyOutside<S>(h: Host<S>, targets: seq<Target>, attempts: nat -> Attempt<S>)
    requires InStep(h)
    ensures var planned := PlanFor(targets, h.state).maintain;
      var (maintained, failed, end) := Restock(h, planned, attempts);
      (maintained, failed) == Expected(planned, attempts) && InStep(end)
  {
    PlannedIsExact(targets, h.state);
    RestockFollowsAttempts(h, PlanFor(targets, h.state).maintain, attempts);
  }

  // ---------- evicting for an active session ----------

  lemma {:induction false} HostExpireKeeps<S>(h: Host<S>, key: WarmPoolKey)
    requires InStep(h) && Lookup(h.sessions, key) != []
    ensures HostExpire(h, key).0 == [Lookup(h.sessions, key)[0].session]
    ensures HostExpire(h, key).1 == Host(Expired(h.state, key).1, PopFront(h.sessions, key).1)
    ensures InStep(HostExpire(h, key).1)
  {
    ExpireKeeps(h.state, key);
    MirrorLookup(h.sessions, key);
    var reports := Lookup(h.sessions, key);
    MirrorStore(h.sessions, key, reports[1..]);
    assert EntriesOf(reports[1..]) == EntriesOf(reports)[1..];
  }

  function SessionsOf<S>(reports: seq<Report<S>>): seq<S> {
    seq(|reports|, i requires 0 <= i < |reports| => reports[i].session)
  }

  /** `end` is `h` with the first `n` entries of the flattened pool, and the sessions kept for them, gone. */
  ghost predicate Replayed<S>(h: Host<S>, n: nat, dropped: seq<S>, end: Host<S>) {
    && n <= |Flatten(h.state.pool)| == |Flatten(h.sessions)|
    && dropped == SessionsOf(Flatten(h.sessions)[..n])
    && InStep(end)
    && Flatten(end.state.pool) == Flatten(h.state.pool)[n..]
    && Flatten(end.sessions) == Flatten(h.sessions)[n..]
    && end.state.ledger.capacity == h.state.ledger.capacity
    && end.state.ledger.active == h.state.ledger.active
  }

  lemma {:induction false} ReplayNext<S>(h: Host<S>, n: nat, dropped: seq<S>, last: Host<S>)
    requires Replayed(h, n, dropped, last) && n < |Flatten(h.state.pool)|
    ensures var (more, next) := HostExpire(last, Flatten(h.state.pool)[n].key);
      Replayed(h, n + 1, dropped + more, next)
  {
    var all, kept := Flatten(h.state.pool), Flatten(h.sessions);
    ReplayOne(last);
    assert all[n..][0] == all[n] && all[n..][1..] == all[n + 1..];
    assert kept[n..][0] == kept[n] && kept[n..][1..] == kept[n + 1..];
    assert SessionsOf(kept[..n + 1]) == SessionsOf(kept[..n]) + [kept[n].session];
  }

  /** Replaying a prefix of the flattened pool, key by key, expires exactly that prefix and drops
      exactly the sessions kept for it, in order. */
  lemma {:induction false} ReplayTakesPrefix<S>(h: Host<S>, n: nat)
    requires InStep(h) && n <= |Flatten(h.state.pool)|
    ensures var (dropped, end) := HostExpireAll(h, Flatten(h.state.pool)[..n]);
      Replayed(h, n, dropped, end)
  {
    var all := Flatten(h.state.pool);
    if n == 0 {
      MirrorFlatten(h.sessions);
      assert |EntriesOf(Flatten(h.sessions))| == |Flatten(h.sessions)|;
    } else {
      ReplayTakesPrefix(h, n - 1);
      assert all[..n][..n - 1] == all[..n - 1];
      var (dropped, last) := HostExpireAll(h, all[..n - 1]);
      ReplayNext(h, n - 1, dropped, last);
    }
  }

  lemma {:induction false} ReplayOne<S>(h: Host<S>)
    requires InStep(h) && Flatten(h.state.pool) != []
    ensures Flatten(h.sessions) != []
    ensures var (dropped, next) := HostExpire(h, Flatten(h.state.pool)[0].key);
      && dropped == [Flatten(h.sessions)[0].session]
      && InStep(next)
      && Flatten(next.state.pool) == Flatten(h.state.pool)[1..]
      && Flatten(next.sessions) == Flatten(h.sessions)[1..]
      && next.state.ledger.capacity == h.state.ledger.capacity
      && next.state.ledger.active == h.state.ledger.active
  {
    var pool, m := h.state.pool, h.sessions;
    assert pool[0].key == m[0].key && pool[0].queue == EntriesOf(m[0].queue);
    assert Flatten(pool)[0] == pool[0].queue[0];
    PopFirst(pool);
    MirrorSortedFilled(m);
    PopFirst(m);
    HostExpireKeeps(h, m[0].key);
    ExpireKeeps(h.state, m[0].key);
  }

  lemma {:induction false} MirrorSortedFilled<S>(m: Buckets<Report<S>>)
    requires Sorted(Mirror(m)) && Filled(Mirror(m))
    ensures Sorted(m) && Filled(m)
  {
    forall i, j | 0 <= i < j < |m| ensures KeyLess(m[i].key, m[j].key) {
      assert KeyLess(Mirror(m)[i].key, Mirror(m)[j].key);
    }
    forall i | 0 <= i < |m| ensures m[i].queue != [] {
      assert Mirror(m)[i].queue != [];
    }
  }

  /** Replaying the evictions the planner listed is the executor's eviction. */
  lemma {:induction false} ReplayIsEviction<S>(h: Host<S>, request: ResourceBudget)
    requires InStep(h)
    ensures var evictions := AdmissionFor(request, h.state).evictions;
      var (dropped, end) := HostExpireAll(h, evictions);
      && |evictions| <= |Flatten(h.sessions)|
      && dropped == SessionsOf(Flatten(h.sessions)[..|evictions|])
      && InStep(end)
      && end.state == Evicted(h.state, request).1
  {
    var (evicted, after) := Evicted(h.state, request);
    PlanPredictsExecutor(request, h.state);
    EvictionIsShortestPrefix(h.state, request);
    EvictKeeps(h.state, request);
    var n, all := |evicted|, Flatten(h.state.pool);
    assert evicted == all[..n] && Flatten(after.pool) == all[n..];
    ReplayTakesPrefix(h, n);
    FlattenDetermines(HostExpireAll(h, all[..n]).1.state.pool, after.pool);
  }

  datatype Admission<S> =
    | Admitted(dropped: seq<S>)
    | MustWait
    | TurnedAway(rejection: Option<Rejection>)
    | ReserveFailed(error: CapacityError)

  /** One pass of the admission loop, from planning to reservation, under the runtime's lock. A request
      that may wait takes a place in the queue; `pendingThen` is how many wait at that moment, which may
      differ from the `pending` the plan was made with. */
  function HostAdmit<S>(h: Host<S>, request: ResourceBudget, pending: nat, maxPending: nat, pendingThen: nat)
    : (Admission<S>, Host<S>)
  {
    var plan := BackpressureFor(request, h.state, pending, maxPending);
    match plan.decision
    case AdmitNow =>
      var (dropped, next) := HostExpireAll(h, plan.evictions);
      var (error, ledger) := ReservedActive(next.state.ledger, request);
      (if error.Some? then ReserveFailed(error.value) else Admitted(dropped),
       next.(state := next.state.(ledger := ledger)))
    case Queue => (if pendingThen >= maxPending then TurnedAway(Some(QueueFull(maxPending, pending))) else MustWait, h)
    case Reject => (TurnedAway(plan.rejection), h)
  }

  /** A request waits exactly when it fits capacity but not what active work leaves, and the queue had
      room both when planned and when entered. The queue only shrinks in between, since places are taken
      under the same lock, and then the second look never refuses. */
  lemma {:induction false} WaitsIff<S>(h: Host<S>, request: ResourceBudget, pending: nat, maxPending: nat, pendingThen: nat)
    requires InStep(h)
    ensures var outcome := HostAdmit(h, request, pending, maxPending, pendingThen).0;
      var possible := Fits(request, h.state.ledger.capacity) && !Fits(request, Minus(h.state.ledger.capacity, h.state.ledger.active));
      && (outcome.MustWait? <==> possible && pending < maxPending && pendingThen < maxPending)
      && (possible && !outcome.MustWait? ==> outcome == TurnedAway(Some(QueueFull(maxPending, pending))))
      && (possible && pending < maxPending && pendingThen <= pending ==> outcome.MustWait?)
  {
    BackpressureClosedForm(request, h.state, pending, maxPending);
  }

  /** A request is admitted exactly when active work leaves room for it. It then costs the shortest
      prefix of kept sessions, the reservation never fails, and the session map stays a mirror.
      A request that is not admitted changes nothing. */
  lemma {:induction false} AdmitIsSound<S>(h: Host<S>, request: ResourceBudget, pending: nat, maxPending: nat, pendingThen: nat)
    requires InStep(h)
    ensures var (outcome, end) := HostAdmit(h, request, pending, maxPending, pendingThen);
      && (outcome.Admitted? <==> Fits(request, Minus(h.state.ledger.capacity, h.state.ledger.active)))
      && !outcome.ReserveFailed?
      && InStep(end)
      && (!outcome.Admitted? ==> end == h)
      && (outcome.Admitted? ==>
            var (evicted, after) := Evicted(h.state, request);
            && |evicted| <= |Flatten(h.sessions)|
            && outcome.dropped == SessionsOf(Flatten(h.sessions)[..|evicted|])
            && end.state.pool == after.pool
            && end.state.ledger.active == Plus(h.state.ledger.active, request))
  {
    BackpressureClosedForm(request, h.state, pending, maxPending);
    PlanPredictsExecutor(request, h.state);
    ReplayIsEviction(h, request);
    var after := Evicted(h.state, request).1;
    EvictKeeps(h.state, request);
    ReserveIsExact(after.ledger, request);
  }

  /** The answer to a request, read off what it met: the sessions of the shortest prefix of kept entries
      that makes room; the shortage against capacity for a request that can never fit; a full queue, with
      the numbers the plan saw; or the order to wait. */
  ghost predicate AnswersRequest<S>(h: Host<S>, request: ResourceBudget, pending: nat, maxPending: nat, pendingThen: nat,
                                    outcome: Admission<S>)
  {
    var l := h.state.ledger;
    if Fits(request, Minus(l.capacity, l.active)) then
      exists n: nat :: n <= |Flatten(h.sessions)| && outcome == Admitted(SessionsOf(Flatten(h.sessions)[..n]))
        && ShortestPrefix(request, Minus(l.capacity, Plus(l.active, l.warmPool)), EntriesOf(Flatten(h.sessions)), n)
    else if !Fits(request, l.capacity) then
      outcome == TurnedAway(Some(Oversized(Shortfall(request, l.capacity).value)))
    else if pending >= maxPending || pendingThen >= maxPending then
      outcome == TurnedAway(Some(QueueFull(maxPending, pending)))
    else outcome == MustWait
  }

  /** Every answer of the admission pass is that one. */
  lemma {:induction false} AdmitAnswersExactly<S>(h: Host<S>, request: ResourceBudget, pending: nat, maxPending: nat, pendingThen: nat)
    requires InStep(h)
    ensures AnswersRequest(h, request, pending, maxPending, pendingThen, HostAdmit(h, request, pending, maxPending, pendingThen).0)
  {
    WaitsIff(h, request, pending, maxPending, pendingThen);
    if Fits(request, Minus(h.state.ledger.capacity, h.state.ledger.active)) {
      AdmitIsSound(h, request, pending, maxPending, pendingThen);
      EvictionIsShortestPrefix(h.state, request);
      AvailableIsExact(h.state.ledger);
      MirrorFlatten(h.sessions);
      var n := |Evicted(h.state, request).0|;
      assert HostAdmit(h, request, pending, maxPending, pendingThen).0 == Admitted(SessionsOf(Flatten(h.sessions)[..n]));
    } else {
      BackpressureClosedForm(request, h.state, pending, maxPending);
    }
  }

  /** What keeping a session answers, read off what it met: the new report with the target's own key,
      manifest id and budget, the outside's failure, or the first shortage against what is available. */
  function KeepAnswer<S>(h: Host<S>, target: Target, attempt: Attempt<S>): Kept<S> {
    match attempt
    case DiskPressure(error) => CapacityFailure(error)
    case LaunchFailed => LaunchFailure
    case Restored(session) =>
      var l := h.state.ledger;
      var shortage := Shortfall(target.budget, Minus(l.capacity, Plus(l.active, l.warmPool)));
      if shortage.Some? then CapacityFailure(shortage.value)
      else Kept.Kept(Report(session, WarmPoolEntry(target.key, target.manifest.logicalId, target.budget)))
  }

  /** Keeping a session answers that, and a kept report goes to the back of its own key and nowhere else. */
  lemma {:induction false} KeepAnswersExactly<S>(h: Host<S>, target: Target, attempt: Attempt<S>, k: WarmPoolKey)
    requires InStep(h)
    ensures HostMaintain(h, target, attempt).0 == KeepAnswer(h, target, attempt)
    ensures var (kept, next) := HostMaintain(h, target, attempt);
      Lookup(next.sessions, k) == Lookup(h.sessions, k) + if kept.Kept? && k == target.key then [kept.report] else []
  {
    AvailableIsExact(h.state.ledger);
    if attempt.Restored? {
      MirrorSortedFilled(h.sessions);
      StoreLaws(h.sessions, target.key, Lookup(h.sessions, target.key) + [Report(attempt.session, EntryFor(target))]);
    }
    assert Lookup(h.sessions, k) + [] == Lookup(h.sessions, k);
  }

  // ---------- the runtime's own objects ----------

  lemma {:induction false} RemoveAbsent<T>(m: Buckets<T>, k: WarmPoolKey)
    requires Get(m, k).None?
    ensures Remove(m, k) == m
  {
    if m != [] {
      RemoveAbsent(m[1..], k);
    }
  }

  /** The snapshot warm pool with its retained sessions. */
  class SnapshotWarmPool<S> {
    const capacity: CapacityLedger
    const ledger: WarmPoolLedger
    var sessions: Buckets<Report<S>>

    constructor (capacity: CapacityLedger)
      ensures this.capacity == capacity && fresh(ledger)
      ensures Value() == Host(State([], capacity.Value()), [])
    {
      this.capacity := capacity;
      ledger := new WarmPoolLedger();
      sessions := [];
    }

    function Value(): Host<S>
      reads this, capacity, ledger
    {
      Host(State(ledger.entries, capacity.Value()), sessions)
    }

    method Maintain(target: Target, attempt: Attempt<S>) returns (kept: Kept<S>)
      modifies this, capacity, ledger
      ensures (kept, Value()) == HostMaintain(old(Value()), target, attempt)
    {
      match attempt
      case DiskPressure(error) =>
        kept := CapacityFailure(error);
      case LaunchFailed =>
        kept := LaunchFailure;
      case Restored(session) =>
        var entry := EntryFor(target);
        var error := ledger.Maintain(entry, capacity);
        if error.Some? {
          return CapacityFailure(error.value);
        }
        sessions := PushBack(sessions, target.key, Report(session, entry));
        kept := Kept.Kept(Report(session, entry));
    }

    method Checkout(key: WarmPoolKey) returns (handout: Handout<S>)
      modifies this, capacity, ledger
      ensures (handout, Value()) == HostCheckout(old(Value()), key)
    {
      var result := ledger.Checkout(key, capacity);
      if result.Refused? {
        return NotPromoted(result.error);
      }
      if result.entry.None? {
        return Nothing;
      }
      var budget := result.entry.value.budget;
      var reports := Get(sessions, key);
      if reports.None? {
        RemoveAbsent(sessions, key);
        capacity.ReleaseActive(budget);
        return MissingRetainedSession;
      }
      if reports.value == [] {
        sessions := Remove(sessions, key);
        capacity.ReleaseActive(budget);
        return MissingRetainedSession;
      }
      sessions := Store(sessions, key, reports.value[1..]);
      handout := Handed(reports.value[0], budget);
    }

    method Replenish(targets: seq<Target>, attempts: nat -> Attempt<S>) returns (report: PassReport)
      modifies this, capacity, ledger
      ensures var plan := old(PlanFor(targets, Value().state));
        var (maintained, failed, end) := Restock(old(Value()), plan.maintain, attempts);
        report == PassReport(maintained, plan.skipped, failed) && Value() == end
    {
      var plan := PlanReplenishment(targets, ledger, capacity.Value());
      var maintained: seq<WarmPoolKey>, failed: seq<Failure> := [], [];
      for i := 0 to |plan.maintain|
        invariant (maintained, failed, Value()) == Restock(old(Value()), plan.maintain[..i], attempts)
      {
        assert plan.maintain[..i + 1][..i] == plan.maintain[..i];
        var kept := Maintain(plan.maintain[i], attempts(i));
        match kept
        case Kept(entry) => maintained := maintained + [entry.entry.key];
        case CapacityFailure(error) => failed := failed + [Failure(plan.maintain[i].key, Some(error))];
        case LaunchFailure => failed := failed + [Failure(plan.maintain[i].key, None)];
      }
      assert plan.maintain[..|plan.maintain|] == plan.maintain;
      report := PassReport(maintained, plan.skipped, failed);
    }
  }

  /** The runtime adapter's state: the same three parts, with the operations of its admission loop. */
  class AdapterState<S> {
    const capacity: CapacityLedger
    const ledger: WarmPoolLedger
    var sessions: Buckets<Report<S>>

    constructor (capacity: CapacityLedger)
      ensures this.capacity == capacity && fresh(ledger)
      ensures Value() == Host(State([], capacity.Value()), [])
    {
      this.capacity := capacity;
      ledger := new WarmPoolLedger();
      sessions := [];
    }

    function Value(): Host<S>
      reads this, capacity, ledger
    {
      Host(State(ledger.entries, capacity.Value()), sessions)
    }

    /** Expires the pool entry of `key` and takes the session kept for it, if there is one. */
    method Drop(key: WarmPoolKey) returns (dropped: seq<S>)
      modifies this, capacity, ledger
      ensures (dropped, Value()) == HostExpire(old(Value()), key)
    {
      var entry := ledger.Expire(key, capacity);
      if entry.None? {
        return [];
      }
      var reports := Get(sessions, key);
      if reports.None? {
        RemoveAbsent(sessions, key);
        return [];
      }
      if reports.value == [] {
        sessions := Remove(sessions, key);
        return [];
      }
      dropped := [reports.value[0].session];
      sessions := Store(sessions, key, reports.value[1..]);
    }

    method DropAll(evictions: seq<WarmPoolEntry>) returns (dropped: seq<S>)
      modifies this, capacity, ledger
      ensures (dropped, Value()) == HostExpireAll(old(Value()), evictions)
    {
      dropped := [];
      for i := 0 to |evictions|
        invariant (dropped, Value()) == HostExpireAll(old(Value()), evictions[..i])
      {
        assert evictions[..i + 1][..i] == evictions[..i];
        var more := Drop(evictions[i].key);
        dropped := dropped + more;
      }
      assert evictions[..|evictions|] == evictions;
    }

    method Admit(request: ResourceBudget, pending: nat, maxPending: nat, pendingThen: nat) returns (outcome: Admission<S>)
      modifies this, capacity, ledger
      ensures (outcome, Value()) == HostAdmit(old(Value()), request, pending, maxPending, pendingThen)
    {
      var plan := PlanBackpressure(request, ledger.entries, capacity.Value(), pending, maxPending);
      match plan.decision
      case AdmitNow =>
        var dropped := DropAll(plan.evictions);
        var error := capacity.ReserveActive(request);
        if error.Some? {
          return ReserveFailed(error.value);
        }
        outcome := Admitted(dropped);
      case Queue =>
        if pendingThen >= maxPending {
          return TurnedAway(Some(QueueFull(maxPending, pending)));
        }
        outcome := MustWait;
      case Reject =>
        outcome := TurnedAway(plan.rejection);
    }
  }
}
