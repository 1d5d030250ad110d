/** Whole runs of the runtime: restores, checkouts, active requests, replenishment passes and releases
    in any order, with any pattern of failing probes and launches. */
module RuntimeRuns {
  import opened Wrappers
  import opened Budgets
  import opened Keys
  import opened Capacity
  import opened OrderedQueues
  import opened WarmPool
  import opened Replenishment
  import opened ActiveAdmission
  import opened RuntimePool

  datatype Op<!S> =
    | Keep(target: Target, attempt: Attempt<S>)
    | Fetch(key: WarmPoolKey)
    | Request(budget: ResourceBudget, pending: nat, maxPending: nat, pendingThen: nat)
    | Refill(targets: seq<Target>, attempts: nat -> Attempt<S>)
    | GiveBack(slot: nat)

  datatype Reply<S> =
    | KeptReply(kept: Kept<S>)
    | FetchReply(handout: Handout<S>)
    | RequestReply(admission: Admission<S>)
    | RefillReply(report: PassReport)
    | GaveBack

  /** The host with the active reservations its clients hold. */
  datatype Runtime<S> = Runtime(host: Host<S>, held: seq<ResourceBudget>)

  function Start<S>(capacity: ResourceBudget): Runtime<S> {
    Runtime(Host(State([], Empty(capacity)), []), [])
  }

  function Step<S>(r: Runtime<S>, op: Op<S>): (Reply<S>, Runtime<S>) {
    match op
    case Keep(target, attempt) =>
      var (kept, next) := HostMaintain(r.host, target, attempt);
      (KeptReply(kept), r.(host := next))
    case Fetch(key) =>
      var (handout, next) := HostCheckout(r.host, key);
      (FetchReply(handout), Runtime(next, if handout.Handed? then r.held + [handout.reservation] else r.held))
    case Request(budget, pending, maxPending, pendingThen) =>
      var (admission, next) := HostAdmit(r.host, budget, pending, maxPending, pendingThen);
      (RequestReply(admission), Runtime(next, if admission.Admitted? then r.held + [budget] else r.held))
    case Refill(targets, attempts) =>
      var plan := PlanFor(targets, r.host.state);
      var (maintained, failed, next) := Restock(r.host, plan.maintain, attempts);
      (RefillReply(PassReport(maintained, plan.skipped, failed)), r.(host := next))
    case GiveBack(slot) =>
      if slot < |r.held| then
        var s := r.host.state;
        (GaveBack, Runtime(r.host.(state := s.(ledger := ReleasedActive(s.ledger, r.held[slot]))), Without(r.held, slot)))
      else (GaveBack, r)
  }

  function Run<S>(r: Runtime<S>, ops: seq<Op<S>>): (seq<Reply<S>>, Runtime<S>) {
    if ops == [] then ([], r)
    else
      var (replies, last) := Run(r, ops[..|ops| - 1]);
      var (reply, next) := Step(last, ops[|ops| - 1]);
      (replies + [reply], next)
  }

  /** Sessions mirror the pool, pool and ledger are in step, and the active counter is the exact total of
      what clients hold. */
  ghost predicate Orderly<S>(r: Runtime<S>, capacity: ResourceBudget) {
    && InStep(r.host)
    && r.host.state.ledger.capacity == capacity
    && r.host.state.ledger.active == Total(r.held)
  }

  /** The whole reply, read off the runtime `r` the operation met. None of the errors the runtime only guards
      against is among them: a refused promotion, a pool entry without a session, a reservation that fails
      after its own plan, or a replenishment that fails in the ledger. */
  ghost predicate Expectable<S>(r: Runtime<S>, op: Op<S>, reply: Reply<S>) {
    match op
    case Keep(target, attempt) =>
      reply == KeptReply(KeepAnswer(r.host, target, attempt))
    case Fetch(key) =>
      var reports := Lookup(r.host.sessions, key);
      reply == FetchReply(if reports == [] then Handout.Nothing else Handed(reports[0], reports[0].entry.budget))
    case Request(budget, pending, maxPending, pendingThen) =>
      reply.RequestReply? && AnswersRequest(r.host, budget, pending, maxPending, pendingThen, reply.admission)
    case Refill(targets, attempts) =>
      var plan := PlanFor(targets, r.host.state);
      var (maintained, failed) := Expected(plan.maintain, attempts);
      reply == RefillReply(PassReport(maintained, plan.skipped, failed))
    case GiveBack(_) => reply.GaveBack?
  }

  lemma {:induction false} FetchIsOrderly<S>(r: Runtime<S>, key: WarmPoolKey, capacity: ResourceBudget)
    requires Orderly(r, capacity)
    ensures Orderly(Step(r, Fetch(key)).1, capacity) && Expectable(r, Fetch(key), Step(r, Fetch(key)).0)
  {
    HostCheckoutKeeps(r.host, key);
    CheckoutKeeps(r.host.state, key);
    MirrorLookup(r.host.sessions, key);
    var reports := Lookup(r.host.sessions, key);
    if reports != [] {
      TotalSnoc(r.held, reports[0].entry.budget);
    }
  }

  lemma {:induction false} RequestIsOrderly<S>(r: Runtime<S>, budget: ResourceBudget, pending: nat, maxPending: nat, pendingThen: nat,
                                               capacity: ResourceBudget)
    requires Orderly(r, capacity)
    ensures Orderly(Step(r, Request(budget, pending, maxPending, pendingThen)).1, capacity)
    ensures Expectable(r, Request(budget, pending, maxPending, pendingThen), Step(r, Request(budget, pending, maxPending, pendingThen)).0)
  {
    AdmitIsSound(r.host, budget, pending, maxPending, pendingThen);
    AdmitAnswersExactly(r.host, budget, pending, maxPending, pendingThen);
    AdmitKeepsCapacity(r.host, budget, pending, maxPending, pendingThen);
    TotalSnoc(r.held, budget);
  }

  lemma {:induction false} ExpireAllKeepsCapacity<S>(h: Host<S>, entries: seq<WarmPoolEntry>)
    ensures HostExpireAll(h, entries).1.state.ledger.capacity == h.state.ledger.capacity
  {
    if entries != [] {
      ExpireAllKeepsCapacity(h, entries[..|entries| - 1]);
    }
  }

  lemma {:induction false} AdmitKeepsCapacity<S>(h: Host<S>, request: ResourceBudget, pending: nat, maxPending: nat, pendingThen: nat)
    ensures HostAdmit(h, request, pending, maxPending, pendingThen).1.state.ledger.capacity == h.state.ledger.capacity
  {
    ExpireAllKeepsCapacity(h, BackpressureFor(request, h.state, pending, maxPending).evictions);
  }

  lemma {:induction false} RestockKeepsActive<S>(h: Host<S>, targets: seq<Target>, attempts: nat -> Attempt<S>)
    ensures var end := Restock(h, targets, attempts).2;
      end.state.ledger.capacity == h.state.ledger.capacity && end.state.ledger.active == h.state.ledger.active
  {
    if targets != [] {
      RestockKeepsActive(h, targets[..|targets| - 1], attempts);
    }
  }

  lemma {:induction false} GiveBackIsOrderly<S>(r: Runtime<S>, slot: nat, capacity: ResourceBudget)
    requires Orderly(r, capacity)
    ensures Orderly(Step(r, GiveBack(slot)).1, capacity)
  {
    if slot < |r.held| {
      TotalWithout(r.held, slot);
      TotalNonNegative(Without(r.held, slot));
    }
  }

  lemma {:induction false} StepIsOrderly<S>(r: Runtime<S>, op: Op<S>, capacity: ResourceBudget)
    requires Orderly(r, capacity)
    ensures Orderly(Step(r, op).1, capacity) && Expectable(r, op, Step(r, op).0)
  {
    match op
    case Keep(target, attempt) =>
      HostMaintainKeeps(r.host, target, attempt);
      KeepAnswersExactly(r.host, target, attempt, target.key);
    case Fetch(key) =>
      FetchIsOrderly(r, key, capacity);
    case Request(budget, pending, maxPending, pendingThen) =>
      RequestIsOrderly(r, budget, pending, maxPending, pendingThen, capacity);
    case Refill(targets, attempts) =>
      PassFailsOnlyOutside(r.host, targets, attempts);
      RestockKeepsActive(r.host, PlanFor(targets, r.host.state).maintain, attempts);
    case GiveBack(slot) =>
      GiveBackIsOrderly(r, slot, capacity);
  }

  lemma {:induction false} RunSnoc<S>(r: Runtime<S>, ops: seq<Op<S>>, op: Op<S>)
    ensures var (replies, last) := Run(r, ops);
      Run(r, ops + [op]) == (replies + [Step(last, op).0], Step(last, op).1)
  {
    assert (ops + [op])[..|ops|] == ops;
  }

  /** Every reply of the run so far is expectable of the runtime its operation met. */
  ghost predicate AllExpectable<S>(start: Runtime<S>, ops: seq<Op<S>>, replies: seq<Reply<S>>) {
    && |replies| == |ops|
    && forall i :: 0 <= i < |ops| ==> Expectable(Run(start, ops[..i]).1, ops[i], replies[i])
  }

  lemma {:induction false} ExpectableSnoc<S>(start: Runtime<S>, ops: seq<Op<S>>, replies: seq<Reply<S>>, op: Op<S>, reply: Reply<S>)
    requires AllExpectable(start, ops, replies) && Expectable(Run(start, ops).1, op, reply)
    ensures AllExpectable(start, ops + [op], replies + [reply])
  {
    forall i | 0 <= i < |ops| + 1 ensures Expectable(Run(start, (ops + [op])[..i]).1, (ops + [op])[i], (replies + [reply])[i]) {
      assert (ops + [op])[..i] == if i < |ops| then ops[..i] else ops;
    }
  }

  /** A run ends orderly, and every reply on the way was the one its state called for. */
  ghost predicate OrderlyRun<S>(start: Runtime<S>, ops: seq<Op<S>>, capacity: ResourceBudget) {
    var (replies, end) := Run(start, ops);
    Orderly(end, capacity) && AllExpectable(start, ops, replies)
  }

  lemma {:induction false} OrderlySnoc<S>(start: Runtime<S>, ops: seq<Op<S>>, op: Op<S>, capacity: ResourceBudget)
    requires OrderlyRun(start, ops, capacity)
    ensures OrderlyRun(start, ops + [op], capacity)
  {
    var (replies, last) := Run(start, ops);
    StepIsOrderly(last, op, capacity);
    RunSnoc(start, ops, op);
    ExpectableSnoc(start, ops, replies, op, Step(last, op).0);
  }

  lemma {:induction false} RunIsOrderly<S>(start: Runtime<S>, ops: seq<Op<S>>, capacity: ResourceBudget)
    requires Orderly(start, capacity)
    ensures OrderlyRun(start, ops, capacity)
  {
    if ops != [] {
      var n := |ops| - 1;
      RunIsOrderly(start, ops[..n], capacity);
      OrderlySnoc(start, ops[..n], ops[n], capacity);
      assert ops == ops[..n] + [ops[n]];
    }
  }

  /** On every run of the runtime, whatever fails outside: the session map mirrors the pool, nothing is
      over-committed, every reservation is accounted for, and every reply is the one its state calls for. */
  lemma {:induction false} EveryRunIsOrderly<S>(capacity: ResourceBudget, ops: seq<Op<S>>)
    ensures OrderlyRun(Start<S>(capacity), ops, capacity)
  {
    RunIsOrderly(Start<S>(capacity), ops, capacity);
  }
}
