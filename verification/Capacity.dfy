/** The single-node capacity ledger: its value, the transitions on that value, and the mutable
    ledger whose methods carry them out. */
module Capacity {
  import opened Wrappers
  import opened Budgets

  /** A copy of the ledger; planners receive it by value. */
  datatype Ledger = Ledger(capacity: ResourceBudget, active: ResourceBudget, warmPool: ResourceBudget)

  function Empty(capacity: ResourceBudget): Ledger {
    Ledger(capacity, ZERO, ZERO)
  }

  function Used(l: Ledger): ResourceBudget {
    Add(l.active, l.warmPool)
  }

  function Available(l: Ledger): ResourceBudget {
    Sub(l.capacity, Used(l))
  }

  function ReservedActive(l: Ledger, request: ResourceBudget): (Option<CapacityError>, Ledger) {
    var error := Shortfall(request, Available(l));
    (error, if error.None? then l.(active := Add(l.active, request)) else l)
  }

  function ReservedWarm(l: Ledger, request: ResourceBudget): (Option<CapacityError>, Ledger) {
    var error := Shortfall(request, Available(l));
    (error, if error.None? then l.(warmPool := Add(l.warmPool, request)) else l)
  }

  function ReleasedActive(l: Ledger, budget: ResourceBudget): Ledger {
    l.(active := Sub(l.active, budget))
  }

  function ReleasedWarm(l: Ledger, budget: ResourceBudget): Ledger {
    l.(warmPool := Sub(l.warmPool, budget))
  }

  function Promoted(l: Ledger, budget: ResourceBudget): (Option<CapacityError>, Ledger) {
    var error := Shortfall(budget, l.warmPool);
    (error, if error.None? then l.(warmPool := Sub(l.warmPool, budget), active := Add(l.active, budget)) else l)
  }

  /** Nothing is over-committed: the exact sum of both reservations is within capacity. */
  ghost predicate Solvent(l: Ledger) {
    Fits(Plus(l.active, l.warmPool), l.capacity)
  }

  /** In a solvent ledger availability is the exact difference: neither the inner sum nor the
      outer difference saturates. */
  lemma AvailableIsExact(l: Ledger)
    requires Solvent(l)
    ensures InRange(Plus(l.active, l.warmPool))
    ensures Used(l) == Plus(l.active, l.warmPool)
    ensures Available(l) == Minus(l.capacity, Plus(l.active, l.warmPool))
  {
  }

  /** A reservation is admitted exactly when the ledger stays solvent, and then it is exact. */
  lemma {:induction false} ReserveIsExact(l: Ledger, request: ResourceBudget)
    requires Solvent(l)
    ensures ReservedActive(l, request).0.None? <==> Fits(Plus(Plus(l.active, request), l.warmPool), l.capacity)
    ensures ReservedActive(l, request).0.None? ==>
              ReservedActive(l, request).1 == Ledger(l.capacity, Plus(l.active, request), l.warmPool)
    ensures ReservedWarm(l, request).0.None? <==> Fits(Plus(Plus(l.active, request), l.warmPool), l.capacity)
    ensures ReservedWarm(l, request).0.None? ==>
              ReservedWarm(l, request).1 == Ledger(l.capacity, l.active, Plus(l.warmPool, request))
  {
    AvailableIsExact(l);
    assert Fits(request, Available(l)) ==> InRange(Plus(l.active, request)) && InRange(Plus(l.warmPool, request));
  }

  /** The mutable ledger. */
  class CapacityLedger {
    const capacity: ResourceBudget
    var active: ResourceBudget
    var warmPool: ResourceBudget

    constructor (capacity: ResourceBudget)
      ensures Value() == Empty(capacity)
    {
      this.capacity := capacity;
      active := ZERO;
      warmPool := ZERO;
    }

    function Value(): Ledger
      reads this
    {
      Ledger(capacity, active, warmPool)
    }

    method ReserveActive(request: ResourceBudget) returns (error: Option<CapacityError>)
      modifies this
      ensures (error, Value()) == ReservedActive(old(Value()), request)
    {
      error := CheckAvailable(request);
      if error.None? {
        active := Add(active, request);
      }
    }

    method ReserveWarmPool(request: ResourceBudget) returns (error: Option<CapacityError>)
      modifies this
      ensures (error, Value()) == ReservedWarm(old(Value()), request)
    {
      error := CheckAvailable(request);
      if error.None? {
        warmPool := Add(warmPool, request);
      }
    }

    method ReleaseActive(budget: ResourceBudget)
      modifies this
      ensures Value() == ReleasedActive(old(Value()), budget)
    {
      active := Sub(active, budget);
    }

    method ReleaseWarmPool(budget: ResourceBudget)
      modifies this
      ensures Value() == ReleasedWarm(old(Value()), budget)
    {
      warmPool := Sub(warmPool, budget);
    }

    method PromoteWarmPoolToActive(budget: ResourceBudget) returns (error: Option<CapacityError>)
      modifies this
      ensures (error, Value()) == Promoted(old(Value()), budget)
    {
      if budget.cpus > warmPool.cpus {
        return Some(Cpu(budget.cpus, warmPool.cpus));
      }
      if budget.memory > warmPool.memory {
        return Some(Memory(budget.memory, warmPool.memory));
      }
      if budget.disk > warmPool.disk {
        return Some(Disk(budget.disk, warmPool.disk));
      }
      warmPool := Sub(warmPool, budget);
      active := Add(active, budget);
      error := None;
    }

    /** Reports an error for exactly the requests that do not fit what is available. */
    method CheckAvailable(request: ResourceBudget) returns (error: Option<CapacityError>)
      ensures error == Shortfall(request, Available(Value()))
      ensures error.None? <==> Fits(request, Available(Value()))
    {
      var available := Available(Value());
      if request.cpus > available.cpus {
        return Some(Cpu(request.cpus, available.cpus));
      }
      if request.memory > available.memory {
        return Some(Memory(request.memory, available.memory));
      }
      if request.disk > available.disk {
        return Some(Disk(request.disk, available.disk));
      }
      error := None;
    }
  }
}
