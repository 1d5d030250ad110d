/** Host resource amounts, the saturating arithmetic on them, and the capacity error that
    admission reports when a request does not fit. */
module Budgets {
  import opened Wrappers

  const U32_MAX: int := 0xFFFF_FFFF
  const U64_MAX: int := 0xFFFF_FFFF_FFFF_FFFF

  /** CPU slots, memory bytes and disk bytes as mathematical integers. */
  datatype Amount = Amount(cpus: int, memory: int, disk: int)

  const ZERO: Amount := Amount(0, 0, 0)

  /** The amounts that fit the source's field types: u32 slots and u64 bytes. */
  predicate InRange(a: Amount) {
    && 0 <= a.cpus <= U32_MAX
    && 0 <= a.memory <= U64_MAX
    && 0 <= a.disk <= U64_MAX
  }

  type ResourceBudget = a: Amount | InRange(a) witness ZERO

  function Plus(a: Amount, b: Amount): Amount {
    Amount(a.cpus + b.cpus, a.memory + b.memory, a.disk + b.disk)
  }

  function Minus(a: Amount, b: Amount): Amount {
    Amount(a.cpus - b.cpus, a.memory - b.memory, a.disk - b.disk)
  }

  /** a + b == c + d, dimension by dimension. */
  ghost predicate SameSum(a: Amount, b: Amount, c: Amount, d: Amount) {
    && a.cpus + b.cpus == c.cpus + d.cpus
    && a.memory + b.memory == c.memory + d.memory
    && a.disk + b.disk == c.disk + d.disk
  }

  function Clamp(x: int, max: nat): (r: nat)
    ensures r <= max
  {
    if x < 0 then 0 else if x > max then max else x
  }

  /** Saturating sum: exact precisely when the true sum is representable. */
  function Add(a: ResourceBudget, b: ResourceBudget): (r: ResourceBudget)
    ensures r == Plus(a, b) <==> InRange(Plus(a, b))
  {
    Amount(Clamp(a.cpus + b.cpus, U32_MAX),
           Clamp(a.memory + b.memory, U64_MAX),
           Clamp(a.disk + b.disk, U64_MAX))
  }

  /** Saturating difference: exact precisely when the true difference is representable. */
  function Sub(a: ResourceBudget, b: ResourceBudget): (r: ResourceBudget)
    ensures r == Minus(a, b) <==> InRange(Minus(a, b))
  {
    Amount(Clamp(a.cpus - b.cpus, U32_MAX),
           Clamp(a.memory - b.memory, U64_MAX),
           Clamp(a.disk - b.disk, U64_MAX))
  }

  /** A saturating sum is the greatest representable amount that does not exceed the true sum. */
  lemma AddIsGreatest(a: ResourceBudget, b: ResourceBudget, x: ResourceBudget)
    ensures Fits(Add(a, b), Plus(a, b))
    ensures Fits(x, Plus(a, b)) <==> Fits(x, Add(a, b))
  {
  }

  /** A saturating difference is the least representable amount that is not below the true difference. */
  lemma SubIsLeast(a: ResourceBudget, b: ResourceBudget, x: ResourceBudget)
    ensures Fits(Minus(a, b), Sub(a, b))
    ensures Fits(Minus(a, b), x) <==> Fits(Sub(a, b), x)
  {
  }

  predicate Fits(request: Amount, available: Amount) {
    && request.cpus <= available.cpus
    && request.memory <= available.memory
    && request.disk <= available.disk
  }

  datatype CapacityError =
    | Cpu(requested: int, available: int)
    | Memory(requested: int, available: int)
    | Disk(requested: int, available: int)

  /** The first dimension, in the order CPU, memory, disk, in which a request is too large. */
  function Shortfall(request: Amount, available: Amount): (error: Option<CapacityError>)
    ensures error.None? <==> Fits(request, available)
  {
    if request.cpus > available.cpus then Some(Cpu(request.cpus, available.cpus))
    else if request.memory > available.memory then Some(Memory(request.memory, available.memory))
    else if request.disk > available.disk then Some(Disk(request.disk, available.disk))
    else None
  }

  /** The error names the first short dimension, with the request and what there is in it. */
  lemma ShortfallIsFirst(request: Amount, available: Amount, requested: int, there: int)
    ensures Shortfall(request, available) == Some(Cpu(requested, there))
      <==> (request.cpus > available.cpus && requested == request.cpus && there == available.cpus)
    ensures Shortfall(request, available) == Some(Memory(requested, there))
      <==> (request.cpus <= available.cpus && request.memory > available.memory
            && requested == request.memory && there == available.memory)
    ensures Shortfall(request, available) == Some(Disk(requested, there))
      <==> (request.cpus <= available.cpus && request.memory <= available.memory && request.disk > available.disk
            && requested == request.disk && there == available.disk)
  {
  }

  /** Exact total of a list of budgets. */
  function Total(budgets: seq<ResourceBudget>): Amount {
    if budgets == [] then ZERO else Plus(budgets[0], Total(budgets[1..]))
  }

  lemma {:induction false} TotalConcat(a: seq<ResourceBudget>, b: seq<ResourceBudget>)
    ensures Total(a + b) == Plus(Total(a), Total(b))
  {
    if a == [] {
      assert a + b == b;
    } else {
      assert (a + b)[1..] == a[1..] + b;
      TotalConcat(a[1..], b);
    }
  }

  lemma {:induction false} TotalSnoc(held: seq<ResourceBudget>, budget: ResourceBudget)
    ensures Total(held + [budget]) == Plus(Total(held), budget)
  {
    TotalConcat(held, [budget]);
    assert Total([budget]) == budget;
  }

  lemma {:induction false} TotalNonNegative(budgets: seq<ResourceBudget>)
    ensures Fits(ZERO, Total(budgets))
  {
    if budgets != [] {
      TotalNonNegative(budgets[1..]);
    }
  }

  lemma {:induction false} TotalWithout(budgets: seq<ResourceBudget>, i: nat)
    requires i < |budgets|
    ensures Plus(budgets[i], Total(Without(budgets, i))) == Total(budgets)
    ensures Fits(budgets[i], Total(budgets))
  {
    var before, rest := budgets[..i], budgets[i..];
    assert budgets == before + rest;
    assert rest[1..] == budgets[i + 1..];
    TotalConcat(before, rest);
    TotalConcat(before, rest[1..]);
    TotalNonNegative(Without(budgets, i));
  }
}
