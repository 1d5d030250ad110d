/** Background replenishment: which desired warm entries to restore without touching capacity that
    is already promised. */
module Replenishment {
  import opened Wrappers
  import opened Budgets
  import opened Keys
  import opened Capacity
  import opened OrderedQueues
  import opened WarmPool

  /** A snapshot manifest; only its logical id is ever looked at here. */
  datatype Manifest = Manifest(logicalId: string)

  datatype Target = Target(key: WarmPoolKey, manifest: Manifest, budget: ResourceBudget)

  datatype SkipReason =
    | AlreadyWarm
    | InsufficientCapacity(requested: ResourceBudget, available: ResourceBudget)

  datatype Skip = Skip(key: WarmPoolKey, reason: SkipReason)

  datatype Plan = Plan(maintain: seq<Target>, skipped: seq<Skip>)

  /** The planner's running state after looking at some targets. */
  datatype Progress = Progress(plan: Plan, planned: ResourceBudget)

  function Consider(p: Progress, target: Target, s: State): Progress {
    if Lookup(s.pool, target.key) != [] then
      p.(plan := p.plan.(skipped := p.plan.skipped + [Skip(target.key, AlreadyWarm)]))
    else
      var available := Sub(Available(s.ledger), p.planned);
      if !Fits(target.budget, available) then
        p.(plan := p.plan.(skipped := p.plan.skipped
                                      + [Skip(target.key, InsufficientCapacity(target.budget, available))]))
      else
        Progress(p.plan.(maintain := p.plan.maintain + [target]), Add(p.planned, target.budget))
  }

  function ProgressOn(targets: seq<Target>, s: State): Progress {
    if targets == [] then Progress(Plan([], []), ZERO)
    else Consider(ProgressOn(targets[..|targets| - 1], s), targets[|targets| - 1], s)
  }

  function PlanFor(targets: seq<Target>, s: State): Plan {
    ProgressOn(targets, s).plan
  }

  method PlanReplenishment(targets: seq<Target>, pool: WarmPoolLedger, ledger: Ledger) returns (plan: Plan)
    ensures plan == PlanFor(targets, State(pool.entries, ledger))
  {
    var maintain: seq<Target>, skipped: seq<Skip>, planned: ResourceBudget := [], [], ZERO;
    for i := 0 to |targets|
      invariant Progress(Plan(maintain, skipped), planned) == ProgressOn(targets[..i], State(pool.entries, ledger))
    {
      var target := targets[i];
      assert targets[..i + 1][..i] == targets[..i];
      var warm := pool.Contains(target.key);
      if warm {
        skipped := skipped + [Skip(target.key, AlreadyWarm)];
        continue;
      }
      var available := Sub(Available(ledger), planned);
      if !Fits(target.budget, available) {
        skipped := skipped + [Skip(target.key, InsufficientCapacity(target.budget, available))];
        continue;
      }
      planned := Add(planned, target.budget);
      maintain := maintain + [target];
    }
    assert targets[..|targets|] == targets;
    plan := Plan(maintain, skipped);
  }

  // ---------- an independent description: the exact greedy choice ----------

  /** Exact total of the budgets of some targets. */
  function Spend(targets: seq<Target>): Amount {
    if targets == [] then ZERO
    else Plus(Spend(targets[..|targets| - 1]), targets[|targets| - 1].budget)
  }

  /** The targets marked true, in order. */
  function Marked(targets: seq<Target>, marks: seq<bool>): seq<Target>
    requires |marks| == |targets|
  {
    if targets == [] then []
    else
      var n := |targets| - 1;
      Marked(targets[..n], marks[..n]) + if marks[n] then [targets[n]] else []
  }

  /** What is left for target `i` once the earlier marked ones are paid for. */
  function LeftBefore(targets: seq<Target>, marks: seq<bool>, i: nat, s: State): Amount
    requires |marks| == |targets| && i <= |targets|
  {
    Minus(Available(s.ledger), Spend(Marked(targets[..i], marks[..i])))
  }

  /** Marks are greedy when each target is taken exactly if its key is cold and it fits what is left. */
  ghost predicate Greedy(targets: seq<Target>, marks: seq<bool>, s: State) {
    && |marks| == |targets|
    && forall i :: 0 <= i < |targets| ==>
         (marks[i] <==> && Lookup(s.pool, targets[i].key) == []
                        && Fits(targets[i].budget, LeftBefore(targets, marks, i, s)))
  }

  /** The skip records of the targets not marked, in order, each with the exact room it was offered. */
  ghost predicate RecordsOf(targets: seq<Target>, marks: seq<bool>, s: State, skipped: seq<Skip>)
    requires |marks| == |targets|
    decreases |targets|
  {
    if targets == [] then skipped == []
    else
      var n := |targets| - 1;
      if marks[n] then RecordsOf(targets[..n], marks[..n], s, skipped)
      else
        && skipped != []
        && skipped[|skipped| - 1].key == targets[n].key
        && RecordsOf(targets[..n], marks[..n], s, skipped[..|skipped| - 1])
        && match skipped[|skipped| - 1].reason {
             case AlreadyWarm => Lookup(s.pool, targets[n].key) != []
             case InsufficientCapacity(requested, available) =>
               && Lookup(s.pool, targets[n].key) == []
               && requested == targets[n].budget
               && available == LeftBefore(targets, marks, n, s)
           }
  }

  ghost function Marks(targets: seq<Target>, s: State): (marks: seq<bool>)
    ensures |marks| == |targets|
  {
    if targets == [] then []
    else
      var n := |targets| - 1;
      var p := ProgressOn(targets[..n], s);
      Marks(targets[..n], s) + [Lookup(s.pool, targets[n].key) == []
                                && Fits(targets[n].budget, Sub(Available(s.ledger), p.planned))]
  }

  lemma {:induction false} MarksPrefix(targets: seq<Target>, s: State, i: nat)
    requires i <= |targets|
    ensures Marks(targets, s)[..i] == Marks(targets[..i], s)
  {
    if i < |targets| {
      var n := |targets| - 1;
      MarksPrefix(targets[..n], s, i);
      assert targets[..n][..i] == targets[..i];
      assert Marks(targets, s)[..i] == Marks(targets[..n], s)[..i];
    } else {
      assert targets[..i] == targets && Marks(targets, s)[..i] == Marks(targets, s);
    }
  }

  /** The running total is exact and within what is available. */
  ghost predicate Exact(p: Progress, s: State) {
    p.planned == Spend(p.plan.maintain) && Fits(p.planned, Available(s.ledger))
  }

  lemma {:induction false} ProgressIsExact(targets: seq<Target>, s: State)
    ensures Exact(ProgressOn(targets, s), s)
  {
    if targets != [] {
      ProgressIsExact(targets[..|targets| - 1], s);
    }
  }

  lemma {:induction false} MaintainedAreMarked(targets: seq<Target>, s: State)
    ensures ProgressOn(targets, s).plan.maintain == Marked(targets, Marks(targets, s))
  {
    if targets != [] {
      var n := |targets| - 1;
      MaintainedAreMarked(targets[..n], s);
      assert Marks(targets, s)[..n] == Marks(targets[..n], s);
    }
  }

  /** In every state, coupled or not: the running total is exact and never exceeds what is available,
      so no addition or subtraction in the planner saturates. */
  lemma {:induction false} PlannedIsExact(targets: seq<Target>, s: State)
    ensures var p := ProgressOn(targets, s);
      && p.plan.maintain == Marked(targets, Marks(targets, s))
      && p.planned == Spend(p.plan.maintain)
      && Fits(p.planned, Available(s.ledger))
  {
    ProgressIsExact(targets, s);
    MaintainedAreMarked(targets, s);
  }

  lemma {:induction false} SpendSnoc(targets: seq<Target>, target: Target)
    ensures Spend(targets + [target]) == Plus(Spend(targets), target.budget)
  {
    assert (targets + [target])[..|targets|] == targets;
  }

  lemma {:induction false} MarksAreGreedy(targets: seq<Target>, s: State)
    ensures Greedy(targets, Marks(targets, s), s)
  {
    var marks := Marks(targets, s);
    forall i | 0 <= i < |targets|
      ensures marks[i] <==> && Lookup(s.pool, targets[i].key) == []
                            && Fits(targets[i].budget, LeftBefore(targets, marks, i, s))
    {
      MarksPrefix(targets, s, i);
      MarksPrefix(targets, s, i + 1);
      assert marks[i] == marks[..i + 1][i];
      assert targets[..i + 1][..i] == targets[..i];
      PlannedIsExact(targets[..i], s);
    }
  }

  lemma {:induction false} SkippedAreRecords(targets: seq<Target>, s: State)
    ensures RecordsOf(targets, Marks(targets, s), s, PlanFor(targets, s).skipped)
  {
    if targets != [] {
      var n := |targets| - 1;
      var p := ProgressOn(targets[..n], s);
      SkippedAreRecords(targets[..n], s);
      PlannedIsExact(targets[..n], s);
      assert Marks(targets, s)[..n] == Marks(targets[..n], s);
      var q := ProgressOn(targets, s);
      if !Marks(targets, s)[n] {
        assert q.plan.skipped[..|q.plan.skipped| - 1] == p.plan.skipped;
      }
    }
  }

  /** The plan is the exact greedy choice: the marked targets in order are maintained, the others in
      order are skipped, and each capacity skip records the availability left by the earlier ones. */
  lemma {:induction false} PlanIsGreedyPartition(targets: seq<Target>, s: State)
    ensures var marks := Marks(targets, s);
      && Greedy(targets, marks, s)
      && PlanFor(targets, s).maintain == Marked(targets, marks)
      && RecordsOf(targets, marks, s, PlanFor(targets, s).skipped)
  {
    PlannedIsExact(targets, s);
    MarksAreGreedy(targets, s);
    SkippedAreRecords(targets, s);
  }

  /** Greedy marks are unique, so the description determines the plan. */
  lemma {:induction false} GreedyIsUnique(targets: seq<Target>, a: seq<bool>, b: seq<bool>, s: State, i: nat)
    requires Greedy(targets, a, s) && Greedy(targets, b, s) && i <= |targets|
    ensures a[..i] == b[..i]
  {
    if i > 0 {
      GreedyIsUnique(targets, a, b, s, i - 1);
      assert a[i - 1] == b[i - 1];
      assert a[..i] == a[..i - 1] + [a[i - 1]] && b[..i] == b[..i - 1] + [b[i - 1]];
    }
  }

  // ---------- maximality ----------

  /** A target needs nothing more: it is warm, scheduled, or too large for what is left. */
  ghost predicate Settled(p: Progress, target: Target, s: State) {
    || Lookup(s.pool, target.key) != []
    || target in p.plan.maintain
    || !Fits(target.budget, Sub(Available(s.ledger), p.planned))
  }

  /** One more target never frees room and never drops a scheduled target. */
  lemma ConsiderOnlyGrows(p: Progress, target: Target, s: State)
    requires Fits(p.planned, Available(s.ledger))
    ensures Fits(p.planned, Consider(p, target, s).planned)
    ensures Fits(Consider(p, target, s).planned, Available(s.ledger))
    ensures p.plan.maintain <= Consider(p, target, s).plan.maintain
    ensures Settled(Consider(p, target, s), target, s)
  {
  }

  lemma SettledStays(p: Progress, q: Progress, target: Target, s: State)
    requires Settled(p, target, s) && Fits(p.planned, q.planned) && p.plan.maintain <= q.plan.maintain
    ensures Settled(q, target, s)
  {
  }

  /** Every target is warm, scheduled, or too large for what the whole plan leaves. */
  lemma {:induction false} PlanIsMaximal(targets: seq<Target>, s: State, i: nat)
    requires i < |targets|
    ensures Settled(ProgressOn(targets, s), targets[i], s)
  {
    var n := |targets| - 1;
    var p := ProgressOn(targets[..n], s);
    ProgressIsExact(targets[..n], s);
    ConsiderOnlyGrows(p, targets[n], s);
    if i < n {
      PlanIsMaximal(targets[..n], s, i);
      SettledStays(p, ProgressOn(targets, s), targets[i], s);
    }
  }

  /** No target skipped for capacity fits what is left at the end. */
  lemma {:induction false} SkippedNeverFitsLater(targets: seq<Target>, s: State)
    ensures var p := ProgressOn(targets, s);
      && p.planned == Spend(p.plan.maintain)
      && forall i :: 0 <= i < |p.plan.skipped| && p.plan.skipped[i].reason.InsufficientCapacity? ==>
           && !Fits(p.plan.skipped[i].reason.requested, p.plan.skipped[i].reason.available)
           && !Fits(p.plan.skipped[i].reason.requested, Sub(Available(s.ledger), p.planned))
  {
    PlannedIsExact(targets, s);
    if targets != [] {
      var n := |targets| - 1;
      PlannedIsExact(targets[..n], s);
      ConsiderOnlyGrows(ProgressOn(targets[..n], s), targets[n], s);
      SkippedNeverFitsLater(targets[..n], s);
    }
  }

  // ---------- executing a plan ----------

  function EntryFor(target: Target): WarmPoolEntry {
    WarmPoolEntry(target.key, target.manifest.logicalId, target.budget)
  }

  /** Maintains the targets one after the other and collects the errors. */
  function MaintainAll(s: State, targets: seq<Target>): (seq<CapacityError>, State) {
    if targets == [] then ([], s)
    else
      var (errors, last) := MaintainAll(s, targets[..|targets| - 1]);
      var (error, next) := Maintained(last, EntryFor(targets[|targets| - 1]));
      (errors + if error.Some? then [error.value] else [], next)
  }

  lemma {:induction false} MaintainAllSnoc(s: State, targets: seq<Target>, target: Target)
    ensures var (errors, last) := MaintainAll(s, targets);
      var (error, next) := Maintained(last, EntryFor(target));
      MaintainAll(s, targets + [target]) == (errors + if error.Some? then [error.value] else [], next)
  {
    assert (targets + [target])[..|targets|] == targets;
  }

  lemma {:induction false} SpendPrefix(targets: seq<Target>)
    requires targets != []
    ensures Fits(ZERO, Spend(targets[..|targets| - 1]))
    ensures Fits(Spend(targets[..|targets| - 1]), Spend(targets))
  {
    if |targets| > 1 {
      SpendPrefix(targets[..|targets| - 1]);
    }
  }

  lemma {:induction false} MaintainTakesRoom(s: State, entry: WarmPoolEntry)
    requires Coupled(s) && Fits(entry.budget, Available(s.ledger))
    ensures var (error, next) := Maintained(s, entry);
      && error.None?
      && Coupled(next)
      && SameSum(Available(next.ledger), entry.budget, Available(s.ledger), ZERO)
      && (forall k :: Lookup(s.pool, k) != [] ==> Lookup(next.pool, k) != [])
      && Lookup(next.pool, entry.key) != []
  {
    MaintainKeeps(s, entry);
    AvailableIsExact(s.ledger);
    AvailableIsExact(Maintained(s, entry).1.ledger);
  }

  /** `end` is `s` with the targets paid for and their keys warm, and nothing else gone cold. */
  ghost predicate Restocked(s: State, targets: seq<Target>, end: State) {
    && Coupled(end)
    && SameSum(Available(end.ledger), Spend(targets), Available(s.ledger), ZERO)
    && (forall k :: Lookup(s.pool, k) != [] ==> Lookup(end.pool, k) != [])
    && (forall t :: t in targets ==> Lookup(end.pool, t.key) != [])
  }

  lemma {:induction false} RestockOne(s: State, targets: seq<Target>, target: Target, last: State)
    requires Restocked(s, targets, last)
    requires Fits(Spend(targets + [target]), Available(s.ledger))
    ensures Maintained(last, EntryFor(target)).0.None?
    ensures Restocked(s, targets + [target], Maintained(last, EntryFor(target)).1)
  {
    SpendSnoc(targets, target);
    MaintainTakesRoom(last, EntryFor(target));
  }

  /** Anything that fits in total can be maintained one by one: no call fails, availability goes down
      by exactly the total, and the maintained keys are warm afterwards. */
  lemma {:induction false} AffordableRuns(s: State, targets: seq<Target>)
    requires Coupled(s) && Fits(Spend(targets), Available(s.ledger))
    ensures MaintainAll(s, targets).0 == []
    ensures Restocked(s, targets, MaintainAll(s, targets).1)
  {
    if targets != [] {
      var earlier, target := targets[..|targets| - 1], targets[|targets| - 1];
      SpendPrefix(targets);
      AffordableRuns(s, earlier);
      assert targets == earlier + [target];
      RestockOne(s, earlier, target, MaintainAll(s, earlier).1);
      MaintainAllSnoc(s, earlier, target);
    }
  }

  /** After a plan has run, no target is both cold and affordable. */
  lemma {:induction false} NothingWorthDoing(targets: seq<Target>, s: State, end: State, i: nat)
    requires i < |targets| && Restocked(s, PlanFor(targets, s).maintain, end)
    ensures Lookup(end.pool, targets[i].key) != [] || !Fits(targets[i].budget, Available(end.ledger))
  {
    PlanIsMaximal(targets, s, i);
    ProgressIsExact(targets, s);
  }

  /** Running a plan never meets a capacity error, and planning again for the same targets, duplicate
      keys and all, then schedules nothing. */
  lemma {:induction false} ReplanningIsIdle(targets: seq<Target>, s: State)
    requires Coupled(s)
    ensures var plan := PlanFor(targets, s);
      var (errors, end) := MaintainAll(s, plan.maintain);
      && errors == []
      && Coupled(end)
      && PlanFor(targets, end).maintain == []
      && |PlanFor(targets, end).skipped| == |targets|
  {
    var plan := PlanFor(targets, s);
    ProgressIsExact(targets, s);
    AffordableRuns(s, plan.maintain);
    var end := MaintainAll(s, plan.maintain).1;
    forall i | 0 <= i < |targets|
      ensures Lookup(end.pool, targets[i].key) != [] || !Fits(targets[i].budget, Available(end.ledger))
    {
      NothingWorthDoing(targets, s, end, i);
    }
    NothingToDo(targets, end);
  }

  lemma {:induction false} NothingToDo(targets: seq<Target>, s: State)
    requires forall i :: 0 <= i < |targets| ==>
               Lookup(s.pool, targets[i].key) != [] || !Fits(targets[i].budget, Available(s.ledger))
    ensures ProgressOn(targets, s).planned == ZERO
    ensures PlanFor(targets, s).maintain == [] && |PlanFor(targets, s).skipped| == |targets|
  {
    if targets != [] {
      assert forall i :: 0 <= i < |targets| - 1 ==> targets[..|targets| - 1][i] == targets[i];
      NothingToDo(targets[..|targets| - 1], s);
      assert Sub(Available(s.ledger), ZERO) == Available(s.ledger);
    }
  }
}
