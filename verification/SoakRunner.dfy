/** The soak runner: one create, command, write, snapshot, restore, follow-up and cleanup per iteration,
    against a backend whose every answer may be a failure. */
module SoakRunner {
  import opened Wrappers
  import opened Budgets

  datatype Step = CreateSandbox | RunCommand | WriteFile | SaveSnapshot | RestoreSnapshot | FollowUpPrompt | Cleanup

  function Index(step: Step): (i: nat)
    ensures i < 7
  {
    match step
    case CreateSandbox => 0
    case RunCommand => 1
    case WriteFile => 2
    case SaveSnapshot => 3
    case RestoreSnapshot => 4
    case FollowUpPrompt => 5
    case Cleanup => 6
  }

  datatype Counts = Counts(attempts: nat, failures: nat)

  /** What the backend answers in one iteration, should it be asked. Sandbox ids are its choice. */
  datatype World = World(
    create: Option<string>, command: bool, write: bool, save: bool, deleteSource: bool,
    restore: Option<string>, followUp: bool, deleteFollowUp: bool, deleteSnapshot: bool)

  /** Calls made to the backend, with their answers. Snapshots are named by iteration number. */
  datatype Call =
    | CreateCall(got: Option<string>)
    | CommandCall(ok: bool)
    | WriteCall(ok: bool)
    | SaveCall(name: nat, ok: bool)
    | RestoreCall(name: nat, got: Option<string>)
    | FollowUpCall(ok: bool)
    | DeleteCall(id: string, ok: bool)
    | DeleteSnapshotCall(name: nat, ok: bool)

  datatype Soak = Soak(steps: seq<Counts>, log: seq<Call>)

  const NONE: Counts := Counts(0, 0)

  const IDLE: Soak := Soak([NONE, NONE, NONE, NONE, NONE, NONE, NONE], [])

  type Soaked = s: Soak | |s.steps| == 7 witness IDLE

  function Tick(counter: nat): nat {
    Clamp(counter + 1, U64_MAX)
  }

  function Called(s: Soaked, call: Call): Soaked {
    s.(log := s.log + [call])
  }

  function Recorded(s: Soaked, step: Step, ok: bool): Soaked {
    var c := s.steps[Index(step)];
    s.(steps := s.steps[Index(step) := Counts(Tick(c.attempts), if ok then c.failures else Tick(c.failures))])
  }

  function CleanedUp(s: Soaked, source: Option<string>, followUp: Option<string>, snapshot: Option<nat>, w: World): Soaked {
    var s1 := if source.Some? then Called(s, DeleteCall(source.value, w.deleteSource)) else s;
    var s2 := if followUp.Some? then Called(s1, DeleteCall(followUp.value, w.deleteFollowUp)) else s1;
    var s3 := if snapshot.Some? then Called(s2, DeleteSnapshotCall(snapshot.value, w.deleteSnapshot)) else s2;
    Recorded(s3, Cleanup, && (source.Some? ==> w.deleteSource)
                          && (followUp.Some? ==> w.deleteFollowUp)
                          && (snapshot.Some? ==> w.deleteSnapshot))
  }

  /** An iteration from the restore on; the source sandbox is gone. */
  function RestoredOn(s: Soaked, name: nat, w: World): Soaked {
    var s1 := Recorded(Called(s, RestoreCall(name, w.restore)), RestoreSnapshot, w.restore.Some?);
    if w.restore.None? then CleanedUp(s1, None, None, Some(name), w) else
    var s2 := Recorded(Called(s1, FollowUpCall(w.followUp)), FollowUpPrompt, w.followUp);
    CleanedUp(s2, None, w.restore, Some(name), w)
  }

  /** An iteration from the snapshot on, with source sandbox `id`. */
  function SavedOn(s: Soaked, id: string, name: nat, w: World): Soaked {
    var s1 := Recorded(Called(s, SaveCall(name, w.save)), SaveSnapshot, w.save);
    if !w.save then CleanedUp(s1, Some(id), None, None, w) else
    var s2 := Called(s1, DeleteCall(id, w.deleteSource));
    if !w.deleteSource then Recorded(s2, Cleanup, false) else RestoredOn(s2, name, w)
  }

  /** An iteration from the command on, with source sandbox `id`. */
  function CommandedOn(s: Soaked, id: string, name: nat, w: World): Soaked {
    var s1 := Recorded(Called(s, CommandCall(w.command)), RunCommand, w.command);
    if !w.command then CleanedUp(s1, Some(id), None, None, w) else
    var s2 := Recorded(Called(s1, WriteCall(w.write)), WriteFile, w.write);
    if !w.write then CleanedUp(s2, Some(id), None, None, w) else SavedOn(s2, id, name, w)
  }

  function Iterated(s: Soaked, name: nat, w: World): Soaked {
    var s1 := Recorded(Called(s, CreateCall(w.create)), CreateSandbox, w.create.Some?);
    if w.create.None? then CleanedUp(s1, None, None, None, w) else CommandedOn(s1, w.create.value, name, w)
  }

  /** The iteration number saturates, and so do the snapshot names made from it. */
  function Soaking(worlds: seq<World>): Soaked {
    if worlds == [] then IDLE
    else Iterated(Soaking(worlds[..|worlds| - 1]), Clamp(|worlds|, U64_MAX), worlds[|worlds| - 1])
  }

  /** The runner with its in-place counters. */
  class Runner {
    const steps: array<Counts>
    var log: seq<Call>

    constructor ()
      ensures Valid() && fresh(steps) && Value() == IDLE
    {
      steps := new Counts[7](_ => NONE);
      log := [];
    }

    predicate Valid() {
      steps.Length == 7
    }

    function Value(): Soaked
      requires Valid()
      reads this, steps
    {
      Soak(steps[..], log)
    }

    method RecordResult(step: Step, ok: bool)
      requires Valid()
      modifies steps
      ensures Value() == Recorded(old(Value()), step, ok)
    {
      var i := Index(step);
      steps[i] := steps[i].(attempts := Tick(steps[i].attempts));
      if !ok {
        steps[i] := steps[i].(failures := Tick(steps[i].failures));
      }
    }

    method RecordFailure(step: Step)
      requires Valid()
      modifies steps
      ensures Value() == Recorded(old(Value()), step, false)
    {
      var i := Index(step);
      steps[i] := steps[i].(attempts := Tick(steps[i].attempts));
      steps[i] := steps[i].(failures := Tick(steps[i].failures));
    }

    method Ask(call: Call)
      requires Valid()
      modifies this
      ensures Value() == Called(old(Value()), call)
    {
      log := log + [call];
    }

    /** The attempt is counted before the deletions are tried, the failure after. */
    method RecordCleanup(source: Option<string>, followUp: Option<string>, snapshot: Option<nat>, w: World)
      requires Valid()
      modifies this, steps
      ensures Value() == CleanedUp(old(Value()), source, followUp, snapshot, w)
    {
      var i := Index(Cleanup);
      steps[i] := steps[i].(attempts := Tick(steps[i].attempts));
      var failed := false;
      if source.Some? {
        Ask(DeleteCall(source.value, w.deleteSource));
        if !w.deleteSource { failed := true; }
      }
      if followUp.Some? {
        Ask(DeleteCall(followUp.value, w.deleteFollowUp));
        if !w.deleteFollowUp { failed := true; }
      }
      if snapshot.Some? {
        Ask(DeleteSnapshotCall(snapshot.value, w.deleteSnapshot));
        if !w.deleteSnapshot { failed := true; }
      }
      if failed {
        steps[i] := steps[i].(failures := Tick(steps[i].failures));
      }
    }

    method RunIteration(name: nat, w: World)
      requires Valid()
      modifies this, steps
      ensures Value() == Iterated(old(Value()), name, w)
    {
      Ask(CreateCall(w.create));
      RecordResult(CreateSandbox, w.create.Some?);
      if w.create.None? {
        RecordCleanup(None, None, None, w);
        return;
      }
      Ask(CommandCall(w.command));
      RecordResult(RunCommand, w.command);
      if !w.command {
        RecordCleanup(w.create, None, None, w);
        return;
      }
      Ask(WriteCall(w.write));
      RecordResult(WriteFile, w.write);
      if !w.write {
        RecordCleanup(w.create, None, None, w);
        return;
      }
      Ask(SaveCall(name, w.save));
      RecordResult(SaveSnapshot, w.save);
      if !w.save {
        RecordCleanup(w.create, None, None, w);
        return;
      }
      Ask(DeleteCall(w.create.value, w.deleteSource));
      if !w.deleteSource {
        RecordFailure(Cleanup);
        return;
      }
      Ask(RestoreCall(name, w.restore));
      RecordResult(RestoreSnapshot, w.restore.Some?);
      if w.restore.None? {
        RecordCleanup(None, None, Some(name), w);
        return;
      }
      Ask(FollowUpCall(w.followUp));
      RecordResult(FollowUpPrompt, w.followUp);
      RecordCleanup(None, w.restore, Some(name), w);
    }

    /** The soak loop. The clock decides how many iterations there are, but always at least one. */
    method Run(worlds: seq<World>)
      requires Valid() && worlds != []
      requires Value() == IDLE
      modifies this, steps
      ensures Value() == Soaking(worlds)
    {
      var iteration, i := 0, 0;
      while true
        invariant 0 <= i < |worlds| && iteration == Clamp(i, U64_MAX)
        invariant Value() == Soaking(worlds[..i])
        decreases |worlds| - i
      {
        iteration := Tick(iteration);
        RunIteration(iteration, worlds[i]);
        assert worlds[..i + 1][..i] == worlds[..i];
        i := i + 1;
        if i == |worlds| {
          assert worlds[..i] == worlds;
          break;
        }
      }
    }
  }

  // ---------- the counters ----------

  /** A step is reached when everything before it went well. */
  predicate Reached(step: Step, w: World) {
    match step
    case CreateSandbox => true
    case RunCommand => w.create.Some?
    case WriteFile => w.create.Some? && w.command
    case SaveSnapshot => w.create.Some? && w.command && w.write
    case RestoreSnapshot => w.create.Some? && w.command && w.write && w.save && w.deleteSource
    case FollowUpPrompt => w.create.Some? && w.command && w.write && w.save && w.deleteSource && w.restore.Some?
    case Cleanup => true
  }

  /** A sandbox or snapshot made in this iteration is left behind. */
  predicate LeavesSandbox(w: World) {
    || (w.create.Some? && !w.deleteSource)
    || (Reached(FollowUpPrompt, w) && !w.deleteFollowUp)
  }

  predicate LeavesSnapshot(w: World) {
    Reached(SaveSnapshot, w) && w.save && (!w.deleteSource || !w.deleteSnapshot)
  }

  predicate Fails(step: Step, w: World) {
    match step
    case CreateSandbox => w.create.None?
    case RunCommand => Reached(RunCommand, w) && !w.command
    case WriteFile => Reached(WriteFile, w) && !w.write
    case SaveSnapshot => Reached(SaveSnapshot, w) && !w.save
    case RestoreSnapshot => Reached(RestoreSnapshot, w) && w.restore.None?
    case FollowUpPrompt => Reached(FollowUpPrompt, w) && !w.followUp
    case Cleanup => LeavesSandbox(w) || LeavesSnapshot(w)
  }

  function One(b: bool): nat {
    if b then 1 else 0
  }

  /** In how many iterations the step is reached. */
  function Attempts(step: Step, worlds: seq<World>): nat {
    if worlds == [] then 0
    else Attempts(step, worlds[..|worlds| - 1]) + One(Reached(step, worlds[|worlds| - 1]))
  }

  function Failures(step: Step, worlds: seq<World>): nat {
    if worlds == [] then 0
    else Failures(step, worlds[..|worlds| - 1]) + One(Fails(step, worlds[|worlds| - 1]))
  }

  /** A counter went from `before` to `after` by one attempt if `tried` and one failure if `failed`. */
  ghost predicate Moved(before: Soaked, after: Soaked, step: Step, tried: bool, failed: bool) {
    var b, a := before.steps[Index(step)], after.steps[Index(step)];
    && a.attempts == (if tried then Tick(b.attempts) else b.attempts)
    && a.failures == (if failed then Tick(b.failures) else b.failures)
  }

  lemma CleanupMoves(s: Soaked, source: Option<string>, followUp: Option<string>, snapshot: Option<nat>,
                                        w: World, step: Step)
    ensures Moved(s, CleanedUp(s, source, followUp, snapshot, w), step, step.Cleanup?,
                  step.Cleanup? && (|| (source.Some? && !w.deleteSource)
                                    || (followUp.Some? && !w.deleteFollowUp)
                                    || (snapshot.Some? && !w.deleteSnapshot)))
  {
  }

  lemma {:induction false} RestoreMoves(s: Soaked, name: nat, w: World, step: Step)
    ensures Moved(s, RestoredOn(s, name, w), step,
                  step.RestoreSnapshot? || step.Cleanup? || (step.FollowUpPrompt? && w.restore.Some?),
                  || (step.RestoreSnapshot? && w.restore.None?)
                  || (step.FollowUpPrompt? && w.restore.Some? && !w.followUp)
                  || (step.Cleanup? && (!w.deleteSnapshot || (w.restore.Some? && !w.deleteFollowUp))))
  {
    var s1 := Recorded(Called(s, RestoreCall(name, w.restore)), RestoreSnapshot, w.restore.Some?);
    if w.restore.None? {
      CleanupMoves(s1, None, None, Some(name), w, step);
    } else {
      CleanupMoves(Recorded(Called(s1, FollowUpCall(w.followUp)), FollowUpPrompt, w.followUp), None, w.restore, Some(name), w, step);
    }
  }

  lemma {:induction false} SaveMoves(s: Soaked, id: string, name: nat, w: World, step: Step)
    requires Reached(SaveSnapshot, w) && w.create == Some(id)
    ensures Moved(s, SavedOn(s, id, name, w), step,
                  !step.CreateSandbox? && !step.RunCommand? && !step.WriteFile? && Reached(step, w),
                  !step.CreateSandbox? && !step.RunCommand? && !step.WriteFile? && Fails(step, w))
  {
    var s1 := Recorded(Called(s, SaveCall(name, w.save)), SaveSnapshot, w.save);
    if !w.save {
      CleanupMoves(s1, Some(id), None, None, w, step);
    } else if !w.deleteSource {
    } else {
      RestoreMoves(Called(s1, DeleteCall(id, w.deleteSource)), name, w, step);
    }
  }

  lemma {:induction false} CommandMoves(s: Soaked, id: string, name: nat, w: World, step: Step)
    requires w.create == Some(id)
    ensures Moved(s, CommandedOn(s, id, name, w), step,
                  !step.CreateSandbox? && Reached(step, w), !step.CreateSandbox? && Fails(step, w))
  {
    var s1 := Recorded(Called(s, CommandCall(w.command)), RunCommand, w.command);
    if !w.command {
      CleanupMoves(s1, Some(id), None, None, w, step);
    } else {
      var s2 := Recorded(Called(s1, WriteCall(w.write)), WriteFile, w.write);
      if !w.write {
        CleanupMoves(s2, Some(id), None, None, w, step);
      } else {
        SaveMoves(s2, id, name, w, step);
      }
    }
  }

  /** One iteration moves each counter by exactly whether the step was reached, and failed. A cleanup is
      counted in every iteration, and it fails exactly when something was left behind. */
  lemma {:induction false} IterationMoves(s: Soaked, name: nat, w: World, step: Step)
    ensures Moved(s, Iterated(s, name, w), step, Reached(step, w), Fails(step, w))
  {
    var s1 := Recorded(Called(s, CreateCall(w.create)), CreateSandbox, w.create.Some?);
    if w.create.None? {
      CleanupMoves(s1, None, None, None, w, step);
    } else {
      CommandMoves(s1, w.create.value, name, w, step);
    }
  }

  /** On every run of any length, for every pattern of answers: each counter is the true number of
      attempts or failures, cut off at the largest counter value. */
  lemma {:induction false} CountersAreExact(worlds: seq<World>, step: Step)
    ensures Soaking(worlds).steps[Index(step)]
         == Counts(Clamp(Attempts(step, worlds), U64_MAX), Clamp(Failures(step, worlds), U64_MAX))
  {
    if worlds != [] {
      var n := |worlds| - 1;
      CountersAreExact(worlds[..n], step);
      IterationMoves(Soaking(worlds[..n]), Clamp(|worlds|, U64_MAX), worlds[n], step);
    }
  }

  /** The snapshot was saved and then its source could not be deleted. */
  predicate Stuck(w: World) {
    Reached(SaveSnapshot, w) && w.save && !w.deleteSource
  }

  /** In how many iterations that happened. */
  function SourceStuck(worlds: seq<World>): nat {
    if worlds == [] then 0 else SourceStuck(worlds[..|worlds| - 1]) + One(Stuck(worlds[|worlds| - 1]))
  }

  /** Each step is attempted exactly as often as the one before succeeded, except that a restore is also
      lost when the source sandbox could not be deleted. */
  lemma {:induction false} AttemptsChain(worlds: seq<World>)
    ensures Attempts(CreateSandbox, worlds) == Attempts(Cleanup, worlds) == |worlds|
    ensures Attempts(RunCommand, worlds) == Attempts(CreateSandbox, worlds) - Failures(CreateSandbox, worlds)
    ensures Attempts(WriteFile, worlds) == Attempts(RunCommand, worlds) - Failures(RunCommand, worlds)
    ensures Attempts(SaveSnapshot, worlds) == Attempts(WriteFile, worlds) - Failures(WriteFile, worlds)
    ensures Attempts(RestoreSnapshot, worlds)
         == Attempts(SaveSnapshot, worlds) - Failures(SaveSnapshot, worlds) - SourceStuck(worlds)
    ensures Attempts(FollowUpPrompt, worlds) == Attempts(RestoreSnapshot, worlds) - Failures(RestoreSnapshot, worlds)
  {
    if worlds != [] {
      AttemptsChain(worlds[..|worlds| - 1]);
      ReachedChain(worlds[|worlds| - 1]);
    }
  }

  lemma {:induction false} AttemptsAreBounded(step: Step, worlds: seq<World>)
    ensures Failures(step, worlds) <= Attempts(step, worlds) <= |worlds|
  {
    if worlds != [] {
      AttemptsAreBounded(step, worlds[..|worlds| - 1]);
    }
  }

  /** The same on the recorded counters, for every run short enough that no counter saturates. */
  lemma {:induction false} RecordedCountersChain(worlds: seq<World>)
    requires |worlds| <= U64_MAX
    ensures var steps := Soaking(worlds).steps;
      var create, command, write := steps[Index(CreateSandbox)], steps[Index(RunCommand)], steps[Index(WriteFile)];
      var save, restore, followUp := steps[Index(SaveSnapshot)], steps[Index(RestoreSnapshot)], steps[Index(FollowUpPrompt)];
      && create.attempts == steps[Index(Cleanup)].attempts == |worlds|
      && command.attempts == create.attempts - create.failures
      && write.attempts == command.attempts - command.failures
      && save.attempts == write.attempts - write.failures
      && restore.attempts == save.attempts - save.failures - SourceStuck(worlds)
      && followUp.attempts == restore.attempts - restore.failures
  {
    AttemptsChain(worlds);
    CounterIsTrue(CreateSandbox, worlds);
    CounterIsTrue(RunCommand, worlds);
    CounterIsTrue(WriteFile, worlds);
    CounterIsTrue(SaveSnapshot, worlds);
    CounterIsTrue(RestoreSnapshot, worlds);
    CounterIsTrue(FollowUpPrompt, worlds);
    CounterIsTrue(Cleanup, worlds);
  }

  lemma {:induction false} CounterIsTrue(step: Step, worlds: seq<World>)
    requires |worlds| <= U64_MAX
    ensures Soaking(worlds).steps[Index(step)] == Counts(Attempts(step, worlds), Failures(step, worlds))
  {
    CountersAreExact(worlds, step);
    AttemptsAreBounded(step, worlds);
  }

  lemma ReachedChain(w: World)
    ensures One(Reached(RunCommand, w)) == One(Reached(CreateSandbox, w)) - One(Fails(CreateSandbox, w))
    ensures One(Reached(WriteFile, w)) == One(Reached(RunCommand, w)) - One(Fails(RunCommand, w))
    ensures One(Reached(SaveSnapshot, w)) == One(Reached(WriteFile, w)) - One(Fails(WriteFile, w))
    ensures One(Reached(RestoreSnapshot, w))
         == One(Reached(SaveSnapshot, w)) - One(Fails(SaveSnapshot, w)) - One(Stuck(w))
    ensures One(Reached(FollowUpPrompt, w)) == One(Reached(RestoreSnapshot, w)) - One(Fails(RestoreSnapshot, w))
  {
  }

  // ---------- the calls of an iteration ----------

  function CleanupCalls(source: Option<string>, followUp: Option<string>, snapshot: Option<nat>, w: World): seq<Call> {
    (if source.Some? then [DeleteCall(source.value, w.deleteSource)] else [])
    + (if followUp.Some? then [DeleteCall(followUp.value, w.deleteFollowUp)] else [])
    + (if snapshot.Some? then [DeleteSnapshotCall(snapshot.value, w.deleteSnapshot)] else [])
  }

  function RestoreCalls(name: nat, w: World): seq<Call> {
    [RestoreCall(name, w.restore)]
    + if w.restore.None? then CleanupCalls(None, None, Some(name), w)
      else [FollowUpCall(w.followUp)] + CleanupCalls(None, w.restore, Some(name), w)
  }

  function SaveCalls(id: string, name: nat, w: World): seq<Call> {
    [SaveCall(name, w.save)]
    + if !w.save then CleanupCalls(Some(id), None, None, w)
      else [DeleteCall(id, w.deleteSource)] + if w.deleteSource then RestoreCalls(name, w) else []
  }

  function CommandCalls(id: string, name: nat, w: World): seq<Call> {
    [CommandCall(w.command)]
    + if !w.command then CleanupCalls(Some(id), None, None, w)
      else [WriteCall(w.write)]
           + if !w.write then CleanupCalls(Some(id), None, None, w) else SaveCalls(id, name, w)
  }

  function IterationCalls(name: nat, w: World): seq<Call> {
    [CreateCall(w.create)] + if w.create.None? then [] else CommandCalls(w.create.value, name, w)
  }

  /** When in an iteration a call comes; sandboxes are deleted twice, so those calls have no turn of their own. */
  function Turn(call: Call): nat {
    match call
    case CreateCall(_) => 0
    case CommandCall(_) => 1
    case WriteCall(_) => 2
    case SaveCall(_, _) => 3
    case DeleteCall(_, _) => 4
    case RestoreCall(_, _) => 5
    case FollowUpCall(_) => 6
    case DeleteSnapshotCall(_, _) => 7
  }

  /** `a` may come before `b`: in turn, except that a sandbox may also be deleted after the restore. */
  predicate MayPrecede(a: Call, b: Call) {
    if b.DeleteCall? then !a.DeleteSnapshotCall? else Turn(a) < Turn(b)
  }

  ghost predicate InOrder(calls: seq<Call>) {
    forall i, j :: 0 <= i < j < |calls| ==> MayPrecede(calls[i], calls[j])
  }

  lemma OrderCons(call: Call, rest: seq<Call>)
    requires InOrder(rest) && forall j :: 0 <= j < |rest| ==> MayPrecede(call, rest[j])
    ensures InOrder([call] + rest)
  {
  }

  lemma CleanupInOrder(source: Option<string>, followUp: Option<string>, snapshot: Option<nat>, w: World)
    ensures var calls := CleanupCalls(source, followUp, snapshot, w);
      InOrder(calls) && forall j :: 0 <= j < |calls| ==> calls[j].DeleteCall? || calls[j].DeleteSnapshotCall?
  {
  }

  /** Before a restore the source sandbox is made, used, saved and deleted. */
  lemma {:induction false} RestoreComesAfterDelete(name: nat, w: World)
    requires Reached(RestoreSnapshot, w)
    ensures IterationCalls(name, w)
         == [CreateCall(w.create), CommandCall(true), WriteCall(true), SaveCall(name, true), DeleteCall(w.create.value, true)]
            + RestoreCalls(name, w)
  {
    var id, rest := w.create.value, RestoreCalls(name, w);
    assert SaveCalls(id, name, w) == [SaveCall(name, true), DeleteCall(id, true)] + rest;
    assert CommandCalls(id, name, w) == [CommandCall(true), WriteCall(true)] + SaveCalls(id, name, w);
  }

  /** The calls of an iteration come in turn, and the deletion of the snapshot is the last of all. */
  lemma {:induction false} CallsComeInTurn(name: nat, w: World)
    ensures InOrder(IterationCalls(name, w))
    ensures IterationCalls(name, w)[0] == CreateCall(w.create)
  {
    CleanupInOrder(w.create, None, None, w);
    CleanupInOrder(None, None, Some(name), w);
    CleanupInOrder(None, w.restore, Some(name), w);
    if w.create.Some? {
      var id := w.create.value;
      OrderCons(FollowUpCall(w.followUp), CleanupCalls(None, w.restore, Some(name), w));
      OrderCons(RestoreCall(name, w.restore), RestoreCalls(name, w)[1..]);
      OrderCons(DeleteCall(id, w.deleteSource), if w.deleteSource then RestoreCalls(name, w) else []);
      OrderCons(SaveCall(name, w.save), SaveCalls(id, name, w)[1..]);
      OrderCons(WriteCall(w.write), if !w.write then CleanupCalls(Some(id), None, None, w) else SaveCalls(id, name, w));
      OrderCons(CommandCall(w.command), CommandCalls(id, name, w)[1..]);
      OrderCons(CreateCall(w.create), CommandCalls(id, name, w));
    }
  }

  lemma CleanupLog(s: Soaked, source: Option<string>, followUp: Option<string>, snapshot: Option<nat>, w: World)
    ensures CleanedUp(s, source, followUp, snapshot, w).log == s.log + CleanupCalls(source, followUp, snapshot, w)
  {
  }

  lemma {:induction false} RestoreLog(s: Soaked, name: nat, w: World)
    ensures RestoredOn(s, name, w).log == s.log + RestoreCalls(name, w)
  {
    var s1 := Recorded(Called(s, RestoreCall(name, w.restore)), RestoreSnapshot, w.restore.Some?);
    if w.restore.None? {
      CleanupLog(s1, None, None, Some(name), w);
    } else {
      CleanupLog(Recorded(Called(s1, FollowUpCall(w.followUp)), FollowUpPrompt, w.followUp), None, w.restore, Some(name), w);
    }
  }

  lemma {:induction false} SaveLog(s: Soaked, id: string, name: nat, w: World)
    ensures SavedOn(s, id, name, w).log == s.log + SaveCalls(id, name, w)
  {
    var s1 := Recorded(Called(s, SaveCall(name, w.save)), SaveSnapshot, w.save);
    if !w.save {
      CleanupLog(s1, Some(id), None, None, w);
    } else if w.deleteSource {
      RestoreLog(Called(s1, DeleteCall(id, w.deleteSource)), name, w);
    }
  }

  lemma LogCons(log: seq<Call>, call: Call, rest: seq<Call>)
    ensures log + [call] + rest == log + ([call] + rest)
  {
  }

  lemma {:induction false} CommandLog(s: Soaked, id: string, name: nat, w: World)
    ensures CommandedOn(s, id, name, w).log == s.log + CommandCalls(id, name, w)
  {
    var command, write := CommandCall(w.command), WriteCall(w.write);
    var s1 := Recorded(Called(s, command), RunCommand, w.command);
    var cleanup := CleanupCalls(Some(id), None, None, w);
    if !w.command {
      CleanupLog(s1, Some(id), None, None, w);
      LogCons(s.log, command, cleanup);
    } else {
      var s2 := Recorded(Called(s1, write), WriteFile, w.write);
      var rest := if !w.write then cleanup else SaveCalls(id, name, w);
      if !w.write {
        CleanupLog(s2, Some(id), None, None, w);
      } else {
        SaveLog(s2, id, name, w);
      }
      LogCons(s1.log, write, rest);
      LogCons(s.log, command, [write] + rest);
    }
  }

  lemma {:induction false} IterationLog(s: Soaked, name: nat, w: World)
    ensures Iterated(s, name, w).log == s.log + IterationCalls(name, w)
  {
    var s1 := Recorded(Called(s, CreateCall(w.create)), CreateSandbox, w.create.Some?);
    if w.create.None? {
      CleanupLog(s1, None, None, None, w);
      LogCons(s.log, CreateCall(w.create), []);
    } else {
      CommandLog(s1, w.create.value, name, w);
      LogCons(s.log, CreateCall(w.create), CommandCalls(w.create.value, name, w));
    }
  }

  // ---------- sandboxes and snapshots ----------

  /** What can be counted over answered calls: how often a sandbox id was handed out, how often its
      deletion was asked for, how many sandboxes of an id or snapshots of a name are still there, and how
      many snapshots were saved and how many snapshot deletions were asked for. */
  datatype Quantity =
    | HandedOut(id: string)
    | AskedBack(id: string)
    | Running(id: string)
    | Stored(name: nat)
    | Saved(only: Option<nat>)
    | DeletionAsked(only: Option<nat>)

  /** A count of snapshots is over all names, or over one. */
  predicate Matches(only: Option<nat>, name: nat) {
    only.None? || only.value == name
  }

  function Weigh(q: Quantity, call: Call): int {
    match q
    case HandedOut(id) => One((call.CreateCall? || call.RestoreCall?) && call.got == Some(id))
    case AskedBack(id) => One(call.DeleteCall? && call.id == id)
    case Running(id) =>
      One((call.CreateCall? || call.RestoreCall?) && call.got == Some(id)) - One(call.DeleteCall? && call.id == id && call.ok)
    case Stored(name) =>
      One(call.SaveCall? && call.name == name && call.ok) - One(call.DeleteSnapshotCall? && call.name == name && call.ok)
    case Saved(only) => One(call.SaveCall? && call.ok && Matches(only, call.name))
    case DeletionAsked(only) => One(call.DeleteSnapshotCall? && Matches(only, call.name))
  }

  function Total(q: Quantity, calls: seq<Call>): int {
    if calls == [] then 0 else Weigh(q, calls[0]) + Total(q, calls[1..])
  }

  lemma {:induction false} TotalConcat(q: Quantity, a: seq<Call>, b: seq<Call>)
    ensures Total(q, a + b) == Total(q, a) + Total(q, b)
  {
    if a == [] {
      assert a + b == b;
    } else {
      assert (a + b)[1..] == a[1..] + b;
      TotalConcat(q, a[1..], b);
    }
  }

  lemma {:induction false} TotalCons(q: Quantity, call: Call, rest: seq<Call>)
    ensures Total(q, [call] + rest) == Weigh(q, call) + Total(q, rest)
  {
    assert ([call] + rest)[1..] == rest;
  }

  lemma {:induction false} TotalOne(q: Quantity, call: Call)
    ensures Total(q, [call]) == Weigh(q, call)
  {
    assert [call][1..] == [];
  }

  lemma {:induction false} CleanupTotal(q: Quantity, source: Option<string>, followUp: Option<string>, snapshot: Option<nat>, w: World)
    ensures Total(q, CleanupCalls(source, followUp, snapshot, w))
         == (if source.Some? then Weigh(q, DeleteCall(source.value, w.deleteSource)) else 0)
          + (if followUp.Some? then Weigh(q, DeleteCall(followUp.value, w.deleteFollowUp)) else 0)
          + (if snapshot.Some? then Weigh(q, DeleteSnapshotCall(snapshot.value, w.deleteSnapshot)) else 0)
  {
    var a: seq<Call> := if source.Some? then [DeleteCall(source.value, w.deleteSource)] else [];
    var b: seq<Call> := if followUp.Some? then [DeleteCall(followUp.value, w.deleteFollowUp)] else [];
    var c: seq<Call> := if snapshot.Some? then [DeleteSnapshotCall(snapshot.value, w.deleteSnapshot)] else [];
    TotalConcat(q, a + b, c);
    TotalConcat(q, a, b);
    if source.Some? { TotalOne(q, a[0]); }
    if followUp.Some? { TotalOne(q, b[0]); }
    if snapshot.Some? { TotalOne(q, c[0]); }
  }

  /** What an iteration adds to a quantity: it asks back exactly what it was handed, and leaves behind
      exactly what could not be deleted. */
  function Change(q: Quantity, name: nat, w: World): nat {
    match q
    case HandedOut(id) => One(w.create == Some(id)) + One(Reached(RestoreSnapshot, w) && w.restore == Some(id))
    case AskedBack(id) => One(w.create == Some(id)) + One(Reached(RestoreSnapshot, w) && w.restore == Some(id))
    case Running(id) =>
      One(w.create == Some(id) && !w.deleteSource)
      + One(Reached(RestoreSnapshot, w) && w.restore == Some(id) && !w.deleteFollowUp)
    case Stored(m) => One(m == name && LeavesSnapshot(w))
    case Saved(only) => One(Reached(SaveSnapshot, w) && w.save && Matches(only, name))
    case DeletionAsked(only) => One(Reached(RestoreSnapshot, w) && Matches(only, name))
  }

  lemma {:induction false} RestoreTotal(q: Quantity, name: nat, w: World)
    ensures Total(q, RestoreCalls(name, w))
         == (if w.restore.None? then 0
             else Weigh(q, RestoreCall(name, w.restore)) + Weigh(q, DeleteCall(w.restore.value, w.deleteFollowUp)))
          + Weigh(q, DeleteSnapshotCall(name, w.deleteSnapshot))
  {
    if w.restore.None? {
      TotalCons(q, RestoreCall(name, w.restore), CleanupCalls(None, None, Some(name), w));
      CleanupTotal(q, None, None, Some(name), w);
    } else {
      var cleanup := CleanupCalls(None, w.restore, Some(name), w);
      TotalCons(q, RestoreCall(name, w.restore), [FollowUpCall(w.followUp)] + cleanup);
      TotalCons(q, FollowUpCall(w.followUp), cleanup);
      CleanupTotal(q, None, w.restore, Some(name), w);
    }
  }

  lemma {:induction false} SaveTotal(q: Quantity, id: string, name: nat, w: World)
    ensures Total(q, SaveCalls(id, name, w))
         == Weigh(q, SaveCall(name, w.save)) + Weigh(q, DeleteCall(id, w.deleteSource))
          + if w.save && w.deleteSource then Total(q, RestoreCalls(name, w)) else 0
  {
    if !w.save {
      TotalCons(q, SaveCall(name, w.save), CleanupCalls(Some(id), None, None, w));
      CleanupTotal(q, Some(id), None, None, w);
    } else {
      var rest := if w.deleteSource then RestoreCalls(name, w) else [];
      TotalCons(q, SaveCall(name, w.save), [DeleteCall(id, w.deleteSource)] + rest);
      TotalCons(q, DeleteCall(id, w.deleteSource), rest);
    }
  }

  lemma {:induction false} CommandTotal(q: Quantity, id: string, name: nat, w: World)
    ensures Total(q, CommandCalls(id, name, w))
         == if w.command && w.write then Total(q, SaveCalls(id, name, w)) else Weigh(q, DeleteCall(id, w.deleteSource))
  {
    var cleanup := CleanupCalls(Some(id), None, None, w);
    CleanupTotal(q, Some(id), None, None, w);
    if !w.command {
      TotalCons(q, CommandCall(w.command), cleanup);
    } else {
      var rest := if !w.write then cleanup else SaveCalls(id, name, w);
      TotalCons(q, CommandCall(w.command), [WriteCall(w.write)] + rest);
      TotalCons(q, WriteCall(w.write), rest);
    }
  }

  /** The weights of the calls that matter, for an iteration that got its source sandbox `id`. */
  function Weights(q: Quantity, id: string, name: nat, w: World): int {
    Weigh(q, CreateCall(Some(id))) + Weigh(q, DeleteCall(id, w.deleteSource))
    + (if Reached(SaveSnapshot, w) then Weigh(q, SaveCall(name, w.save)) else 0)
    + if !Reached(RestoreSnapshot, w) then 0
      else Weigh(q, DeleteSnapshotCall(name, w.deleteSnapshot))
           + if w.restore.None? then 0
             else Weigh(q, RestoreCall(name, w.restore)) + Weigh(q, DeleteCall(w.restore.value, w.deleteFollowUp))
  }

  lemma {:induction false} WeightsAreChange(q: Quantity, id: string, name: nat, w: World)
    requires w.create == Some(id)
    ensures Weights(q, id, name, w) == Change(q, name, w)
  {
    match q
    case HandedOut(_) =>
    case AskedBack(_) =>
    case Running(_) =>
    case Stored(_) =>
    case Saved(_) =>
    case DeletionAsked(_) =>
  }

  lemma {:induction false} IterationWeights(q: Quantity, id: string, name: nat, w: World)
    requires w.create == Some(id)
    ensures Total(q, IterationCalls(name, w)) == Weights(q, id, name, w)
  {
    TotalCons(q, CreateCall(w.create), CommandCalls(id, name, w));
    CommandTotal(q, id, name, w);
    if Reached(SaveSnapshot, w) {
      SaveTotal(q, id, name, w);
      if Reached(RestoreSnapshot, w) {
        RestoreTotal(q, name, w);
      }
    }
  }

  lemma {:induction false} IterationTotal(q: Quantity, name: nat, w: World)
    ensures Total(q, IterationCalls(name, w)) == Change(q, name, w)
  {
    if w.create.None? {
      assert IterationCalls(name, w) == [CreateCall(w.create)];
      TotalOne(q, CreateCall(w.create));
    } else {
      IterationWeights(q, w.create.value, name, w);
      WeightsAreChange(q, w.create.value, name, w);
    }
  }

  /** A quantity over a whole run is the sum of its changes. */
  lemma {:induction false} RunTotal(q: Quantity, worlds: seq<World>)
    requires worlds != []
    ensures var n := |worlds| - 1;
      Total(q, Soaking(worlds).log) == Total(q, Soaking(worlds[..n]).log) + Change(q, Clamp(|worlds|, U64_MAX), worlds[n])
  {
    var n, name := |worlds| - 1, Clamp(|worlds|, U64_MAX);
    IterationLog(Soaking(worlds[..n]), name, worlds[n]);
    TotalConcat(q, Soaking(worlds[..n]).log, IterationCalls(name, worlds[n]));
    IterationTotal(q, name, worlds[n]);
  }

  /** On every run, for every id the backend ever used: as many deletions are asked for as sandboxes were
      handed out. */
  lemma {:induction false} EverySandboxIsAskedBack(worlds: seq<World>, id: string)
    ensures Total(AskedBack(id), Soaking(worlds).log) == Total(HandedOut(id), Soaking(worlds).log)
  {
    if worlds != [] {
      RunTotal(AskedBack(id), worlds);
      RunTotal(HandedOut(id), worlds);
      EverySandboxIsAskedBack(worlds[..|worlds| - 1], id);
    }
  }

  /** Nothing of the run is left on the backend. */
  ghost predicate NothingLeft(worlds: seq<World>) {
    && (forall id :: Total(Running(id), Soaking(worlds).log) == 0)
    && (forall name :: Total(Stored(name), Soaking(worlds).log) == 0)
  }

  lemma {:induction false} TotalsStayUp(q: Quantity, worlds: seq<World>)
    ensures Total(q, Soaking(worlds).log) >= 0
  {
    if worlds != [] {
      RunTotal(q, worlds);
      TotalsStayUp(q, worlds[..|worlds| - 1]);
    }
  }

  /** A failed cleanup leaves something that is counted. */
  lemma {:induction false} FailureLeavesSomething(name: nat, w: World) returns (q: Quantity)
    requires Fails(Cleanup, w)
    ensures (q.Running? || q.Stored?) && Change(q, name, w) > 0
  {
    if w.create.Some? && !w.deleteSource {
      q := Running(w.create.value);
    } else if Reached(FollowUpPrompt, w) && !w.deleteFollowUp {
      q := Running(w.restore.value);
    } else {
      q := Stored(name);
    }
  }

  /** A clean iteration changes nothing that is left. */
  lemma {:induction false} CleanIterationLeavesAll(q: Quantity, worlds: seq<World>)
    requires worlds != [] && !Fails(Cleanup, worlds[|worlds| - 1]) && (q.Running? || q.Stored?)
    ensures Total(q, Soaking(worlds).log) == Total(q, Soaking(worlds[..|worlds| - 1]).log)
  {
    RunTotal(q, worlds);
    CleanChangesNothing(q, Clamp(|worlds|, U64_MAX), worlds[|worlds| - 1]);
  }

  lemma CleanChangesNothing(q: Quantity, name: nat, w: World)
    requires !Fails(Cleanup, w) && (q.Running? || q.Stored?)
    ensures Change(q, name, w) == 0
  {
  }

  lemma {:induction false} NothingLeftIffNoFailure(worlds: seq<World>)
    ensures NothingLeft(worlds) <==> Failures(Cleanup, worlds) == 0
  {
    if worlds != [] {
      var n := |worlds| - 1;
      var earlier, w := worlds[..n], worlds[n];
      if Fails(Cleanup, w) {
        var q := FailureLeavesSomething(Clamp(|worlds|, U64_MAX), w);
        RunTotal(q, worlds);
        TotalsStayUp(q, earlier);
        assert Total(q, Soaking(worlds).log) > 0;
      } else {
        NothingLeftIffNoFailure(earlier);
        forall id ensures Total(Running(id), Soaking(worlds).log) == Total(Running(id), Soaking(earlier).log) {
          CleanIterationLeavesAll(Running(id), worlds);
        }
        forall m ensures Total(Stored(m), Soaking(worlds).log) == Total(Stored(m), Soaking(earlier).log) {
          CleanIterationLeavesAll(Stored(m), worlds);
        }
      }
    }
  }

  /** On every run: no cleanup is recorded as failed if and only if the backend ends up holding no
      sandbox and no snapshot of the run. */
  lemma {:induction false} CleanIffNothingLeft(worlds: seq<World>)
    ensures Soaking(worlds).steps[Index(Cleanup)].failures == 0 <==> NothingLeft(worlds)
  {
    CountersAreExact(worlds, Cleanup);
    NothingLeftIffNoFailure(worlds);
  }

  /** The fate of a saved snapshot: its deletion is asked for if and only if the source sandbox could be
      deleted first, and it stays behind if and only if either deletion failed. A stuck source therefore
      costs the snapshot too, whatever the backend would have answered. */
  lemma {:induction false} SavedSnapshotFate(name: nat, w: World)
    requires Reached(SaveSnapshot, w) && w.save
    ensures (exists ok :: DeleteSnapshotCall(name, ok) in IterationCalls(name, w)) <==> w.deleteSource
    ensures Total(Stored(name), IterationCalls(name, w)) == One(!w.deleteSource || !w.deleteSnapshot)
  {
    IterationTotal(Stored(name), name, w);
    var id, drop := w.create.value, DeleteSnapshotCall(name, w.deleteSnapshot);
    if w.deleteSource {
      assert drop in CleanupCalls(None, w.restore, Some(name), w);
      assert drop in RestoreCalls(name, w);
      assert drop in SaveCalls(id, name, w);
      assert drop in CommandCalls(id, name, w);
      assert drop in IterationCalls(name, w);
    } else {
      assert SaveCalls(id, name, w) == [SaveCall(name, true), DeleteCall(id, false)];
      assert CommandCalls(id, name, w) == [CommandCall(true), WriteCall(true)] + SaveCalls(id, name, w);
      assert IterationCalls(name, w) == [CreateCall(w.create)] + CommandCalls(id, name, w);
    }
  }

  /** In how many iterations a snapshot counted by `only` was saved and its source then got stuck. The
      iterations are numbered from one, with saturation. */
  function StuckAt(only: Option<nat>, worlds: seq<World>): nat {
    if worlds == [] then 0
    else StuckAt(only, worlds[..|worlds| - 1])
         + One(Stuck(worlds[|worlds| - 1]) && Matches(only, Clamp(|worlds|, U64_MAX)))
  }

  lemma {:induction false} StuckAtAnyName(worlds: seq<World>)
    ensures StuckAt(None, worlds) == SourceStuck(worlds)
  {
    if worlds != [] {
      StuckAtAnyName(worlds[..|worlds| - 1]);
    }
  }

  /** On every run, over all names and for each name: deletions are asked for as many snapshots as were
      saved, less those whose source got stuck. */
  lemma {:induction false} SnapshotsAskedBack(worlds: seq<World>, only: Option<nat>)
    ensures Total(DeletionAsked(only), Soaking(worlds).log) == Total(Saved(only), Soaking(worlds).log) - StuckAt(only, worlds)
    ensures Total(DeletionAsked(None), Soaking(worlds).log) == Total(Saved(None), Soaking(worlds).log) - SourceStuck(worlds)
  {
    SnapshotsAskedBackOnly(worlds, only);
    SnapshotsAskedBackOnly(worlds, None);
    StuckAtAnyName(worlds);
  }

  lemma {:induction false} SnapshotsAskedBackOnly(worlds: seq<World>, only: Option<nat>)
    ensures Total(DeletionAsked(only), Soaking(worlds).log) == Total(Saved(only), Soaking(worlds).log) - StuckAt(only, worlds)
  {
    if worlds != [] {
      RunTotal(DeletionAsked(only), worlds);
      RunTotal(Saved(only), worlds);
      SnapshotsAskedBackOnly(worlds[..|worlds| - 1], only);
      SnapshotChanges(only, Clamp(|worlds|, U64_MAX), worlds[|worlds| - 1]);
    }
  }

  lemma SnapshotChanges(only: Option<nat>, name: nat, w: World)
    ensures Change(DeletionAsked(only), name, w) == Change(Saved(only), name, w) - One(Stuck(w) && Matches(only, name))
  {
  }
}
