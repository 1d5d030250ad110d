/** Starting container processes: the bounded retry of one start, and the gate of permits that all
    containers of a pod share. */
module StartGate {

  const START_ATTEMPTS: nat := 3

  // ---------- one container's retry loop ----------

  datatype Reply = Started(pid: int) | Failed(reason: string)

  predicate Contains(text: string, part: string) {
    part <= text || (text != [] && Contains(text[1..], part))
  }

  /** `part` stands at position `k` of the text. */
  predicate StandsAt(text: string, part: string, k: nat) {
    k + |part| <= |text| && text[k..k + |part|] == part
  }

  /** Containing a part is having it at some position, wherever that is. */
  lemma {:induction false} ContainsIff(text: string, part: string)
    ensures Contains(text, part) <==> exists k: nat :: StandsAt(text, part, k)
  {
    if part <= text {
      assert StandsAt(text, part, 0);
    } else if text != [] {
      ContainsIff(text[1..], part);
      forall k: nat ensures StandsAt(text[1..], part, k) <==> StandsAt(text, part, k + 1) {
      }
      if k: nat :| StandsAt(text, part, k) {
        assert k > 0;
        assert StandsAt(text[1..], part, k - 1);
      }
    }
  }

  predicate IsTransient(reply: Reply) {
    reply.Failed? && Contains(reply.reason, "vmexec error")
    && (Contains(reply.reason, "No such file or directory") || Contains(reply.reason, "ENOENT"))
  }

  /** A failure is transient if and only if its reason shows the missing executable, in either wording,
      under a vmexec error, at whatever positions. A start never is. */
  lemma {:induction false} TransientIff(reply: Reply)
    ensures IsTransient(reply) <==>
      && reply.Failed?
      && (exists k: nat :: StandsAt(reply.reason, "vmexec error", k))
      && (exists k: nat :: StandsAt(reply.reason, "No such file or directory", k) || StandsAt(reply.reason, "ENOENT", k))
  {
    if reply.Failed? {
      ContainsIff(reply.reason, "vmexec error");
      ContainsIff(reply.reason, "No such file or directory");
      ContainsIff(reply.reason, "ENOENT");
    }
  }

  /** The replies one start sees, from the first to the one it stops at: at most three, all but the last
      transient, and the last one transient only as the third. */
  ghost predicate Complete(replies: seq<Reply>) {
    && 1 <= |replies| <= START_ATTEMPTS
    && (forall i :: 0 <= i < |replies| - 1 ==> IsTransient(replies[i]))
    && (|replies| == START_ATTEMPTS || !IsTransient(replies[|replies| - 1]))
  }

  /** The loop could not have stopped at another reply. */
  lemma {:induction false} CompleteIsUnique(a: seq<Reply>, b: seq<Reply>)
    requires Complete(a) && Complete(b) && a <= b
    ensures a == b
  {
    if |a| < |b| {
      assert IsTransient(b[|a| - 1]);
    }
  }

  /** Sum of the first `n` durations. */
  function Elapsed(durations: nat -> nat, n: nat): nat {
    if n == 0 then 0 else Elapsed(durations, n - 1) + durations(n - 1)
  }

  /** No wait is left out or counted twice, for as many attempts as there can be. */
  lemma {:induction false} ElapsedCoversEach(durations: nat -> nat)
    ensures Elapsed(durations, 1) == durations(0)
    ensures Elapsed(durations, 2) == durations(0) + durations(1)
    ensures Elapsed(durations, 3) == durations(0) + durations(1) + durations(2)
  {
    assert Elapsed(durations, 0) == 0;
    assert Elapsed(durations, 1) == Elapsed(durations, 0) + durations(0);
    assert Elapsed(durations, 2) == Elapsed(durations, 1) + durations(1);
  }

  /** Stops at the first reply that is not transient, and after three attempts whatever the reply. The
      reported waits cover every attempt made. `reply`, `gateWait` and `rpcTime` give what happens on
      the attempts, counted from zero. */
  method StartWithRetry(reply: nat -> Reply, gateWait: nat -> nat, rpcTime: nat -> nat)
    returns (result: Reply, attempts: nat, startGateWait: nat, startProcessRpc: nat)
    ensures Complete(seq(attempts, i requires 0 <= i => reply(i)))
    ensures attempts > 0 && result == reply(attempts - 1)
    ensures startGateWait == Elapsed(gateWait, attempts) && startProcessRpc == Elapsed(rpcTime, attempts)
  {
    attempts := 1;
    startGateWait, startProcessRpc := 0, 0;
    while true
      invariant 1 <= attempts <= START_ATTEMPTS
      invariant forall i :: 0 <= i < attempts - 1 ==> IsTransient(reply(i))
      invariant startGateWait == Elapsed(gateWait, attempts - 1) && startProcessRpc == Elapsed(rpcTime, attempts - 1)
      decreases START_ATTEMPTS - attempts
    {
      startGateWait := startGateWait + gateWait(attempts - 1);
      result := reply(attempts - 1);
      startProcessRpc := startProcessRpc + rpcTime(attempts - 1);
      if result.Started? {
        return;
      }
      if attempts < START_ATTEMPTS && IsTransient(result) {
        attempts := attempts + 1;
      } else {
        return;
      }
    }
  }

  // ---------- the shared gate ----------

  /** Where a container is in the loop: waiting for a permit, granted one, with its start call out, about
      to retry after a transient failure, sleeping before the retry, or done. */
  datatype Phase = Waiting | Granted | Starting | Retrying | Sleeping | Finished

  /** `permit` is whether it holds a permit, `rpcs` how many start calls it has issued. */
  datatype Proc = Proc(phase: Phase, permit: bool, attempt: nat, rpcs: nat)

  datatype Gate = Gate(free: nat, procs: seq<Proc>)

  datatype Action =
    | Acquire(i: nat)
    | Call(i: nat)
    | Answer(i: nat, reply: Reply)
    | Release(i: nat)
    | Wake(i: nat)
    | Abandon(i: nat)

  function Opened(permits: nat, containers: nat): Gate {
    Gate(permits, seq(containers, _ => Proc(Waiting, false, 1, 0)))
  }

  predicate Enabled(g: Gate, a: Action) {
    && a.i < |g.procs|
    && match a {
         case Acquire(i) => g.procs[i].phase.Waiting? && g.free > 0
         case Call(i) => g.procs[i].phase.Granted?
         case Answer(i, _) => g.procs[i].phase.Starting?
         case Release(i) => g.procs[i].phase.Retrying?
         case Wake(i) => g.procs[i].phase.Sleeping?
         case Abandon(i) => !g.procs[i].phase.Finished?
       }
  }

  /** Gives back what the container holds, as dropping its permit does, and moves it to `phase`. */
  function Dropped(g: Gate, i: nat, phase: Phase, attempt: nat): Gate
    requires i < |g.procs|
  {
    var p := g.procs[i];
    Gate(g.free + (if p.permit then 1 else 0), g.procs[i := Proc(phase, false, attempt, p.rpcs)])
  }

  /** One step of one container. The permit is taken before the call; a returning or abandoned start drops
      it, and a retry drops it explicitly before it counts the attempt and sleeps. */
  function Next(g: Gate, a: Action): Gate
    requires Enabled(g, a)
  {
    var p := g.procs[a.i];
    match a
    case Acquire(i) => Gate(g.free - 1, g.procs[i := Proc(Granted, true, p.attempt, p.rpcs)])
    case Call(i) => g.(procs := g.procs[i := Proc(Starting, p.permit, p.attempt, p.rpcs + 1)])
    case Answer(i, reply) =>
      if reply.Failed? && p.attempt < START_ATTEMPTS && IsTransient(reply)
      then g.(procs := g.procs[i := p.(phase := Retrying)])
      else Dropped(g, i, Finished, p.attempt)
    case Release(i) => Dropped(g, i, Sleeping, p.attempt + 1)
    case Wake(i) => g.(procs := g.procs[i := p.(phase := Waiting)])
    case Abandon(i) => Dropped(g, i, Finished, p.attempt)
  }

  function Holds(p: Proc): nat {
    if p.permit then 1 else 0
  }

  /** Permits held by all containers. */
  function Held(procs: seq<Proc>): nat {
    if procs == [] then 0 else Holds(procs[0]) + Held(procs[1..])
  }

  /** Start calls out and not yet answered. */
  function InFlight(procs: seq<Proc>): nat {
    if procs == [] then 0 else (if procs[0].phase.Starting? then 1 else 0) + InFlight(procs[1..])
  }

  /** `g'` is reached from `g` by the actions, each enabled when taken. */
  ghost predicate Reaches(g: Gate, actions: seq<Action>, g': Gate)
    decreases actions
  {
    if actions == [] then g == g'
    else Enabled(g, actions[0]) && Reaches(Next(g, actions[0]), actions[1..], g')
  }

  /** Permit and calls fit the place the container is at. */
  predicate Counted(p: Proc) {
    && 1 <= p.attempt <= START_ATTEMPTS
    && match p.phase {
         case Waiting => !p.permit && p.rpcs == p.attempt - 1
         case Granted => p.permit && p.rpcs == p.attempt - 1
         case Starting => p.permit && p.rpcs == p.attempt
         case Retrying => p.permit && p.rpcs == p.attempt < START_ATTEMPTS
         case Sleeping => !p.permit && p.rpcs == p.attempt - 1
         case Finished => !p.permit && p.rpcs <= p.attempt
       }
  }

  ghost predicate Sound(g: Gate, permits: nat) {
    && g.free + Held(g.procs) == permits
    && forall i :: 0 <= i < |g.procs| ==> Counted(g.procs[i])
  }

  lemma {:induction false} HeldUpdate(procs: seq<Proc>, i: nat, p: Proc)
    requires i < |procs|
    ensures Held(procs[i := p]) + Holds(procs[i]) == Held(procs) + Holds(p)
  {
    if i == 0 {
      assert procs[0 := p][1..] == procs[1..];
    } else {
      assert procs[i := p][1..] == procs[1..][i - 1 := p];
      HeldUpdate(procs[1..], i - 1, p);
    }
  }

  lemma {:induction false} StepIsSound(g: Gate, a: Action, permits: nat)
    requires Enabled(g, a) && Sound(g, permits)
    ensures Sound(Next(g, a), permits)
  {
    HeldUpdate(g.procs, a.i, Next(g, a).procs[a.i]);
  }

  lemma {:induction false} OpenedIsSound(permits: nat, containers: nat)
    ensures Sound(Opened(permits, containers), permits)
  {
    NoneHeld(Opened(permits, containers).procs);
  }

  lemma {:induction false} NoneHeld(procs: seq<Proc>)
    ensures Held(procs) == 0 <==> forall i :: 0 <= i < |procs| ==> !procs[i].permit
  {
    if procs != [] {
      NoneHeld(procs[1..]);
      assert forall i :: 0 < i < |procs| ==> procs[i] == procs[1..][i - 1];
    }
  }

  /** A call is only out under a permit. */
  lemma {:induction false} CallsNeedPermits(procs: seq<Proc>)
    requires forall i :: 0 <= i < |procs| ==> Counted(procs[i])
    ensures InFlight(procs) <= Held(procs)
  {
    if procs != [] {
      CallsNeedPermits(procs[1..]);
    }
  }

  lemma {:induction false} RunIsSound(g: Gate, actions: seq<Action>, g': Gate, permits: nat)
    requires Reaches(g, actions, g') && Sound(g, permits)
    ensures Sound(g', permits) && |g'.procs| == |g.procs|
    decreases actions
  {
    if actions != [] {
      StepIsSound(g, actions[0], permits);
      RunIsSound(Next(g, actions[0]), actions[1..], g', permits);
    }
  }

  /** In every state any interleaving reaches: free and held permits add up; no more start calls are out
      than permits are held; no container holds a permit while it waits, sleeps or is done, and none has
      issued more than three calls; once every container is done all permits are free. */
  lemma {:induction false} EveryInterleavingIsSound(permits: nat, containers: nat, actions: seq<Action>, g: Gate)
    requires Reaches(Opened(permits, containers), actions, g)
    ensures |g.procs| == containers
    ensures g.free + Held(g.procs) == permits
    ensures InFlight(g.procs) <= Held(g.procs) <= permits
    ensures forall i :: 0 <= i < |g.procs| ==>
              && g.procs[i].rpcs <= START_ATTEMPTS
              && (g.procs[i].phase.Starting? ==> g.procs[i].permit)
              && (g.procs[i].phase.Sleeping? || g.procs[i].phase.Waiting? || g.procs[i].phase.Finished? ==> !g.procs[i].permit)
    ensures (forall i :: 0 <= i < |g.procs| ==> g.procs[i].phase.Finished?) ==> g.free == permits
  {
    OpenedIsSound(permits, containers);
    RunIsSound(Opened(permits, containers), actions, g, permits);
    CallsNeedPermits(g.procs);
    NoneHeld(g.procs);
  }

  // ---------- one container in any interleaving ----------

  /** The steps of container `i`, in order. */
  function StepsOf(actions: seq<Action>, i: nat): seq<Action> {
    if actions == [] then []
    else StepsOf(actions[..|actions| - 1], i) + if actions[|actions| - 1].i == i then [actions[|actions| - 1]] else []
  }

  /** What the `n`-th step of a container is: round after round of taking a permit, calling, hearing the
      answer, giving the permit back and sleeping. */
  predicate InTurn(a: Action, n: nat) {
    match a
    case Acquire(_) => n % 5 == 0
    case Call(_) => n % 5 == 1
    case Answer(_, _) => n % 5 == 2
    case Release(_) => n % 5 == 3
    case Wake(_) => n % 5 == 4
    case Abandon(_) => true
  }

  /** The answers among a container's steps. */
  function AnswersIn(steps: seq<Action>): seq<Reply> {
    if steps == [] then []
    else AnswersIn(steps[..|steps| - 1]) + if steps[|steps| - 1].Answer? then [steps[|steps| - 1].reply] else []
  }

  /** Steps come in turn, and giving up is the last one. */
  ghost predicate Turns(steps: seq<Action>) {
    forall j :: 0 <= j < |steps| ==> InTurn(steps[j], j) && (steps[j].Abandon? ==> j == |steps| - 1)
  }

  predicate GivenUp(steps: seq<Action>) {
    steps != [] && steps[|steps| - 1].Abandon?
  }

  ghost predicate AllTransient(replies: seq<Reply>) {
    forall j :: 0 <= j < |replies| ==> IsTransient(replies[j])
  }

  /** How many steps a container has taken at a place, and what it has heard. */
  ghost predicate Placed(p: Proc, n: nat, answers: seq<Reply>) {
    var before := 5 * (p.attempt - 1);
    && p.rpcs == |answers| + (if p.phase.Starting? then 1 else 0)
    && match p.phase {
         case Waiting => n == before && |answers| == p.attempt - 1 && AllTransient(answers)
         case Granted => n == before + 1 && |answers| == p.attempt - 1 && AllTransient(answers)
         case Starting => n == before + 2 && |answers| == p.attempt - 1 && AllTransient(answers)
         case Retrying => n == before + 3 && |answers| == p.attempt && AllTransient(answers)
         case Sleeping => n == before - 1 && |answers| == p.attempt - 1 && AllTransient(answers)
         case Finished => n == before + 3 && |answers| == p.attempt && Complete(answers)
       }
  }

  /** A container's place and the answers it heard follow from its own steps alone. */
  ghost predicate Follows(p: Proc, steps: seq<Action>) {
    && Turns(steps)
    && if GivenUp(steps) then p.phase.Finished? && |AnswersIn(steps)| < START_ATTEMPTS && AllTransient(AnswersIn(steps))
       else Placed(p, |steps|, AnswersIn(steps))
  }

  lemma StepPlaced(g: Gate, a: Action, n: nat, answers: seq<Reply>)
    requires Enabled(g, a) && Counted(g.procs[a.i]) && Placed(g.procs[a.i], n, answers) && !a.Abandon?
    ensures InTurn(a, n)
    ensures Placed(Next(g, a).procs[a.i], n + 1, if a.Answer? then answers + [a.reply] else answers)
  {
  }

  lemma TurnsSnoc(steps: seq<Action>, a: Action)
    requires Turns(steps) && InTurn(a, |steps|) && !GivenUp(steps)
    ensures Turns(steps + [a])
  {
  }

  /** Whoever has given up or is not done has not heard all of a start. */
  lemma FollowsWhenDone(p: Proc, steps: seq<Action>)
    requires Counted(p) && Follows(p, steps)
    ensures var answers := AnswersIn(steps);
      && (p.phase.Finished? <==> GivenUp(steps) || Complete(answers))
      && (GivenUp(steps) || !p.phase.Finished? ==> |answers| < START_ATTEMPTS && AllTransient(answers))
      && (!GivenUp(steps) ==> p.rpcs == |answers| + if p.phase.Starting? then 1 else 0)
  {
  }

  lemma {:induction false} AbandonFollows(g: Gate, i: nat, steps: seq<Action>)
    requires Enabled(g, Abandon(i)) && Counted(g.procs[i]) && Follows(g.procs[i], steps)
    ensures Follows(Next(g, Abandon(i)).procs[i], steps + [Abandon(i)])
  {
    FollowsWhenDone(g.procs[i], steps);
    assert !GivenUp(steps) && |AnswersIn(steps)| < START_ATTEMPTS && AllTransient(AnswersIn(steps));
    TurnsSnoc(steps, Abandon(i));
  }

  lemma {:induction false} StepFollows(g: Gate, a: Action, steps: seq<Action>)
    requires Enabled(g, a) && Counted(g.procs[a.i]) && Follows(g.procs[a.i], steps)
    ensures Follows(Next(g, a).procs[a.i], steps + [a])
  {
    if a.Abandon? {
      AbandonFollows(g, a.i, steps);
    } else {
      assert !GivenUp(steps);
      StepPlaced(g, a, |steps|, AnswersIn(steps));
      TurnsSnoc(steps, a);
    }
  }

  lemma {:induction false} StepsConcat(before: seq<Action>, actions: seq<Action>, i: nat)
    requires actions != []
    ensures StepsOf(before + [actions[0]], i) == StepsOf(before, i) + if actions[0].i == i then [actions[0]] else []
    ensures before + actions == before + [actions[0]] + actions[1..]
  {
    assert (before + [actions[0]])[..|before|] == before;
  }

  lemma {:induction false} RunFollows(g: Gate, before: seq<Action>, actions: seq<Action>, g': Gate, permits: nat, i: nat)
    requires Reaches(g, actions, g') && Sound(g, permits) && i < |g.procs| && Follows(g.procs[i], StepsOf(before, i))
    ensures i < |g'.procs| && Follows(g'.procs[i], StepsOf(before + actions, i))
    decreases actions
  {
    if actions == [] {
      assert before + [] == before;
    } else {
      var a := actions[0];
      StepIsSound(g, a, permits);
      StepsConcat(before, actions, i);
      if a.i == i {
        StepFollows(g, a, StepsOf(before, i));
      } else {
        assert StepsOf(before, i) + [] == StepsOf(before, i);
      }
      RunFollows(Next(g, a), before + [a], actions[1..], g', permits, i);
    }
  }

  /** In every interleaving each container runs its own retry loop, whatever the others do. Its steps come
      in turn: permit, call, answer, release, sleep, and again. It is done if and only if the answers it
      heard are those a whole start sees, or it gave up; and until it is done every answer it heard was a
      transient failure, fewer than three. */
  lemma {:induction false} EveryContainerRetries(permits: nat, containers: nat, actions: seq<Action>, g: Gate, i: nat)
    requires Reaches(Opened(permits, containers), actions, g) && i < containers
    ensures i < |g.procs|
    ensures var steps := StepsOf(actions, i);
      var answers := AnswersIn(steps);
      && Turns(steps)
      && (g.procs[i].phase.Finished? <==> GivenUp(steps) || Complete(answers))
      && (GivenUp(steps) || !g.procs[i].phase.Finished? ==> |answers| < START_ATTEMPTS && AllTransient(answers))
      && (!GivenUp(steps) ==> g.procs[i].rpcs == |answers| + if g.procs[i].phase.Starting? then 1 else 0)
  {
    OpenedIsSound(permits, containers);
    RunIsSound(Opened(permits, containers), actions, g, permits);
    RunFollows(Opened(permits, containers), [], actions, g, permits, i);
    assert [] + actions == actions;
    FollowsWhenDone(g.procs[i], StepsOf(actions, i));
  }

  // ---------- every run ends, and none gets stuck ----------

  /** Steps a container can still take. */
  function Remaining(p: Proc): nat
    requires Counted(p)
  {
    var later := 5 * (START_ATTEMPTS - p.attempt);
    match p.phase
    case Finished => 0
    case Starting => later + 1
    case Granted => later + 2
    case Waiting => later + 3
    case Sleeping => later + 4
    case Retrying => later
  }

  function StepsLeft(procs: seq<Proc>): nat
    requires forall i :: 0 <= i < |procs| ==> Counted(procs[i])
  {
    if procs == [] then 0 else Remaining(procs[0]) + StepsLeft(procs[1..])
  }

  lemma {:induction false} StepsLeftUpdate(procs: seq<Proc>, i: nat, p: Proc)
    requires i < |procs| && Counted(p) && forall j :: 0 <= j < |procs| ==> Counted(procs[j])
    ensures StepsLeft(procs[i := p]) + Remaining(procs[i]) == StepsLeft(procs) + Remaining(p)
  {
    if i == 0 {
      assert procs[0 := p][1..] == procs[1..];
    } else {
      assert procs[i := p][1..] == procs[1..][i - 1 := p];
      StepsLeftUpdate(procs[1..], i - 1, p);
    }
  }

  lemma {:induction false} StepsDecrease(g: Gate, a: Action, permits: nat)
    requires Enabled(g, a) && Sound(g, permits)
    ensures Sound(Next(g, a), permits)
    ensures StepsLeft(Next(g, a).procs) < StepsLeft(g.procs)
  {
    StepIsSound(g, a, permits);
    var p := Next(g, a).procs[a.i];
    StepsLeftUpdate(g.procs, a.i, p);
    assert Next(g, a).procs == g.procs[a.i := p];
  }

  lemma {:induction false} RunIsShort(g: Gate, actions: seq<Action>, g': Gate, permits: nat)
    requires Reaches(g, actions, g') && Sound(g, permits)
    ensures |actions| <= StepsLeft(g.procs)
    decreases actions
  {
    if actions != [] {
      StepsDecrease(g, actions[0], permits);
      RunIsShort(Next(g, actions[0]), actions[1..], g', permits);
    }
  }

  lemma {:induction false} FreshSteps(procs: seq<Proc>)
    requires forall i :: 0 <= i < |procs| ==> procs[i] == Proc(Waiting, false, 1, 0)
    ensures StepsLeft(procs) == 13 * |procs|
  {
    if procs != [] {
      FreshSteps(procs[1..]);
    }
  }

  /** No interleaving is longer than thirteen steps per container. */
  lemma {:induction false} EveryInterleavingEnds(permits: nat, containers: nat, actions: seq<Action>, g: Gate)
    requires Reaches(Opened(permits, containers), actions, g)
    ensures |actions| <= 13 * containers
  {
    OpenedIsSound(permits, containers);
    RunIsShort(Opened(permits, containers), actions, g, permits);
    FreshSteps(Opened(permits, containers).procs);
  }

  /** The step an unfinished container takes next, if the gate lets it. */
  function NextOf(g: Gate, i: nat): Action
    requires i < |g.procs| && !g.procs[i].phase.Finished?
  {
    match g.procs[i].phase
    case Waiting => Acquire(i)
    case Granted => Call(i)
    case Starting => Answer(i, Started(0))
    case Retrying => Release(i)
    case Sleeping => Wake(i)
  }

  /** With at least one permit, as long as a container has not finished some container can go on, without
      any start being abandoned. With none, nobody ever starts. */
  lemma {:induction false} NeverStuck(permits: nat, containers: nat, actions: seq<Action>, g: Gate, i: nat)
    requires Reaches(Opened(permits, containers), actions, g)
    requires i < |g.procs| && !g.procs[i].phase.Finished?
    ensures permits > 0 ==> exists a: Action :: Enabled(g, a) && !a.Abandon?
    ensures permits == 0 ==> g.procs[i].phase.Waiting? && !Enabled(g, Acquire(i))
  {
    EveryInterleavingIsSound(permits, containers, actions, g);
    OpenedIsSound(permits, containers);
    RunIsSound(Opened(permits, containers), actions, g, permits);
    NoneHeld(g.procs);
    if permits > 0 {
      if j :| 0 <= j < |g.procs| && g.procs[j].permit {
        assert Enabled(g, NextOf(g, j));
      } else {
        assert Enabled(g, NextOf(g, i));
      }
    } else {
      ShutGate(Opened(0, containers), actions, g);
    }
  }

  /** With no permits a container only ever waits or gives up. */
  lemma {:induction false} ShutGate(g: Gate, actions: seq<Action>, g': Gate)
    requires Reaches(g, actions, g') && g.free == 0
    requires forall i :: 0 <= i < |g.procs| ==> !g.procs[i].permit && (g.procs[i].phase.Waiting? || g.procs[i].phase.Finished?)
    ensures g'.free == 0
    ensures forall i :: 0 <= i < |g'.procs| ==> g'.procs[i].phase.Waiting? || g'.procs[i].phase.Finished?
    decreases actions
  {
    if actions != [] {
      ShutGate(Next(g, actions[0]), actions[1..], g');
    }
  }
}
