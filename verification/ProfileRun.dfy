/** A whole summary: every sample of every selected thread, walked, filtered and counted once for the
    run and once for each stage of the run it falls into. */
module ProfileRun {
  import opened Wrappers
  import opened StackWalk
  import opened ProfileSummary

  datatype Stage = Stage(name: string, start: real, end: real)

  predicate InStage(stage: Stage, time: Option<real>) {
    time.Some? && stage.start <= time.value <= stage.end
  }

  /** One thread's sample columns; the weight and time columns may be missing (empty) or short. */
  datatype Thread = Thread(table: StackTable, stacks: seq<Option<int>>, weights: seq<Option<real>>, times: seq<Option<real>>)

  /** How frames are resolved, filtered and named; `resolve` takes the thread's position too. */
  datatype Naming<!F, !K> = Naming(resolve: (nat, int) -> F, shown: F -> bool, key: F -> K)

  /** A sample ready to count: its filtered keys from leaf to root, its weight and its time. */
  datatype Sample<K> = Sample(stack: seq<K>, weight: real, time: Option<real>)

  function EffectiveWeight(weight: Option<real>): (w: real)
    ensures w != 0.0
  {
    if weight.None? || weight.value == 0.0 then 1.0 else weight.value
  }

  /** A column, or a constant one as long as the stacks when it is missing. */
  function Column(values: seq<Option<real>>, missing: Option<real>, n: nat): seq<Option<real>> {
    if values == [] then seq(n, _ => missing) else values
  }

  function Min(a: nat, b: nat): nat {
    if a < b then a else b
  }

  /** Zipping stops at the shortest column. */
  function SampleCount(t: Thread): (count: nat)
    ensures count <= |t.stacks|
  {
    var n := |t.stacks|;
    Min(n, Min(|Column(t.weights, Some(1.0), n)|, |Column(t.times, None, n)|))
  }

  function FilteredKeys<F, K>(frames: seq<F>, shown: F -> bool, key: F -> K): seq<K> {
    if frames == [] then []
    else FilteredKeys(frames[..|frames| - 1], shown, key)
         + if shown(frames[|frames| - 1]) then [key(frames[|frames| - 1])] else []
  }

  function FramesAt<F, K>(t: Thread, index: nat, stack: Option<int>, naming: Naming<F, K>): seq<F> {
    FramesFrom(t.table, stack, {}, f => naming.resolve(index, f))
  }

  function StackOf<F, K>(t: Thread, index: nat, stack: Option<int>, naming: Naming<F, K>): seq<K> {
    FilteredKeys(FramesAt(t, index, stack, naming), naming.shown, naming.key)
  }

  function SampleAt<F, K>(t: Thread, index: nat, i: nat, naming: Naming<F, K>): Sample<K>
    requires i < SampleCount(t)
  {
    Sample(StackOf(t, index, t.stacks[i], naming),
           EffectiveWeight(Column(t.weights, Some(1.0), |t.stacks|)[i]),
           Column(t.times, None, |t.stacks|)[i])
  }

  /** The first `n` samples of a thread. */
  function ThreadSamples<F, K>(t: Thread, index: nat, n: nat, naming: Naming<F, K>): seq<Sample<K>>
    requires n <= SampleCount(t)
  {
    if n == 0 then [] else ThreadSamples(t, index, n - 1, naming) + [SampleAt(t, index, n - 1, naming)]
  }

  /** The samples of the selected threads among the first `n`, in order. */
  function Samples<F, K>(threads: seq<Thread>, n: nat, selected: Thread -> bool, naming: Naming<F, K>): seq<Sample<K>>
    requires n <= |threads|
  {
    if n == 0 then []
    else Samples(threads, n - 1, selected, naming)
         + if selected(threads[n - 1]) then ThreadSamples(threads[n - 1], n - 1, SampleCount(threads[n - 1]), naming) else []
  }

  // ---------- the summary ----------

  datatype Summary<K, G> = Summary(
    samples: nat, weight: real, counters: Counters<K, G>,
    stages: map<string, Counters<K, G>>, stageWeight: map<string, real>)

  function StageCounters<K, G>(s: Summary<K, G>, name: string): Counters<K, G> {
    if name in s.stages then s.stages[name] else Nothing()
  }

  function Staged<K(==), G(==)>(s: Summary<K, G>, hit: Hit<K>, name: string, group: K -> G): Summary<K, G>
    requires hit.stack != []
  {
    s.(stages := s.stages[name := Recorded(StageCounters(s, name), hit, group)],
       stageWeight := Bump(s.stageWeight, name, hit.weight))
  }

  /** Counts a hit into the first `n` stages it falls into, in order. */
  function StagedAll<K(==), G(==)>(s: Summary<K, G>, hit: Hit<K>, time: Option<real>, stages: seq<Stage>, n: nat, group: K -> G)
    : Summary<K, G>
    requires hit.stack != [] && n <= |stages|
  {
    if n == 0 then s
    else
      var before := StagedAll(s, hit, time, stages, n - 1, group);
      if InStage(stages[n - 1], time) then Staged(before, hit, stages[n - 1].name, group) else before
  }

  function Sampled<K(==), G(==)>(s: Summary<K, G>, sample: Sample<K>, stages: seq<Stage>, group: K -> G): Summary<K, G> {
    var counted := s.(samples := s.samples + 1, weight := s.weight + sample.weight);
    if sample.stack == [] then counted
    else
      var hit := Hit(sample.stack, sample.weight);
      StagedAll(counted.(counters := Recorded(s.counters, hit, group)), hit, sample.time, stages, |stages|, group)
  }

  function SummaryOf<K(==), G(==)>(samples: seq<Sample<K>>, stages: seq<Stage>, group: K -> G): Summary<K, G> {
    if samples == [] then Summary(0, 0.0, Nothing(), map[], map[])
    else Sampled(SummaryOf(samples[..|samples| - 1], stages, group), samples[|samples| - 1], stages, group)
  }

  method CountSample<K(==), G(==)>(s: Summary<K, G>, sample: Sample<K>, stages: seq<Stage>, group: K -> G)
    returns (next: Summary<K, G>)
    ensures next == Sampled(s, sample, stages, group)
  {
    next := s.(samples := s.samples + 1, weight := s.weight + sample.weight);
    if sample.stack == [] {
      return;
    }
    var hit := Hit(sample.stack, sample.weight);
    var counters := Record(s.counters, hit, group);
    next := next.(counters := counters);
    ghost var start := next;
    for n := 0 to |stages|
      invariant next == StagedAll(start, hit, sample.time, stages, n, group)
    {
      if !InStage(stages[n], sample.time) {
        continue;
      }
      var name := stages[n].name;
      var recorded := Record(StageCounters(next, name), hit, group);
      next := next.(stages := next.stages[name := recorded], stageWeight := Bump(next.stageWeight, name, hit.weight));
    }
  }

  method FilterStack<F, K>(frames: seq<F>, shown: F -> bool, key: F -> K) returns (keys: seq<K>)
    ensures keys == FilteredKeys(frames, shown, key)
  {
    keys := [];
    for i := 0 to |frames|
      invariant keys == FilteredKeys(frames[..i], shown, key)
    {
      assert frames[..i + 1][..i] == frames[..i];
      if shown(frames[i]) {
        keys := keys + [key(frames[i])];
      }
    }
    assert frames[..|frames|] == frames;
  }

  method ReadSample<F, K>(t: Thread, index: nat, i: nat, naming: Naming<F, K>) returns (sample: Sample<K>)
    requires i < SampleCount(t)
    ensures sample == SampleAt(t, index, i, naming)
  {
    var frames := StackFrames(t.table, t.stacks[i], f => naming.resolve(index, f));
    var keys := FilterStack(frames, naming.shown, naming.key);
    sample := Sample(keys, EffectiveWeight(Column(t.weights, Some(1.0), |t.stacks|)[i]), Column(t.times, None, |t.stacks|)[i]);
  }

  /** The samples of one thread, on top of those already counted. */
  method SummarizeThread<F, K(==), G(==)>(start: Summary<K, G>, ghost before: seq<Sample<K>>, t: Thread, index: nat,
                                          naming: Naming<F, K>, stages: seq<Stage>, group: K -> G)
    returns (summary: Summary<K, G>)
    requires start == SummaryOf(before, stages, group)
    ensures summary == SummaryOf(before + ThreadSamples(t, index, SampleCount(t), naming), stages, group)
  {
    summary := start;
    assert before + [] == before;
    for i := 0 to SampleCount(t)
      invariant summary == SummaryOf(before + ThreadSamples(t, index, i, naming), stages, group)
    {
      var sample := ReadSample(t, index, i, naming);
      AppendSample(before, t, index, i, naming);
      summary := CountSample(summary, sample, stages, group);
    }
  }

  lemma AppendSample<F, K>(before: seq<Sample<K>>, t: Thread, index: nat, i: nat, naming: Naming<F, K>)
    requires i < SampleCount(t)
    ensures before + ThreadSamples(t, index, i + 1, naming)
         == before + ThreadSamples(t, index, i, naming) + [SampleAt(t, index, i, naming)]
  {
  }

  method Summarize<F, K(==), G(==)>(threads: seq<Thread>, selected: Thread -> bool, naming: Naming<F, K>,
                                    stages: seq<Stage>, group: K -> G) returns (summary: Summary<K, G>)
    ensures summary == SummaryOf(Samples(threads, |threads|, selected, naming), stages, group)
  {
    summary := Summary(0, 0.0, Nothing(), map[], map[]);
    for n := 0 to |threads|
      invariant summary == SummaryOf(Samples(threads, n, selected, naming), stages, group)
    {
      if !selected(threads[n]) {
        assert Samples(threads, n, selected, naming) + [] == Samples(threads, n, selected, naming);
        continue;
      }
      summary := SummarizeThread(summary, Samples(threads, n, selected, naming), threads[n], n, naming, stages, group);
    }
  }

  // ---------- what the summary holds ----------

  /** The samples with a non-empty filtered stack. */
  function HitsOf<K>(samples: seq<Sample<K>>): (hits: Hits<K>)
    ensures AllHit(hits)
  {
    if samples == [] then []
    else
      var last := samples[|samples| - 1];
      HitsOf(samples[..|samples| - 1]) + if last.stack == [] then [] else [Hit(last.stack, last.weight)]
  }

  /** How many of the first `n` stages have this name and contain this time. */
  function Copies(stages: seq<Stage>, n: nat, name: string, time: Option<real>): nat
    requires n <= |stages|
  {
    if n == 0 then 0
    else Copies(stages, n - 1, name, time) + if stages[n - 1].name == name && InStage(stages[n - 1], time) then 1 else 0
  }

  function Repeat<K>(hit: Hit<K>, n: nat): (hits: Hits<K>)
    ensures |hits| == n
    ensures forall i :: 0 <= i < n ==> hits[i] == hit
  {
    if n == 0 then [] else Repeat(hit, n - 1) + [hit]
  }

  /** What a stage name is charged: each hit once per stage of that name that contains its time. */
  function StageHits<K>(samples: seq<Sample<K>>, stages: seq<Stage>, name: string): (hits: Hits<K>)
    ensures AllHit(hits)
  {
    if samples == [] then []
    else
      var last := samples[|samples| - 1];
      StageHits(samples[..|samples| - 1], stages, name)
      + if last.stack == [] then [] else Repeat(Hit(last.stack, last.weight), Copies(stages, |stages|, name, last.time))
  }

  lemma {:induction false} WeightSnoc<K>(hits: Hits<K>, hit: Hit<K>, where: Hit<K> -> bool)
    ensures Weight(hits + [hit], where) == Weight(hits, where) + if where(hit) then hit.weight else 0.0
  {
    assert (hits + [hit])[..|hits|] == hits;
  }

  /** Stage counting leaves the run's own fields alone. */
  lemma {:induction false} StagedAllFrame<K, G>(s: Summary<K, G>, hit: Hit<K>, time: Option<real>, stages: seq<Stage>,
                                                n: nat, group: K -> G)
    requires hit.stack != [] && n <= |stages|
    ensures var t := StagedAll(s, hit, time, stages, n, group);
      t.samples == s.samples && t.weight == s.weight && t.counters == s.counters
  {
    if n > 0 {
      StagedAllFrame(s, hit, time, stages, n - 1, group);
    }
  }

  /** A stage name's counters and weight are those of the hits charged to it. */
  ghost predicate Charged<K, G>(s: Summary<K, G>, name: string, hits: Hits<K>, group: K -> G) {
    && AllHit(hits)
    && StageCounters(s, name) == Tally(hits, group)
    && Count(s.stageWeight, name) == Weight(hits, Always())
  }

  lemma {:induction false} ChargeOne<K, G>(s: Summary<K, G>, hit: Hit<K>, into: string, name: string, hits: Hits<K>, group: K -> G)
    requires hit.stack != [] && Charged(s, name, hits, group)
    ensures Charged(Staged(s, hit, into, group), name, if into == name then hits + [hit] else hits, group)
  {
    if into == name {
      WeightSnoc(hits, hit, Always());
    }
  }

  /** `hits` with the hit appended once per matching stage among the first `n`. */
  function Charges<K>(hits: Hits<K>, hit: Hit<K>, time: Option<real>, stages: seq<Stage>, n: nat, name: string): Hits<K>
    requires n <= |stages|
  {
    if n == 0 then hits
    else
      var before := Charges(hits, hit, time, stages, n - 1, name);
      if stages[n - 1].name == name && InStage(stages[n - 1], time) then before + [hit] else before
  }

  lemma {:induction false} ChargesAreCopies<K>(hits: Hits<K>, hit: Hit<K>, time: Option<real>, stages: seq<Stage>, n: nat, name: string)
    requires n <= |stages|
    ensures Charges(hits, hit, time, stages, n, name) == hits + Repeat(hit, Copies(stages, n, name, time))
  {
    if n == 0 {
      assert hits + [] == hits;
    } else {
      ChargesAreCopies(hits, hit, time, stages, n - 1, name);
      var copies := Repeat(hit, Copies(stages, n - 1, name, time));
      assert (hits + copies) + [hit] == hits + (copies + [hit]);
    }
  }

  lemma {:induction false} ChargeAll<K, G>(s: Summary<K, G>, hit: Hit<K>, time: Option<real>, stages: seq<Stage>, n: nat,
                                           name: string, hits: Hits<K>, group: K -> G)
    requires hit.stack != [] && n <= |stages| && Charged(s, name, hits, group)
    ensures Charged(StagedAll(s, hit, time, stages, n, group), name, Charges(hits, hit, time, stages, n, name), group)
  {
    if n > 0 {
      ChargeAll(s, hit, time, stages, n - 1, name, hits, group);
      ChargeOne(StagedAll(s, hit, time, stages, n - 1, group), hit, stages[n - 1].name, name,
                Charges(hits, hit, time, stages, n - 1, name), group);
    }
  }

  lemma {:induction false} SampledCharges<K, G>(s: Summary<K, G>, sample: Sample<K>, stages: seq<Stage>,
                                                name: string, hits: Hits<K>, group: K -> G)
    requires sample.stack != [] && Charged(s, name, hits, group)
    ensures Charged(Sampled(s, sample, stages, group), name,
                    Charges(hits, Hit(sample.stack, sample.weight), sample.time, stages, |stages|, name), group)
  {
    var hit := Hit(sample.stack, sample.weight);
    var counted := s.(samples := s.samples + 1, weight := s.weight + sample.weight,
                      counters := Recorded(s.counters, hit, group));
    assert Charged(counted, name, hits, group);
    ChargeAll(counted, hit, sample.time, stages, |stages|, name, hits, group);
  }

  function TotalWeight<K>(samples: seq<Sample<K>>): real {
    if samples == [] then 0.0 else TotalWeight(samples[..|samples| - 1]) + samples[|samples| - 1].weight
  }

  /** The run's own fields: every sample is weighed, every hit is tallied. */
  lemma {:induction false} SummaryIsTally<K, G>(samples: seq<Sample<K>>, stages: seq<Stage>, group: K -> G)
    ensures var s := SummaryOf(samples, stages, group);
      && s.samples == |samples|
      && s.weight == TotalWeight(samples)
      && s.counters == Tally(HitsOf(samples), group)
  {
    if samples != [] {
      var n := |samples| - 1;
      SummaryIsTally(samples[..n], stages, group);
      SampledFrame(SummaryOf(samples[..n], stages, group), samples[n], stages, group);
      if samples[n].stack == [] {
        assert HitsOf(samples) == HitsOf(samples[..n]);
      }
    }
  }

  lemma {:induction false} SampledFrame<K, G>(s: Summary<K, G>, sample: Sample<K>, stages: seq<Stage>, group: K -> G)
    ensures var t := Sampled(s, sample, stages, group);
      && t.samples == s.samples + 1
      && t.weight == s.weight + sample.weight
      && t.counters == if sample.stack == [] then s.counters else Recorded(s.counters, Hit(sample.stack, sample.weight), group)
  {
    if sample.stack != [] {
      var hit := Hit(sample.stack, sample.weight);
      StagedAllFrame(s.(samples := s.samples + 1, weight := s.weight + sample.weight,
                        counters := Recorded(s.counters, hit, group)), hit, sample.time, stages, |stages|, group);
    }
  }

  /** A stage's counters and weight are those of the hits charged to its name. */
  lemma {:induction false} StageIsTally<K, G>(samples: seq<Sample<K>>, stages: seq<Stage>, group: K -> G, name: string)
    ensures Charged(SummaryOf(samples, stages, group), name, StageHits(samples, stages, name), group)
  {
    if samples != [] {
      var n := |samples| - 1;
      var s, last, hits := SummaryOf(samples[..n], stages, group), samples[n], StageHits(samples[..n], stages, name);
      StageIsTally(samples[..n], stages, group, name);
      if last.stack == [] {
        assert StageHits(samples, stages, name) == hits;
      } else {
        SampledCharges(s, last, stages, name, hits, group);
        ChargesAreCopies(hits, Hit(last.stack, last.weight), last.time, stages, |stages|, name);
      }
    }
  }

  ghost predicate NonNegativeWeights<K>(samples: seq<Sample<K>>) {
    forall i :: 0 <= i < |samples| ==> samples[i].weight >= 0.0
  }

  lemma {:induction false} HitsAreNonNegative<K>(samples: seq<Sample<K>>)
    requires NonNegativeWeights(samples)
    ensures NonNegative(HitsOf(samples))
  {
    if samples != [] {
      HitsAreNonNegative(samples[..|samples| - 1]);
    }
  }

  lemma {:induction false} HitsAreWithin<K>(samples: seq<Sample<K>>)
    requires NonNegativeWeights(samples)
    ensures Weight(HitsOf(samples), Always()) <= TotalWeight(samples)
  {
    if samples != [] {
      HitsAreWithin(samples[..|samples| - 1]);
      HitsSnoc(samples, Always());
    }
  }

  /** In a summary of non-negative samples every percentage is sound: leaf, inclusive and group weights
      lie between zero and the total weight, nested in that order. */
  lemma {:induction false} SummaryIsSound<K(!new), G>(samples: seq<Sample<K>>, stages: seq<Stage>, group: K -> G, k: K)
    requires NonNegativeWeights(samples)
    ensures var s := SummaryOf(samples, stages, group);
      0.0 <= Count(s.counters.leaf, k) <= Count(s.counters.inclusive, k)
          <= Count(s.counters.groupedInclusive, group(k)) <= s.weight
  {
    SummaryIsTally(samples, stages, group);
    HitsAreNonNegative(samples);
    HitsAreWithin(samples);
    CountersAreNested(HitsOf(samples), group, k);
  }

  // ---------- stages ----------

  /** Some time lies in both stages. */
  predicate Meet(a: Stage, b: Stage) {
    a.start <= a.end && b.start <= b.end && a.start <= b.end && b.start <= a.end
  }

  /** No two stages of this name meet; a condition on the stage list alone. */
  ghost predicate Apart(stages: seq<Stage>, name: string) {
    forall i, j :: 0 <= i < j < |stages| && stages[i].name == name && stages[j].name == name ==> !Meet(stages[i], stages[j])
  }

  /** A positive number of copies comes from some stage. */
  lemma {:induction false} CopiesWitness(stages: seq<Stage>, n: nat, name: string, time: Option<real>) returns (i: nat)
    requires n <= |stages| && Copies(stages, n, name, time) >= 1
    ensures i < n && stages[i].name == name && InStage(stages[i], time)
  {
    if stages[n - 1].name == name && InStage(stages[n - 1], time) {
      i := n - 1;
    } else {
      i := CopiesWitness(stages, n - 1, name, time);
    }
  }

  lemma {:induction false} ApartMeansOnce(stages: seq<Stage>, n: nat, name: string, time: Option<real>)
    requires Apart(stages, name) && n <= |stages|
    ensures Copies(stages, n, name, time) <= 1
  {
    if n > 0 {
      ApartMeansOnce(stages, n - 1, name, time);
      if Copies(stages, n, name, time) > 1 {
        var i := CopiesWitness(stages, n - 1, name, time);
        assert false;
      }
    }
  }

  lemma {:induction false} CopiesGrow(stages: seq<Stage>, m: nat, n: nat, name: string, time: Option<real>)
    requires m <= n <= |stages|
    ensures Copies(stages, m, name, time) <= Copies(stages, n, name, time)
  {
    if m < n {
      CopiesGrow(stages, m, n - 1, name, time);
    }
  }

  lemma {:induction false} MeetingMeansTwice(stages: seq<Stage>, i: nat, j: nat, name: string, time: Option<real>)
    requires i < j < |stages| && stages[i].name == name && stages[j].name == name
    requires InStage(stages[i], time) && InStage(stages[j], time)
    ensures Copies(stages, |stages|, name, time) >= 2
  {
    assert Copies(stages, i + 1, name, time) >= 1;
    CopiesGrow(stages, i + 1, j, name, time);
    assert Copies(stages, j + 1, name, time) >= 2;
    CopiesGrow(stages, j + 1, |stages|, name, time);
  }

  lemma {:induction false} StageHitsSnoc<K>(samples: seq<Sample<K>>, stages: seq<Stage>, name: string, where: Hit<K> -> bool)
    requires samples != []
    requires Copies(stages, |stages|, name, samples[|samples| - 1].time) <= 1
    ensures var n := |samples| - 1;
      var hit, copies := Hit(samples[n].stack, samples[n].weight), Copies(stages, |stages|, name, samples[n].time);
      Weight(StageHits(samples, stages, name), where)
        == Weight(StageHits(samples[..n], stages, name), where)
         + if samples[n].stack != [] && copies == 1 && where(hit) then hit.weight else 0.0
  {
    var n := |samples| - 1;
    var hit, copies := Hit(samples[n].stack, samples[n].weight), Copies(stages, |stages|, name, samples[n].time);
    var earlier := StageHits(samples[..n], stages, name);
    if samples[n].stack == [] || copies == 0 {
      assert StageHits(samples, stages, name) == earlier;
    } else {
      assert Repeat(hit, copies) == [hit];
      assert StageHits(samples, stages, name) == earlier + [hit];
      WeightSnoc(earlier, hit, where);
    }
  }

  lemma {:induction false} HitsSnoc<K>(samples: seq<Sample<K>>, where: Hit<K> -> bool)
    requires samples != []
    ensures var n := |samples| - 1;
      var hit := Hit(samples[n].stack, samples[n].weight);
      Weight(HitsOf(samples), where)
        == Weight(HitsOf(samples[..n]), where) + if samples[n].stack != [] && where(hit) then hit.weight else 0.0
  {
    var n := |samples| - 1;
    var hit, earlier := Hit(samples[n].stack, samples[n].weight), HitsOf(samples[..n]);
    if samples[n].stack == [] {
      assert HitsOf(samples) == earlier;
    } else {
      assert HitsOf(samples) == earlier + [hit];
      WeightSnoc(earlier, hit, where);
    }
  }

  lemma {:induction false} StageHitsWithin<K>(samples: seq<Sample<K>>, stages: seq<Stage>, name: string, where: Hit<K> -> bool)
    requires NonNegativeWeights(samples) && Apart(stages, name)
    ensures Weight(StageHits(samples, stages, name), where) <= Weight(HitsOf(samples), where)
  {
    if samples != [] {
      var n := |samples| - 1;
      StageHitsWithin(samples[..n], stages, name, where);
      ApartMeansOnce(stages, |stages|, name, samples[n].time);
      StageHitsSnoc(samples, stages, name, where);
      HitsSnoc(samples, where);
    }
  }

  /** In the summary itself: the stage's total and each of its four counters are at most the run's. */
  ghost predicate StageWithin<K(!new), G(!new)>(s: Summary<K, G>, name: string) {
    var stage, run := StageCounters(s, name), s.counters;
    && Count(s.stageWeight, name) <= s.weight
    && (forall k :: Count(stage.leaf, k) <= Count(run.leaf, k))
    && (forall k :: Count(stage.inclusive, k) <= Count(run.inclusive, k))
    && (forall g :: Count(stage.groupedLeaf, g) <= Count(run.groupedLeaf, g))
    && (forall g :: Count(stage.groupedInclusive, g) <= Count(run.groupedInclusive, g))
  }

  lemma {:induction false} CountersWithin<K, G>(samples: seq<Sample<K>>, stages: seq<Stage>, group: K -> G, name: string, k: K, g: G)
    requires NonNegativeWeights(samples) && Apart(stages, name)
    ensures var s := SummaryOf(samples, stages, group);
      var stage, run := StageCounters(s, name), s.counters;
      && Count(stage.leaf, k) <= Count(run.leaf, k)
      && Count(stage.inclusive, k) <= Count(run.inclusive, k)
      && Count(stage.groupedLeaf, g) <= Count(run.groupedLeaf, g)
      && Count(stage.groupedInclusive, g) <= Count(run.groupedInclusive, g)
  {
    SummaryIsTally(samples, stages, group);
    StageIsTally(samples, stages, group, name);
    CountersAreSums(HitsOf(samples), group, k, g);
    CountersAreSums(StageHits(samples, stages, name), group, k, g);
    StageHitsWithin(samples, stages, name, LeafIs(k));
    StageHitsWithin(samples, stages, name, StackHas(k));
    StageHitsWithin(samples, stages, name, LeafInGroup(g, group));
    StageHitsWithin(samples, stages, name, StackMeetsGroup(g, group));
  }

  lemma {:induction false} ApartMeansWithin<K(!new), G(!new)>(samples: seq<Sample<K>>, stages: seq<Stage>, group: K -> G, name: string, k: K)
    requires NonNegativeWeights(samples) && Apart(stages, name)
    ensures StageWithin(SummaryOf(samples, stages, group), name)
  {
    var s := SummaryOf(samples, stages, group);
    var stage, run := StageCounters(s, name), s.counters;
    forall x ensures Count(stage.leaf, x) <= Count(run.leaf, x) && Count(stage.inclusive, x) <= Count(run.inclusive, x) {
      CountersWithin(samples, stages, group, name, x, group(x));
    }
    forall g ensures Count(stage.groupedLeaf, g) <= Count(run.groupedLeaf, g)
                  && Count(stage.groupedInclusive, g) <= Count(run.groupedInclusive, g)
    {
      CountersWithin(samples, stages, group, name, k, g);
    }
    SummaryIsTally(samples, stages, group);
    StageIsTally(samples, stages, group, name);
    StageHitsWithin(samples, stages, name, Always());
    HitsAreWithin(samples);
  }

  /** A weight added up `n` times. */
  function Times(n: nat, weight: real): real {
    if n == 0 then 0.0 else Times(n - 1, weight) + weight
  }

  lemma {:induction false} TimesGrow(m: nat, n: nat, weight: real)
    requires m <= n && weight >= 0.0
    ensures Times(m, weight) <= Times(n, weight)
  {
    if m < n {
      TimesGrow(m, n - 1, weight);
    }
  }

  lemma {:induction false} RepeatWeight<K>(hit: Hit<K>, n: nat, where: Hit<K> -> bool)
    requires where(hit)
    ensures Weight(Repeat(hit, n), where) == Times(n, hit.weight)
  {
    if n > 0 {
      RepeatWeight(hit, n - 1, where);
      WeightSnoc(Repeat(hit, n - 1), hit, where);
    }
  }

  /** What a summary of one sample holds: its weight once for the run, and once per stage of a name. */
  lemma {:induction false} OneSample<K, G>(samples: seq<Sample<K>>, stages: seq<Stage>, group: K -> G, name: string)
    requires |samples| == 1 && samples[0].stack != []
    ensures var s := SummaryOf(samples, stages, group);
      && s.weight == samples[0].weight
      && Count(s.stageWeight, name) == Times(Copies(stages, |stages|, name, samples[0].time), samples[0].weight)
  {
    SummaryIsTally(samples, stages, group);
    StageIsTally(samples, stages, group, name);
    OneSampleHits(samples, stages, name);
    RepeatWeight(Hit(samples[0].stack, samples[0].weight), Copies(stages, |stages|, name, samples[0].time), Always());
  }

  lemma {:induction false} OneSampleHits<K>(samples: seq<Sample<K>>, stages: seq<Stage>, name: string)
    requires |samples| == 1 && samples[0].stack != []
    ensures TotalWeight(samples) == samples[0].weight
    ensures StageHits(samples, stages, name)
         == Repeat(Hit(samples[0].stack, samples[0].weight), Copies(stages, |stages|, name, samples[0].time))
  {
    assert samples[..0] == [];
  }

  lemma {:induction false} MeetingBreaksBound<K(!new), G(!new)>(stages: seq<Stage>, group: K -> G, name: string, k: K, i: nat, j: nat)
    requires i < j < |stages| && stages[i].name == name && stages[j].name == name && Meet(stages[i], stages[j])
    ensures exists samples: seq<Sample<K>> :: NonNegativeWeights(samples) && !StageWithin(SummaryOf(samples, stages, group), name)
  {
    var time := Some(if stages[i].start < stages[j].start then stages[j].start else stages[i].start);
    MeetingMeansTwice(stages, i, j, name, time);
    var samples := [Sample([k], 1.0, time)];
    OneSample(samples, stages, group, name);
    TimesGrow(2, Copies(stages, |stages|, name, time), 1.0);
    assert Times(2, 1.0) == 2.0;
    assert NonNegativeWeights(samples);
    assert !StageWithin(SummaryOf(samples, stages, group), name);
  }

  /** No stage counter of a summary ever exceeds the run's, whatever the samples, if and only if no two
      stages of that name meet. */
  lemma {:induction false} StageIsWithinRunIff<K(!new), G(!new)>(stages: seq<Stage>, group: K -> G, name: string, k: K)
    ensures (forall samples: seq<Sample<K>> :: NonNegativeWeights(samples) ==> StageWithin(SummaryOf(samples, stages, group), name))
       <==> Apart(stages, name)
  {
    if Apart(stages, name) {
      forall samples: seq<Sample<K>> | NonNegativeWeights(samples)
        ensures StageWithin(SummaryOf(samples, stages, group), name)
      {
        ApartMeansWithin(samples, stages, group, name, k);
      }
    } else {
      var i, j :| 0 <= i < j < |stages| && stages[i].name == name && stages[j].name == name && Meet(stages[i], stages[j]);
      MeetingBreaksBound(stages, group, name, k, i, j);
    }
  }

  /** Two stages of one name around the same sample charge it twice: the stage then shows twice the
      weight the whole run has. */
  lemma {:induction false} OverlappingNamesDoubleCount<K, G>(stage: Stage, samples: seq<Sample<K>>, group: K -> G)
    requires |samples| == 1 && samples[0].stack != [] && InStage(stage, samples[0].time)
    ensures var s := SummaryOf(samples, [stage, stage], group);
      Count(s.stageWeight, stage.name) == 2.0 * s.weight
  {
    var stages, w := [stage, stage], samples[0].weight;
    assert Copies(stages, 1, stage.name, samples[0].time) == 1;
    assert Copies(stages, 2, stage.name, samples[0].time) == 2;
    OneSample(samples, stages, group, stage.name);
    assert Times(0, w) == 0.0;
    assert Times(1, w) == w;
    assert Times(2, w) == w + w;
  }
}
