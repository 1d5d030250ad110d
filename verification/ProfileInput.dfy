/** What a summary says about the profile it was read from: every counter as a sum over the rows of the
    selected threads, described on the input columns. */
module ProfileInput {
  import opened Wrappers
  import opened StackWalk
  import opened ProfileSummary
  import opened ProfileRun

  // ---------- filtering ----------

  /** `positions` are the shown frames in order, and `keys` are their keys. */
  ghost predicate Selects<F, K>(frames: seq<F>, shown: F -> bool, key: F -> K, keys: seq<K>, positions: seq<int>) {
    && |positions| == |keys|
    && (forall m, n :: 0 <= m < n < |positions| ==> positions[m] < positions[n])
    && (forall i :: i in positions <==> 0 <= i < |frames| && shown(frames[i]))
    && (forall m :: 0 <= m < |keys| ==> 0 <= positions[m] < |frames| && keys[m] == key(frames[positions[m]]))
  }

  /** The filtered stack is exactly the keys of the shown frames, in order. */
  lemma {:induction false} FilterKeepsShown<F, K>(frames: seq<F>, shown: F -> bool, key: F -> K)
    returns (positions: seq<int>)
    ensures Selects(frames, shown, key, FilteredKeys(frames, shown, key), positions)
  {
    if frames == [] {
      positions := [];
    } else {
      var n := |frames| - 1;
      positions := FilterKeepsShown(frames[..n], shown, key);
      assert frames == frames[..n] + [frames[n]];
      if shown(frames[n]) {
        positions := positions + [n];
      }
    }
  }

  /** The first frame that is shown matches. */
  ghost predicate FirstShown<F>(frames: seq<F>, shown: F -> bool, matches: F -> bool) {
    exists j :: 0 <= j < |frames| && shown(frames[j]) && matches(frames[j])
             && forall m :: 0 <= m < j ==> !shown(frames[m])
  }

  /** Some frame that is shown matches. */
  ghost predicate SomeShown<F>(frames: seq<F>, shown: F -> bool, matches: F -> bool) {
    exists j :: 0 <= j < |frames| && shown(frames[j]) && matches(frames[j])
  }

  lemma {:induction false} LeafOfFiltered<F, K>(frames: seq<F>, shown: F -> bool, key: F -> K, matches: F -> bool,
                                                where: K -> bool)
    requires forall f: F :: matches(f) == where(key(f))
    ensures var keys := FilteredKeys(frames, shown, key);
      && (FirstShown(frames, shown, matches) <==> keys != [] && where(keys[0]))
      && (SomeShown(frames, shown, matches) <==> exists k :: k in keys && where(k))
  {
    var keys := FilteredKeys(frames, shown, key);
    var positions := FilterKeepsShown(frames, shown, key);
    if keys != [] {
      forall m | 0 <= m < positions[0] ensures !shown(frames[m]) {
        assert forall q :: 0 <= q < |positions| ==> positions[0] <= positions[q];
        assert m !in positions;
      }
    }
    if j :| 0 <= j < |frames| && shown(frames[j]) && matches(frames[j]) {
      assert j in positions;
    }
  }

  // ---------- rows ----------

  /** Row `i` is read: it has a stack entry, and no other column that is there ends before it. */
  predicate IsRow(t: Thread, i: nat) {
    i < |t.stacks| && (t.weights == [] || i < |t.weights|) && (t.times == [] || i < |t.times|)
  }

  /** The row's own weight, one when it is missing or zero. */
  function RowWeight(t: Thread, i: nat): real
    requires IsRow(t, i)
  {
    if t.weights == [] || t.weights[i].None? || t.weights[i].value == 0.0 then 1.0 else t.weights[i].value
  }

  function RowTime(t: Thread, i: nat): Option<real>
    requires IsRow(t, i)
  {
    if t.times == [] then None else t.times[i]
  }

  /** `frames` are the frames of those rows of the stack table. */
  ghost predicate FramesAlong<F, K>(t: Thread, index: nat, rows: seq<int>, naming: Naming<F, K>, frames: seq<F>) {
    && |frames| == |rows|
    && forall j :: 0 <= j < |rows| ==>
         HasFrame(t.table, rows[j]) && frames[j] == naming.resolve(index, t.table.frame[rows[j]].value)
  }

  /** The frames of a row: those of the longest chain from its stack entry, resolved from the frame column. */
  ghost predicate FramesOfRow<F, K>(t: Thread, index: nat, i: nat, naming: Naming<F, K>, frames: seq<F>)
    requires IsRow(t, i)
  {
    exists rows :: LongestChain(t.table, t.stacks[i], rows) && FramesAlong(t, index, rows, naming, frames)
  }

  lemma {:induction false} RowHasFrames<F, K>(t: Thread, index: nat, i: nat, naming: Naming<F, K>, frames: seq<F>)
    requires IsRow(t, i)
    ensures FramesOfRow(t, index, i, naming, frames) <==> frames == FramesAt(t, index, t.stacks[i], naming)
  {
    var walked, all := RowsFrom(t.table, t.stacks[i], {}), FramesAt(t, index, t.stacks[i], naming);
    WalkHasFrames(t, index, t.stacks[i], naming);
    if FramesOfRow(t, index, i, naming, frames) {
      var rows :| LongestChain(t.table, t.stacks[i], rows) && FramesAlong(t, index, rows, naming, frames);
      ChainsArePrefixes(t.table, t.stacks[i], rows, walked);
      ChainsArePrefixes(t.table, t.stacks[i], walked, rows);
    }
  }

  lemma {:induction false} WalkHasFrames<F, K>(t: Thread, index: nat, stack: Option<int>, naming: Naming<F, K>)
    ensures LongestChain(t.table, stack, RowsFrom(t.table, stack, {}))
    ensures FramesAlong(t, index, RowsFrom(t.table, stack, {}), naming, FramesAt(t, index, stack, naming))
  {
    FramesAreResolved(t.table, stack, f => naming.resolve(index, f));
  }

  /** A sample is a row, read off the columns: its filtered frames, its weight and its time. */
  lemma {:induction false} SampleIsRow<F, K>(t: Thread, index: nat, i: nat, naming: Naming<F, K>)
    ensures IsRow(t, i) <==> i < SampleCount(t)
    ensures IsRow(t, i) ==>
      var sample := SampleAt(t, index, i, naming);
      && sample.weight == RowWeight(t, i)
      && sample.time == RowTime(t, i)
      && exists frames, positions ::
           && FramesOfRow(t, index, i, naming, frames)
           && Selects(frames, naming.shown, naming.key, sample.stack, positions)
  {
    if IsRow(t, i) {
      var frames := FramesAt(t, index, t.stacks[i], naming);
      RowHasFrames(t, index, i, naming, frames);
      var positions := FilterKeepsShown(frames, naming.shown, naming.key);
    }
  }

  lemma {:induction false} ThreadSamplesAt<F, K>(t: Thread, index: nat, n: nat, naming: Naming<F, K>, i: nat)
    requires i < n <= SampleCount(t)
    ensures |ThreadSamples(t, index, n, naming)| == n
    ensures ThreadSamples(t, index, n, naming)[i] == SampleAt(t, index, i, naming)
  {
    if n > 1 {
      ThreadSamplesAt(t, index, n - 1, naming, if i < n - 1 then i else 0);
    }
  }

  lemma RowsAreCounted(t: Thread, i: nat)
    ensures IsRow(t, i) <==> i < SampleCount(t)
  {
  }

  lemma {:induction false} SamplesGrow<F, K>(threads: seq<Thread>, m: nat, n: nat, selected: Thread -> bool,
                                             naming: Naming<F, K>)
    requires m <= n <= |threads|
    ensures Samples(threads, m, selected, naming) <= Samples(threads, n, selected, naming)
  {
    if m < n {
      SamplesGrow(threads, m, n - 1, selected, naming);
    }
  }

  /** Every row of every selected thread is among the samples, after those of the threads before it and in
      its own place among its thread's. */
  lemma {:induction false} SamplesListRows<F, K>(threads: seq<Thread>, n: nat, selected: Thread -> bool,
                                                 naming: Naming<F, K>, m: nat, i: nat)
    requires m < n <= |threads| && selected(threads[m]) && IsRow(threads[m], i)
    ensures var at := |Samples(threads, m, selected, naming)| + i;
      && i < SampleCount(threads[m])
      && at < |Samples(threads, n, selected, naming)|
      && Samples(threads, n, selected, naming)[at] == SampleAt(threads[m], m, i, naming)
  {
    RowsAreCounted(threads[m], i);
    var before := Samples(threads, m, selected, naming);
    var own := ThreadSamples(threads[m], m, SampleCount(threads[m]), naming);
    ThreadSamplesAt(threads[m], m, SampleCount(threads[m]), naming, i);
    assert (before + own)[|before| + i] == own[i];
    SamplesGrow(threads, m + 1, n, selected, naming);
    assert Samples(threads, m + 1, selected, naming) == before + own;
  }

  // ---------- sums over rows ----------

  /** An amount added up over the rows among the first `n` stack entries of thread `m`. */
  ghost function RowSum(threads: seq<Thread>, m: nat, n: nat, amount: (nat, nat) -> real): real
    requires m < |threads| && n <= |threads[m].stacks|
  {
    if n == 0 then 0.0
    else RowSum(threads, m, n - 1, amount) + if IsRow(threads[m], n - 1) then amount(m, n - 1) else 0.0
  }

  /** An amount added up over all rows of the selected threads among the first `n`. */
  ghost function RunSum(threads: seq<Thread>, n: nat, selected: Thread -> bool, amount: (nat, nat) -> real): real
    requires n <= |threads|
  {
    if n == 0 then 0.0
    else RunSum(threads, n - 1, selected, amount)
         + if selected(threads[n - 1]) then RowSum(threads, n - 1, |threads[n - 1].stacks|, amount) else 0.0
  }

  ghost function SampleSum<K>(samples: seq<Sample<K>>, amount: Sample<K> -> real): real {
    if samples == [] then 0.0 else SampleSum(samples[..|samples| - 1], amount) + amount(samples[|samples| - 1])
  }

  lemma {:induction false} SampleSumSnoc<K>(samples: seq<Sample<K>>, sample: Sample<K>, amount: Sample<K> -> real)
    ensures SampleSum(samples + [sample], amount) == SampleSum(samples, amount) + amount(sample)
  {
    assert (samples + [sample])[..|samples|] == samples;
  }

  lemma {:induction false} SampleSumConcat<K>(a: seq<Sample<K>>, b: seq<Sample<K>>, amount: Sample<K> -> real)
    ensures SampleSum(a + b, amount) == SampleSum(a, amount) + SampleSum(b, amount)
  {
    if b == [] {
      assert a + b == a;
    } else {
      var n := |b| - 1;
      SampleSumConcat(a, b[..n], amount);
      SampleSumSnoc(a + b[..n], b[n], amount);
      assert a + b == a + b[..n] + [b[n]];
    }
  }

  /** The amounts agree: what a sample is worth is what its row is worth. */
  ghost predicate Worth<F, K>(threads: seq<Thread>, naming: Naming<F, K>, ofSample: Sample<K> -> real,
                              ofRow: (nat, nat) -> real)
  {
    forall m: nat, i: nat :: m < |threads| && i < SampleCount(threads[m]) ==>
      ofSample(SampleAt(threads[m], m, i, naming)) == ofRow(m, i)
  }

  lemma {:induction false} ThreadSamplesSnoc<F, K>(t: Thread, index: nat, n: nat, naming: Naming<F, K>,
                                                   amount: Sample<K> -> real)
    requires n < SampleCount(t)
    ensures SampleSum(ThreadSamples(t, index, n + 1, naming), amount)
         == SampleSum(ThreadSamples(t, index, n, naming), amount) + amount(SampleAt(t, index, n, naming))
  {
    SampleSumSnoc(ThreadSamples(t, index, n, naming), SampleAt(t, index, n, naming), amount);
  }

  lemma WorthAt<F, K>(threads: seq<Thread>, naming: Naming<F, K>, ofSample: Sample<K> -> real,
                      ofRow: (nat, nat) -> real, m: nat, i: nat)
    requires Worth(threads, naming, ofSample, ofRow) && m < |threads| && i < SampleCount(threads[m])
    ensures ofSample(SampleAt(threads[m], m, i, naming)) == ofRow(m, i)
  {
  }

  lemma {:induction false} RowSumNext(threads: seq<Thread>, m: nat, n: nat, amount: (nat, nat) -> real)
    requires m < |threads| && n < SampleCount(threads[m])
    ensures RowSum(threads, m, n + 1, amount) == RowSum(threads, m, n, amount) + amount(m, n)
  {
    RowsAreCounted(threads[m], n);
  }

  lemma {:induction false} ThreadSumTo<F, K>(threads: seq<Thread>, m: nat, n: nat, naming: Naming<F, K>,
                                             ofSample: Sample<K> -> real, ofRow: (nat, nat) -> real)
    requires Worth(threads, naming, ofSample, ofRow) && m < |threads| && n <= SampleCount(threads[m])
    ensures SampleSum(ThreadSamples(threads[m], m, n, naming), ofSample) == RowSum(threads, m, n, ofRow)
  {
    if n > 0 {
      var last := n - 1;
      ThreadSumTo(threads, m, last, naming, ofSample, ofRow);
      RowSumNext(threads, m, last, ofRow);
      ThreadSamplesSnoc(threads[m], m, last, naming, ofSample);
      WorthAt(threads, naming, ofSample, ofRow, m, last);
    }
  }

  lemma {:induction false} RowSumRest(threads: seq<Thread>, m: nat, n: nat, amount: (nat, nat) -> real)
    requires m < |threads| && SampleCount(threads[m]) <= n <= |threads[m].stacks|
    ensures RowSum(threads, m, n, amount) == RowSum(threads, m, SampleCount(threads[m]), amount)
  {
    if n > SampleCount(threads[m]) {
      RowsAreCounted(threads[m], n - 1);
      RowSumRest(threads, m, n - 1, amount);
    }
  }

  lemma {:induction false} ThreadSum<F, K>(threads: seq<Thread>, m: nat, naming: Naming<F, K>,
                                           ofSample: Sample<K> -> real, ofRow: (nat, nat) -> real)
    requires Worth(threads, naming, ofSample, ofRow) && m < |threads|
    ensures SampleSum(ThreadSamples(threads[m], m, SampleCount(threads[m]), naming), ofSample)
         == RowSum(threads, m, |threads[m].stacks|, ofRow)
  {
    ThreadSumTo(threads, m, SampleCount(threads[m]), naming, ofSample, ofRow);
    RowSumRest(threads, m, |threads[m].stacks|, ofRow);
  }

  lemma {:induction false} SamplesSumNext<F, K>(threads: seq<Thread>, n: nat, selected: Thread -> bool,
                                                naming: Naming<F, K>, amount: Sample<K> -> real)
    requires n < |threads|
    ensures SampleSum(Samples(threads, n + 1, selected, naming), amount)
         == SampleSum(Samples(threads, n, selected, naming), amount)
          + if !selected(threads[n]) then 0.0
            else SampleSum(ThreadSamples(threads[n], n, SampleCount(threads[n]), naming), amount)
  {
    var before := Samples(threads, n, selected, naming);
    if selected(threads[n]) {
      SampleSumConcat(before, ThreadSamples(threads[n], n, SampleCount(threads[n]), naming), amount);
    } else {
      assert before + [] == before;
    }
  }

  lemma {:induction false} RunSumOfSamples<F, K>(threads: seq<Thread>, n: nat, selected: Thread -> bool,
                                                 naming: Naming<F, K>, ofSample: Sample<K> -> real,
                                                 ofRow: (nat, nat) -> real)
    requires Worth(threads, naming, ofSample, ofRow) && n <= |threads|
    ensures SampleSum(Samples(threads, n, selected, naming), ofSample) == RunSum(threads, n, selected, ofRow)
  {
    if n > 0 {
      var last := n - 1;
      RunSumOfSamples(threads, last, selected, naming, ofSample, ofRow);
      SamplesSumNext(threads, last, selected, naming, ofSample);
      ThreadSum(threads, last, naming, ofSample, ofRow);
    }
  }

  // ---------- the summary over the input ----------

  ghost predicate LeafOfRow<F(!new), K>(t: Thread, index: nat, i: nat, naming: Naming<F, K>, matches: F -> bool)
    requires IsRow(t, i)
  {
    exists frames :: FramesOfRow(t, index, i, naming, frames) && FirstShown(frames, naming.shown, matches)
  }

  ghost predicate OnRow<F(!new), K>(t: Thread, index: nat, i: nat, naming: Naming<F, K>, matches: F -> bool)
    requires IsRow(t, i)
  {
    exists frames :: FramesOfRow(t, index, i, naming, frames) && SomeShown(frames, naming.shown, matches)
  }

  lemma {:induction false} RowOfSample<F(!new), K>(t: Thread, index: nat, i: nat, naming: Naming<F, K>,
                                                   matches: F -> bool, where: K -> bool)
    requires IsRow(t, i) && i < SampleCount(t) && forall f: F :: matches(f) == where(naming.key(f))
    ensures var stack := SampleAt(t, index, i, naming).stack;
      && (LeafOfRow(t, index, i, naming, matches) <==> stack != [] && where(stack[0]))
      && (OnRow(t, index, i, naming, matches) <==> exists k :: k in stack && where(k))
  {
    var frames := FramesAt(t, index, t.stacks[i], naming);
    RowHasFrames(t, index, i, naming, frames);
    LeafOfFiltered(frames, naming.shown, naming.key, matches, where);
    forall other | FramesOfRow(t, index, i, naming, other) ensures other == frames {
      RowHasFrames(t, index, i, naming, other);
    }
  }

  /** What a sample adds to a counter: its weight as often as it is charged, if the counter is concerned. */
  ghost function SampleAmount<K>(where: Hit<K> -> bool, charges: Option<real> -> nat): Sample<K> -> real {
    (s: Sample<K>) => if s.stack != [] && where(Hit(s.stack, s.weight)) then Times(charges(s.time), s.weight) else 0.0
  }

  /** The same for a row of the input. */
  ghost function RowAmount(threads: seq<Thread>, concerns: (nat, nat) -> bool, charges: Option<real> -> nat)
    : (nat, nat) -> real
  {
    (m: nat, i: nat) => if m < |threads| && IsRow(threads[m], i) && concerns(m, i)
                        then Times(charges(RowTime(threads[m], i)), RowWeight(threads[m], i)) else 0.0
  }

  /** Every row counts once for the run. */
  ghost function Once(): Option<real> -> nat {
    (_: Option<real>) => 1
  }

  /** For a stage name a row counts once per stage of that name around its time. */
  ghost function PerStage(stages: seq<Stage>, name: string): Option<real> -> nat {
    (time: Option<real>) => Copies(stages, |stages|, name, time)
  }

  lemma {:induction false} WeightConcat<K>(a: Hits<K>, b: Hits<K>, where: Hit<K> -> bool)
    ensures Weight(a + b, where) == Weight(a, where) + Weight(b, where)
  {
    if b == [] {
      assert a + b == a;
    } else {
      var n := |b| - 1;
      WeightConcat(a, b[..n], where);
      WeightSnoc(a + b[..n], b[n], where);
      assert a + b == a + b[..n] + [b[n]];
    }
  }

  lemma {:induction false} RepeatMisses<K>(hit: Hit<K>, n: nat, where: Hit<K> -> bool)
    requires !where(hit)
    ensures Weight(Repeat(hit, n), where) == 0.0
  {
    if n > 0 {
      RepeatMisses(hit, n - 1, where);
      WeightSnoc(Repeat(hit, n - 1), hit, where);
    }
  }

  lemma {:induction false} HitsSum<K>(samples: seq<Sample<K>>, where: Hit<K> -> bool)
    ensures Weight(HitsOf(samples), where) == SampleSum(samples, SampleAmount(where, Once()))
  {
    if samples != [] {
      HitsSum(samples[..|samples| - 1], where);
      HitsSnoc(samples, where);
      var weight := samples[|samples| - 1].weight;
      assert Times(1, weight) == Times(0, weight) + weight;
    }
  }

  lemma {:induction false} StageHitsSum<K>(samples: seq<Sample<K>>, stages: seq<Stage>, name: string,
                                           where: Hit<K> -> bool)
    ensures Weight(StageHits(samples, stages, name), where)
         == SampleSum(samples, SampleAmount(where, PerStage(stages, name)))
  {
    if samples != [] {
      var n := |samples| - 1;
      var hit, copies := Hit(samples[n].stack, samples[n].weight), Copies(stages, |stages|, name, samples[n].time);
      var earlier := StageHits(samples[..n], stages, name);
      StageHitsSum(samples[..n], stages, name, where);
      if samples[n].stack == [] {
        assert StageHits(samples, stages, name) == earlier;
      } else {
        WeightConcat(earlier, Repeat(hit, copies), where);
        if where(hit) {
          RepeatWeight(hit, copies, where);
        } else {
          RepeatMisses(hit, copies, where);
        }
      }
    }
  }

  /** A counter of the samples is the same counter of the rows, when it concerns the same ones. */
  lemma {:induction false} CounterOverRows<F, K>(threads: seq<Thread>, selected: Thread -> bool, naming: Naming<F, K>,
                                                 where: Hit<K> -> bool, concerns: (nat, nat) -> bool,
                                                 charges: Option<real> -> nat)
    requires forall m: nat, i: nat :: m < |threads| && i < SampleCount(threads[m]) ==>
               var sample := SampleAt(threads[m], m, i, naming);
               concerns(m, i) <==> sample.stack != [] && where(Hit(sample.stack, sample.weight))
    ensures SampleSum(Samples(threads, |threads|, selected, naming), SampleAmount(where, charges))
         == RunSum(threads, |threads|, selected, RowAmount(threads, concerns, charges))
  {
    forall m: nat, i: nat | m < |threads| && i < SampleCount(threads[m])
      ensures SampleAmount(where, charges)(SampleAt(threads[m], m, i, naming))
           == RowAmount(threads, concerns, charges)(m, i)
    {
      SampleIsRow(threads[m], m, i, naming);
    }
    RunSumOfSamples(threads, |threads|, selected, naming, SampleAmount(where, charges),
                    RowAmount(threads, concerns, charges));
  }

  /** The rows whose first shown frame matches. */
  ghost function Leaves<F(!new), K>(threads: seq<Thread>, naming: Naming<F, K>, matches: F -> bool)
    : (nat, nat) -> bool
  {
    (m: nat, i: nat) => m < |threads| && IsRow(threads[m], i) && LeafOfRow(threads[m], m, i, naming, matches)
  }

  /** The rows with a shown frame that matches. */
  ghost function Stacks<F(!new), K>(threads: seq<Thread>, naming: Naming<F, K>, matches: F -> bool)
    : (nat, nat) -> bool
  {
    (m: nat, i: nat) => m < |threads| && IsRow(threads[m], i) && OnRow(threads[m], m, i, naming, matches)
  }

  /** The weights of the rows a counter concerns, each as often as it is charged. */
  ghost function Summed(threads: seq<Thread>, selected: Thread -> bool, concerns: (nat, nat) -> bool,
                        charges: Option<real> -> nat): real
  {
    RunSum(threads, |threads|, selected, RowAmount(threads, concerns, charges))
  }

  /** The four counters at a key and a group, each a sum over the rows of the selected threads. */
  ghost predicate CountsRows<F(!new), K, G>(c: Counters<K, G>, threads: seq<Thread>, selected: Thread -> bool,
                                            naming: Naming<F, K>, group: K -> G, charges: Option<real> -> nat,
                                            k: K, g: G)
  {
    var isKey, inGroup := (f: F) => naming.key(f) == k, (f: F) => group(naming.key(f)) == g;
    && Count(c.leaf, k) == Summed(threads, selected, Leaves(threads, naming, isKey), charges)
    && Count(c.inclusive, k) == Summed(threads, selected, Stacks(threads, naming, isKey), charges)
    && Count(c.groupedLeaf, g) == Summed(threads, selected, Leaves(threads, naming, inGroup), charges)
    && Count(c.groupedInclusive, g) == Summed(threads, selected, Stacks(threads, naming, inGroup), charges)
  }

  lemma {:induction false} LeafCounter<F(!new), K>(threads: seq<Thread>, selected: Thread -> bool,
                                                   naming: Naming<F, K>, matches: F -> bool, where: K -> bool,
                                                   ofHit: Hit<K> -> bool, charges: Option<real> -> nat)
    requires forall f: F :: matches(f) == where(naming.key(f))
    requires forall h: Hit<K> :: ofHit(h) == (h.stack != [] && where(h.stack[0]))
    ensures SampleSum(Samples(threads, |threads|, selected, naming), SampleAmount(ofHit, charges))
         == Summed(threads, selected, Leaves(threads, naming, matches), charges)
  {
    forall m: nat, i: nat | m < |threads| && i < SampleCount(threads[m])
      ensures var sample := SampleAt(threads[m], m, i, naming);
        Leaves(threads, naming, matches)(m, i) <==> sample.stack != [] && ofHit(Hit(sample.stack, sample.weight))
    {
      RowsAreCounted(threads[m], i);
      RowOfSample(threads[m], m, i, naming, matches, where);
    }
    CounterOverRows(threads, selected, naming, ofHit, Leaves(threads, naming, matches), charges);
  }

  lemma {:induction false} StackCounter<F(!new), K>(threads: seq<Thread>, selected: Thread -> bool,
                                                    naming: Naming<F, K>, matches: F -> bool, where: K -> bool,
                                                    ofHit: Hit<K> -> bool, charges: Option<real> -> nat)
    requires forall f: F :: matches(f) == where(naming.key(f))
    requires forall h: Hit<K> :: ofHit(h) == exists k :: k in h.stack && where(k)
    ensures SampleSum(Samples(threads, |threads|, selected, naming), SampleAmount(ofHit, charges))
         == Summed(threads, selected, Stacks(threads, naming, matches), charges)
  {
    forall m: nat, i: nat | m < |threads| && i < SampleCount(threads[m])
      ensures var sample := SampleAt(threads[m], m, i, naming);
        Stacks(threads, naming, matches)(m, i) <==> sample.stack != [] && ofHit(Hit(sample.stack, sample.weight))
    {
      RowsAreCounted(threads[m], i);
      RowOfSample(threads[m], m, i, naming, matches, where);
    }
    CounterOverRows(threads, selected, naming, ofHit, Stacks(threads, naming, matches), charges);
  }

  /** Sums over the samples that give counters give them over the rows too. */
  lemma {:induction false} CountersCountRows<F(!new), K, G>(c: Counters<K, G>, threads: seq<Thread>,
                                                            selected: Thread -> bool,
                                                            naming: Naming<F, K>, group: K -> G,
                                                            charges: Option<real> -> nat, k: K, g: G)
    requires var samples := Samples(threads, |threads|, selected, naming);
      && Count(c.leaf, k) == SampleSum(samples, SampleAmount(LeafIs(k), charges))
      && Count(c.inclusive, k) == SampleSum(samples, SampleAmount(StackHas(k), charges))
      && Count(c.groupedLeaf, g) == SampleSum(samples, SampleAmount(LeafInGroup(g, group), charges))
      && Count(c.groupedInclusive, g) == SampleSum(samples, SampleAmount(StackMeetsGroup(g, group), charges))
    ensures CountsRows(c, threads, selected, naming, group, charges, k, g)
  {
    var isKey, inGroup := (f: F) => naming.key(f) == k, (f: F) => group(naming.key(f)) == g;
    LeafCounter(threads, selected, naming, isKey, x => x == k, LeafIs(k), charges);
    LeafCounter(threads, selected, naming, inGroup, x => group(x) == g, LeafInGroup(g, group), charges);
    StackCounter(threads, selected, naming, isKey, x => x == k, StackHas(k), charges);
    StackCounter(threads, selected, naming, inGroup, x => group(x) == g, StackMeetsGroup(g, group), charges);
  }

  /** The run's counters are sums over the rows of the selected threads, each row counted once: for a key,
      the weights of the rows whose first shown frame, or any shown frame, has that key; for a group the same. */
  lemma {:induction false} SummaryCountsRows<F(!new), K, G>(threads: seq<Thread>, selected: Thread -> bool,
                                                            naming: Naming<F, K>,
                                                            stages: seq<Stage>, group: K -> G, k: K, g: G)
    ensures CountsRows(SummaryOf(Samples(threads, |threads|, selected, naming), stages, group).counters,
                       threads, selected, naming, group, Once(), k, g)
  {
    var samples := Samples(threads, |threads|, selected, naming);
    SummaryIsTally(samples, stages, group);
    CountersAreSums(HitsOf(samples), group, k, g);
    HitsSum(samples, LeafIs(k));
    HitsSum(samples, StackHas(k));
    HitsSum(samples, LeafInGroup(g, group));
    HitsSum(samples, StackMeetsGroup(g, group));
    CountersCountRows(SummaryOf(samples, stages, group).counters, threads, selected, naming, group, Once(), k, g);
  }

  /** A stage's counters are the same sums with each row counted once per stage of the name around its time. */
  lemma {:induction false} StageCountsRows<F(!new), K, G>(threads: seq<Thread>, selected: Thread -> bool,
                                                          naming: Naming<F, K>,
                                                          stages: seq<Stage>, group: K -> G, name: string, k: K, g: G)
    ensures CountsRows(StageCounters(SummaryOf(Samples(threads, |threads|, selected, naming), stages, group), name),
                       threads, selected, naming, group, PerStage(stages, name), k, g)
  {
    var samples := Samples(threads, |threads|, selected, naming);
    StageIsTally(samples, stages, group, name);
    CountersAreSums(StageHits(samples, stages, name), group, k, g);
    StageHitsSum(samples, stages, name, LeafIs(k));
    StageHitsSum(samples, stages, name, StackHas(k));
    StageHitsSum(samples, stages, name, LeafInGroup(g, group));
    StageHitsSum(samples, stages, name, StackMeetsGroup(g, group));
    CountersCountRows(StageCounters(SummaryOf(samples, stages, group), name), threads, selected, naming, group,
                      PerStage(stages, name), k, g);
  }

  /** The weight of every row. */
  ghost function Weights(threads: seq<Thread>): (nat, nat) -> real {
    (m: nat, i: nat) => if m < |threads| && IsRow(threads[m], i) then RowWeight(threads[m], i) else 0.0
  }

  lemma {:induction false} TotalIsSum<K>(samples: seq<Sample<K>>)
    ensures TotalWeight(samples) == SampleSum(samples, (s: Sample<K>) => s.weight)
    ensures |samples| as real == SampleSum(samples, (s: Sample<K>) => 1.0)
  {
    if samples != [] {
      TotalIsSum(samples[..|samples| - 1]);
    }
  }

  /** The totals: every row of a selected thread counts, whether or not any of its frames is shown; a stage's
      total takes the rows with a shown frame, once per stage of the name around their time. */
  lemma {:induction false} TotalsCountRows<F(!new), K, G>(threads: seq<Thread>, selected: Thread -> bool,
                                                          naming: Naming<F, K>,
                                                          stages: seq<Stage>, group: K -> G, name: string)
    ensures var s := SummaryOf(Samples(threads, |threads|, selected, naming), stages, group);
      && s.samples as real == RunSum(threads, |threads|, selected, (m: nat, i: nat) => 1.0)
      && s.weight == RunSum(threads, |threads|, selected, Weights(threads))
      && Count(s.stageWeight, name)
         == Summed(threads, selected, Stacks(threads, naming, (f: F) => true), PerStage(stages, name))
  {
    var samples := Samples(threads, |threads|, selected, naming);
    SummaryIsTally(samples, stages, group);
    TotalIsSum(samples);
    RunSumOfSamples(threads, |threads|, selected, naming, (s: Sample<K>) => 1.0, (m: nat, i: nat) => 1.0);
    forall m: nat, i: nat | m < |threads| && i < SampleCount(threads[m])
      ensures SampleAt(threads[m], m, i, naming).weight == Weights(threads)(m, i)
    {
      SampleIsRow(threads[m], m, i, naming);
    }
    RunSumOfSamples(threads, |threads|, selected, naming, (s: Sample<K>) => s.weight, Weights(threads));
    StageIsTally(samples, stages, group, name);
    var any := (f: F) => true;
    StageHitsSum(samples, stages, name, Always());
    forall m: nat, i: nat | m < |threads| && i < SampleCount(threads[m])
      ensures Stacks(threads, naming, any)(m, i) <==> SampleAt(threads[m], m, i, naming).stack != []
    {
      RowsAreCounted(threads[m], i);
      RowOfSample(threads[m], m, i, naming, any, x => true);
      var stack := SampleAt(threads[m], m, i, naming).stack;
      assert stack != [] ==> stack[0] in stack;
    }
    CounterOverRows(threads, selected, naming, Always(), Stacks(threads, naming, any), PerStage(stages, name));
  }
}
