/** Summarising samples into hot-path counters: leaf and inclusive weight per frame key, the same per
    group of keys, and all four again per named stage of the run. */
module ProfileSummary {

  // ---------- counters ----------

  /** A missing key counts as zero. */
  function Count<K>(m: map<K, real>, k: K): real {
    if k in m then m[k] else 0.0
  }

  function Bump<K>(m: map<K, real>, k: K, weight: real): map<K, real> {
    m[k := Count(m, k) + weight]
  }

  function BumpAll<K>(m: map<K, real>, keys: set<K>, weight: real): map<K, real> {
    map k | k in m.Keys + keys :: Count(m, k) + if k in keys then weight else 0.0
  }

  /** Adds the weight to every key of a set, one key at a time. */
  method AddToEach<K(==)>(counter: map<K, real>, keys: set<K>, weight: real) returns (next: map<K, real>)
    ensures next == BumpAll(counter, keys, weight)
  {
    next := counter;
    var rest := keys;
    while rest != {}
      invariant rest <= keys
      invariant next == BumpAll(counter, keys - rest, weight)
      decreases |rest|
    {
      var k :| k in rest;
      next := Bump(next, k, weight);
      rest := rest - {k};
      assert next == BumpAll(counter, keys - rest, weight);
    }
    assert keys - rest == keys;
  }

  datatype Counters<K, G> = Counters(
    leaf: map<K, real>, inclusive: map<K, real>, groupedLeaf: map<G, real>, groupedInclusive: map<G, real>)

  /** A sample whose filtered stack is not empty: its keys from leaf to root, and its weight. */
  datatype Hit<K> = Hit(stack: seq<K>, weight: real)

  function KeysOf<K(==)>(stack: seq<K>): set<K> {
    set k | k in stack
  }

  function GroupsOf<K(==), G(==)>(stack: seq<K>, group: K -> G): set<G> {
    set k | k in stack :: group(k)
  }

  function Nothing<K, G>(): Counters<K, G> {
    Counters(map[], map[], map[], map[])
  }

  function Recorded<K(==), G(==)>(c: Counters<K, G>, hit: Hit<K>, group: K -> G): Counters<K, G>
    requires hit.stack != []
  {
    Counters(Bump(c.leaf, hit.stack[0], hit.weight),
             BumpAll(c.inclusive, KeysOf(hit.stack), hit.weight),
             Bump(c.groupedLeaf, group(hit.stack[0]), hit.weight),
             BumpAll(c.groupedInclusive, GroupsOf(hit.stack, group), hit.weight))
  }

  type Hits<K> = seq<Hit<K>>

  ghost predicate AllHit<K>(hits: Hits<K>) {
    forall i :: 0 <= i < |hits| ==> hits[i].stack != []
  }

  function Tally<K(==), G(==)>(hits: Hits<K>, group: K -> G): Counters<K, G>
    requires AllHit(hits)
  {
    if hits == [] then Nothing()
    else Recorded(Tally(hits[..|hits| - 1], group), hits[|hits| - 1], group)
  }

  method Record<K(==), G(==)>(c: Counters<K, G>, hit: Hit<K>, group: K -> G) returns (next: Counters<K, G>)
    requires hit.stack != []
    ensures next == Recorded(c, hit, group)
  {
    var leaf := Bump(c.leaf, hit.stack[0], hit.weight);
    var groupedLeaf := Bump(c.groupedLeaf, group(hit.stack[0]), hit.weight);
    var inclusive := AddToEach(c.inclusive, KeysOf(hit.stack), hit.weight);
    var groupedInclusive := AddToEach(c.groupedInclusive, GroupsOf(hit.stack, group), hit.weight);
    next := Counters(leaf, inclusive, groupedLeaf, groupedInclusive);
  }

  // ---------- the declarative sums ----------

  /** Total weight of the hits that satisfy a condition. */
  function Weight<K>(hits: Hits<K>, where: Hit<K> -> bool): real {
    if hits == [] then 0.0
    else Weight(hits[..|hits| - 1], where) + if where(hits[|hits| - 1]) then hits[|hits| - 1].weight else 0.0
  }

  function LeafIs<K(==)>(k: K): Hit<K> -> bool {
    (h: Hit<K>) => h.stack != [] && h.stack[0] == k
  }

  function StackHas<K(==)>(k: K): Hit<K> -> bool {
    (h: Hit<K>) => k in h.stack
  }

  function LeafInGroup<K, G(==)>(g: G, group: K -> G): Hit<K> -> bool {
    (h: Hit<K>) => h.stack != [] && group(h.stack[0]) == g
  }

  function StackMeetsGroup<K(==), G(==)>(g: G, group: K -> G): Hit<K> -> bool {
    (h: Hit<K>) => g in GroupsOf(h.stack, group)
  }

  function Always<K>(): Hit<K> -> bool {
    (h: Hit<K>) => true
  }

  /** Every counter is its declarative sum: the weight of the hits whose leaf, or stack, or leaf's group,
      or stack's groups, is or contains the key, each hit counted once. */
  lemma {:induction false} CountersAreSums<K, G>(hits: Hits<K>, group: K -> G, k: K, g: G)
    requires AllHit(hits)
    ensures Count(Tally(hits, group).leaf, k) == Weight(hits, LeafIs(k))
    ensures Count(Tally(hits, group).inclusive, k) == Weight(hits, StackHas(k))
    ensures Count(Tally(hits, group).groupedLeaf, g) == Weight(hits, LeafInGroup(g, group))
    ensures Count(Tally(hits, group).groupedInclusive, g) == Weight(hits, StackMeetsGroup(g, group))
  {
    if hits != [] {
      CountersAreSums(hits[..|hits| - 1], group, k, g);
    }
  }

  ghost predicate NonNegative<K>(hits: Hits<K>) {
    forall i :: 0 <= i < |hits| ==> hits[i].weight >= 0.0
  }

  ghost predicate Implies<K(!new)>(a: Hit<K> -> bool, b: Hit<K> -> bool) {
    forall h :: a(h) ==> b(h)
  }

  lemma {:induction false} WeightMonotone<K(!new)>(hits: Hits<K>, a: Hit<K> -> bool, b: Hit<K> -> bool)
    requires NonNegative(hits) && Implies(a, b)
    ensures 0.0 <= Weight(hits, a) <= Weight(hits, b)
  {
    if hits != [] {
      WeightMonotone(hits[..|hits| - 1], a, b);
    }
  }

  /** For non-negative weights a key's leaf weight is at most its inclusive weight, which is at most the
      inclusive weight of its group, which is at most the total. */
  lemma {:induction false} CountersAreNested<K(!new), G>(hits: Hits<K>, group: K -> G, k: K)
    requires AllHit(hits) && NonNegative(hits)
    ensures var c := Tally(hits, group);
      0.0 <= Count(c.leaf, k) <= Count(c.inclusive, k) <= Count(c.groupedInclusive, group(k)) <= Weight(hits, Always())
  {
    CountersAreSums(hits, group, k, group(k));
    WeightMonotone(hits, LeafIs(k), StackHas(k));
    WeightMonotone(hits, StackHas(k), StackMeetsGroup(group(k), group));
    WeightMonotone(hits, StackMeetsGroup(group(k), group), Always());
  }

  // ---------- sums over a counter ----------

  ghost function Sum<K>(keys: set<K>, m: map<K, real>): real
    decreases |keys|
  {
    if keys == {} then 0.0
    else
      var k :| k in keys;
      Count(m, k) + Sum(keys - {k}, m)
  }

  lemma {:induction false} SumSplit<K>(keys: set<K>, m: map<K, real>, k: K)
    requires k in keys
    ensures Sum(keys, m) == Count(m, k) + Sum(keys - {k}, m)
    decreases |keys|
  {
    var first :| first in keys && Sum(keys, m) == Count(m, first) + Sum(keys - {first}, m);
    if first != k {
      SumSplit(keys - {first}, m, k);
      SumSplit(keys - {k}, m, first);
      assert keys - {first} - {k} == keys - {k} - {first};
    }
  }

  lemma {:induction false} SumSame<K>(keys: set<K>, m: map<K, real>, n: map<K, real>)
    requires forall k :: k in keys ==> Count(m, k) == Count(n, k)
    ensures Sum(keys, m) == Sum(keys, n)
    decreases |keys|
  {
    if keys != {} {
      var k :| k in keys;
      SumSplit(keys, m, k);
      SumSplit(keys, n, k);
      SumSame(keys - {k}, m, n);
    }
  }

  /** Bumping one key moves the sum over a set of keys by the weight if the key is in the set. */
  lemma {:induction false} SumBump<K>(keys: set<K>, m: map<K, real>, k: K, weight: real)
    ensures Sum(keys, Bump(m, k, weight)) == Sum(keys, m) + if k in keys then weight else 0.0
  {
    if k in keys {
      SumSplit(keys, m, k);
      SumSplit(keys, Bump(m, k, weight), k);
      SumSame(keys - {k}, m, Bump(m, k, weight));
    } else {
      SumSame(keys, m, Bump(m, k, weight));
    }
  }

  lemma {:induction false} SumOfMissing<K>(keys: set<K>)
    ensures Sum(keys, map[]) == 0.0
    decreases |keys|
  {
    if keys != {} {
      var k :| k in keys;
      SumSplit(keys, map[], k);
      SumOfMissing(keys - {k});
    }
  }

  lemma {:induction false} LeafSumOver<K, G>(hits: Hits<K>, group: K -> G, keys: set<K>)
    requires AllHit(hits)
    ensures Sum(keys, Tally(hits, group).leaf) == Weight(hits, (h: Hit<K>) => h.stack != [] && h.stack[0] in keys)
  {
    if hits == [] {
      SumOfMissing(keys);
    } else {
      var n := |hits| - 1;
      LeafSumOver(hits[..n], group, keys);
      SumBump(keys, Tally(hits[..n], group).leaf, hits[n].stack[0], hits[n].weight);
    }
  }

  lemma {:induction false} LeafKeys<K, G>(hits: Hits<K>, group: K -> G)
    requires AllHit(hits)
    ensures forall i :: 0 <= i < |hits| ==> hits[i].stack[0] in Tally(hits, group).leaf
  {
    if hits != [] {
      LeafKeys(hits[..|hits| - 1], group);
      forall i | 0 <= i < |hits| ensures hits[i].stack[0] in Tally(hits, group).leaf {
        if i < |hits| - 1 { assert hits[..|hits| - 1][i] == hits[i]; }
      }
    }
  }

  lemma {:induction false} WeightSame<K>(hits: Hits<K>, a: Hit<K> -> bool, b: Hit<K> -> bool)
    requires forall i :: 0 <= i < |hits| ==> a(hits[i]) == b(hits[i])
    ensures Weight(hits, a) == Weight(hits, b)
  {
    if hits != [] {
      var earlier := hits[..|hits| - 1];
      assert forall i :: 0 <= i < |earlier| ==> earlier[i] == hits[i];
      WeightSame(earlier, a, b);
    }
  }

  /** The leaf counter distributes the whole weight, and the grouped leaf counter is its exact regrouping. */
  lemma {:induction false} LeafIsConserved<K, G>(hits: Hits<K>, group: K -> G, g: G)
    requires AllHit(hits)
    ensures var c := Tally(hits, group);
      && Sum(c.leaf.Keys, c.leaf) == Weight(hits, Always())
      && Sum((set k | k in c.leaf.Keys && group(k) == g), c.leaf) == Count(c.groupedLeaf, g)
  {
    var c := Tally(hits, group);
    var members := set k | k in c.leaf.Keys && group(k) == g;
    LeafKeys(hits, group);
    LeafSumOver(hits, group, c.leaf.Keys);
    LeafSumOver(hits, group, members);
    WeightSame(hits, (h: Hit<K>) => h.stack != [] && h.stack[0] in c.leaf.Keys, Always());
    WeightSame(hits, (h: Hit<K>) => h.stack != [] && h.stack[0] in members, LeafInGroup(g, group));
    if hits == [] {
      assert Count(c.groupedLeaf, g) == 0.0;
    } else {
      CountersAreSums(hits, group, hits[0].stack[0], g);
    }
  }
}
