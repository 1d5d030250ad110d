/** An ordered map from warm-pool key to FIFO queue, as a key-sorted sequence of buckets.
    It stands for `BTreeMap<WarmPoolKey, VecDeque<T>>`. */
module OrderedQueues {
  import opened Wrappers
  import opened Budgets
  import opened Keys

  datatype Bucket<T> = Bucket(key: WarmPoolKey, queue: seq<T>)
  type Buckets<T> = seq<Bucket<T>>

  /** The map's own guarantee: keys strictly increase. */
  ghost predicate Sorted<T>(m: Buckets<T>) {
    forall i, j :: 0 <= i < j < |m| ==> KeyLess(m[i].key, m[j].key)
  }

  /** The invariant nobody states in the source: no empty queue is stored. */
  ghost predicate Filled<T>(m: Buckets<T>) {
    forall i :: 0 <= i < |m| ==> m[i].queue != []
  }

  function Get<T>(m: Buckets<T>, k: WarmPoolKey): Option<seq<T>> {
    if m == [] then None
    else if m[0].key == k then Some(m[0].queue)
    else Get(m[1..], k)
  }

  function Put<T>(m: Buckets<T>, k: WarmPoolKey, q: seq<T>): Buckets<T> {
    if m == [] || KeyLess(k, m[0].key) then [Bucket(k, q)] + m
    else if m[0].key == k then [Bucket(k, q)] + m[1..]
    else [m[0]] + Put(m[1..], k, q)
  }

  function Remove<T>(m: Buckets<T>, k: WarmPoolKey): Buckets<T> {
    if m == [] then []
    else if m[0].key == k then m[1..]
    else [m[0]] + Remove(m[1..], k)
  }

  /** The queue stored under `k`, empty when the key is absent. */
  function Lookup<T>(m: Buckets<T>, k: WarmPoolKey): seq<T> {
    match Get(m, k)
    case Some(q) => q
    case None => []
  }

  function PushBack<T>(m: Buckets<T>, k: WarmPoolKey, x: T): Buckets<T> {
    Put(m, k, Lookup(m, k) + [x])
  }

  /** Replaces the queue under `k`, dropping the key when nothing is left. */
  function Store<T>(m: Buckets<T>, k: WarmPoolKey, q: seq<T>): Buckets<T> {
    if q == [] then Remove(m, k) else Put(m, k, q)
  }

  /** Takes the oldest element under `k`; a map without one is left as it is. */
  function PopFront<T>(m: Buckets<T>, k: WarmPoolKey): (Option<T>, Buckets<T>) {
    var q := Lookup(m, k);
    if q == [] then (None, m) else (Some(q[0]), Store(m, k, q[1..]))
  }

  /** All elements in key order, each queue front to back. */
  function Flatten<T>(m: Buckets<T>): seq<T> {
    if m == [] then [] else m[0].queue + Flatten(m[1..])
  }

  lemma AppendOne<T>(a: seq<T>, x: T, b: seq<T>)
    ensures a + ([x] + b) == (a + [x]) + b
  {
  }

  // ---------- the map laws ----------

  lemma {:induction false} GetIndex<T>(m: Buckets<T>, k: WarmPoolKey) returns (i: nat)
    requires Get(m, k).Some?
    ensures i < |m| && m[i].key == k && m[i].queue == Get(m, k).value
  {
    if m[0].key == k {
      i := 0;
    } else {
      i := GetIndex(m[1..], k);
      i := i + 1;
    }
  }

  lemma {:induction false} GetPut<T>(m: Buckets<T>, k: WarmPoolKey, q: seq<T>, other: WarmPoolKey)
    ensures Get(Put(m, k, q), other) == if other == k then Some(q) else Get(m, other)
  {
    if m == [] || KeyLess(k, m[0].key) {
      assert Put(m, k, q)[1..] == m;
    } else if m[0].key == k {
      assert Put(m, k, q)[1..] == m[1..];
    } else {
      assert Put(m, k, q)[1..] == Put(m[1..], k, q);
      GetPut(m[1..], k, q, other);
    }
  }

  lemma {:induction false} GetRemove<T>(m: Buckets<T>, k: WarmPoolKey, other: WarmPoolKey)
    requires Sorted(m)
    ensures Get(Remove(m, k), other) == if other == k then None else Get(m, other)
  {
    if m == [] {
    } else if m[0].key == k {
      if Get(m[1..], k).Some? {
        var i := GetIndex(m[1..], k);
        assert KeyLess(m[0].key, m[i + 1].key);
        KeyIrreflexive(k);
        assert false;
      }
    } else {
      assert Remove(m, k)[1..] == Remove(m[1..], k);
      GetRemove(m[1..], k, other);
    }
  }

  lemma {:induction false} PutKeeps<T>(m: Buckets<T>, k: WarmPoolKey, q: seq<T>)
    requires Sorted(m)
    ensures Sorted(Put(m, k, q))
    ensures forall i :: 0 <= i < |Put(m, k, q)| ==>
              Put(m, k, q)[i] == Bucket(k, q) || Put(m, k, q)[i] in m
  {
    if m == [] {
    } else if KeyLess(k, m[0].key) {
      forall j | 0 <= j < |m| ensures KeyLess(k, m[j].key) {
        if j > 0 { KeyTransitive(k, m[0].key, m[j].key); }
      }
    } else if m[0].key == k {
    } else {
      KeyTotal(k, m[0].key);
      PutKeeps(m[1..], k, q);
    }
  }

  lemma {:induction false} RemoveKeeps<T>(m: Buckets<T>, k: WarmPoolKey)
    requires Sorted(m)
    ensures Sorted(Remove(m, k))
    ensures forall i :: 0 <= i < |Remove(m, k)| ==> Remove(m, k)[i] in m
  {
    if m != [] && m[0].key != k {
      RemoveKeeps(m[1..], k);
    }
  }

  /** Storing a queue under one key changes that key only and keeps both invariants. */
  lemma {:induction false} StoreLaws<T>(m: Buckets<T>, k: WarmPoolKey, q: seq<T>)
    requires Sorted(m)
    ensures Sorted(Store(m, k, q))
    ensures Filled(m) ==> Filled(Store(m, k, q))
    ensures forall other :: Lookup(Store(m, k, q), other) == if other == k then q else Lookup(m, other)
  {
    PutKeeps(m, k, q);
    RemoveKeeps(m, k);
    forall other
      ensures Lookup(Store(m, k, q), other) == if other == k then q else Lookup(m, other)
    {
      GetPut(m, k, q, other);
      GetRemove(m, k, other);
    }
  }

  /** With no empty queue stored, the map is empty exactly when nothing is queued anywhere. */
  lemma FirstIsQueued<T>(m: Buckets<T>)
    requires Filled(m) && m != []
    ensures Lookup(m, m[0].key) == m[0].queue != []
    ensures Flatten(m) == m[0].queue + Flatten(m[1..])
  {
  }

  /** Popping the first key removes the head of the flattening. */
  lemma {:induction false} PopFirst<T>(m: Buckets<T>)
    requires Sorted(m) && Filled(m) && m != []
    ensures Flatten(m) != []
    ensures PopFront(m, m[0].key).0 == Some(Flatten(m)[0])
    ensures Flatten(PopFront(m, m[0].key).1) == Flatten(m)[1..]
    ensures Sorted(PopFront(m, m[0].key).1) && Filled(PopFront(m, m[0].key).1)
  {
    var k, q := m[0].key, m[0].queue;
    KeyIrreflexive(k);
    assert PopFront(m, k) == (Some(q[0]), Store(m, k, q[1..]));
    FlattenStoreFirst(m, q[1..]);
    StoreLaws(m, k, q[1..]);
  }

  lemma {:induction false} FlattenStoreFirst<T>(m: Buckets<T>, q: seq<T>)
    requires m != []
    ensures Flatten(Store(m, m[0].key, q)) == q + Flatten(m[1..])
  {
    var k := m[0].key;
    KeyIrreflexive(k);
    if q != [] {
      assert Put(m, k, q) == [Bucket(k, q)] + m[1..];
      assert Put(m, k, q)[1..] == m[1..];
    }
  }

  /** A key listed first is a least key. */
  lemma {:induction false} FirstIsLeast<T>(m: Buckets<T>, k: WarmPoolKey)
    requires Sorted(m) && m != [] && Lookup(m, k) != []
    ensures k == m[0].key || KeyLess(m[0].key, k)
  {
    var i := GetIndex(m, k);
  }
}
