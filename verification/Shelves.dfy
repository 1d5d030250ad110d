/** Warm entries on one shelf in order of arrival: finding the oldest of a key and the least key, and
    taking an entry off. */
module Shelves {
  import opened Wrappers
  import opened Budgets
  import opened Keys
  import opened WarmPool
  import opened AdmissionRuns

  /** Position of the oldest entry of key `k`, or the length of the shelf. */
  function Oldest(shelf: seq<WarmPoolEntry>, k: WarmPoolKey): (i: nat)
    ensures i <= |shelf|
    ensures i < |shelf| ==> shelf[i].key == k
    ensures forall j :: 0 <= j < i ==> shelf[j].key != k
  {
    if shelf == [] || shelf[0].key == k then 0 else 1 + Oldest(shelf[1..], k)
  }

  /** The least key on the shelf. */
  function LeastKey(shelf: seq<WarmPoolEntry>): WarmPoolKey
    requires shelf != []
  {
    if |shelf| == 1 then shelf[0].key
    else
      var rest := LeastKey(shelf[1..]);
      if KeyLess(rest, shelf[0].key) then rest else shelf[0].key
  }

  lemma {:induction false} LeastKeyIsLeast(shelf: seq<WarmPoolEntry>)
    requires shelf != []
    ensures exists i :: 0 <= i < |shelf| && shelf[i].key == LeastKey(shelf)
    ensures forall i :: 0 <= i < |shelf| ==> !KeyLess(shelf[i].key, LeastKey(shelf))
  {
    KeyIrreflexive(shelf[0].key);
    if |shelf| > 1 {
      LeastKeyIsLeast(shelf[1..]);
      var rest := LeastKey(shelf[1..]);
      var j :| 0 <= j < |shelf[1..]| && shelf[1..][j].key == rest;
      assert shelf[j + 1].key == rest;
      forall i | 0 <= i < |shelf| ensures !KeyLess(shelf[i].key, LeastKey(shelf)) {
        if i == 0 {
          if KeyLess(rest, shelf[0].key) && KeyLess(shelf[0].key, rest) {
            KeyTransitive(rest, shelf[0].key, rest);
            KeyIrreflexive(rest);
          }
        } else {
          assert shelf[i] == shelf[1..][i - 1];
          if !KeyLess(rest, shelf[0].key) && KeyLess(shelf[i].key, shelf[0].key) {
            KeyTotal(rest, shelf[0].key);
            if rest != shelf[0].key { KeyTransitive(shelf[i].key, shelf[0].key, rest); }
          }
        }
      }
    }
  }

  lemma {:induction false} LeastKeyIsOnShelf(shelf: seq<WarmPoolEntry>)
    requires shelf != []
    ensures Oldest(shelf, LeastKey(shelf)) < |shelf|
  {
    LeastKeyIsLeast(shelf);
    var i :| 0 <= i < |shelf| && shelf[i].key == LeastKey(shelf);
    assert i >= Oldest(shelf, LeastKey(shelf));
  }

  lemma {:induction false} OfKeyConcat(a: seq<WarmPoolEntry>, b: seq<WarmPoolEntry>, k: WarmPoolKey)
    ensures OfKey(a + b, k) == OfKey(a, k) + OfKey(b, k)
  {
    if a == [] {
      assert a + b == b;
    } else {
      assert (a + b)[1..] == a[1..] + b;
      OfKeyConcat(a[1..], b, k);
    }
  }

  lemma {:induction false} OfKeyNone(a: seq<WarmPoolEntry>, k: WarmPoolKey)
    ensures OfKey(a, k) == [] <==> forall i :: 0 <= i < |a| ==> a[i].key != k
  {
    if a != [] {
      OfKeyNone(a[1..], k);
      assert forall i :: 0 < i < |a| ==> a[i] == a[1..][i - 1];
    }
  }

  /** The entries of a key, with one entry of the list looked at separately. */
  lemma {:induction false} OfKeyAround(shelf: seq<WarmPoolEntry>, i: nat, k: WarmPoolKey)
    requires i < |shelf|
    ensures OfKey(Without(shelf, i), k) == OfKey(shelf[..i], k) + OfKey(shelf[i + 1..], k)
    ensures OfKey(shelf, k)
         == OfKey(shelf[..i], k) + (if shelf[i].key == k then [shelf[i]] else []) + OfKey(shelf[i + 1..], k)
  {
    OfKeyConcat(shelf[..i], shelf[i + 1..], k);
    OfKeyConcat(shelf[..i] + [shelf[i]], shelf[i + 1..], k);
    OfKeyConcat(shelf[..i], [shelf[i]], k);
    OfKeyOne(shelf[i], k);
    assert shelf == shelf[..i] + [shelf[i]] + shelf[i + 1..];
  }

  /** Taking the oldest entry of `key` off the shelf drops the head of that key's entries. */
  lemma {:induction false} TakeOldest(shelf: seq<WarmPoolEntry>, key: WarmPoolKey)
    requires Oldest(shelf, key) < |shelf|
    ensures OfKey(shelf, key) == [shelf[Oldest(shelf, key)]] + OfKey(Without(shelf, Oldest(shelf, key)), key)
  {
    var i := Oldest(shelf, key);
    OfKeyAround(shelf, i, key);
    OfKeyNone(shelf[..i], key);
  }

  lemma {:induction false} TakeLeavesOthers(shelf: seq<WarmPoolEntry>, i: nat, k: WarmPoolKey)
    requires i < |shelf| && shelf[i].key != k
    ensures OfKey(Without(shelf, i), k) == OfKey(shelf, k)
  {
    OfKeyAround(shelf, i, k);
  }

  lemma {:induction false} CostWithout(shelf: seq<WarmPoolEntry>, i: nat)
    requires i < |shelf|
    ensures Cost(Without(shelf, i)) == Minus(Cost(shelf), shelf[i].budget)
  {
    if i == 0 {
      assert Without(shelf, 0) == shelf[1..];
    } else {
      CostWithout(shelf[1..], i - 1);
      assert Without(shelf, i)[1..] == Without(shelf[1..], i - 1);
    }
  }
}
