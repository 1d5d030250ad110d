/** Resolving a code address to the symbol that covers it. */
module SymbolLookup {
  import opened Wrappers

  datatype Symbol = Symbol(function_: string, file: Option<string>, line: Option<int>, rva: int, size: nat)

  /** A symbol of unknown size covers one byte. */
  predicate Covers(s: Symbol, address: int) {
    s.rva <= address < s.rva + (if s.size == 0 then 1 else s.size)
  }

  ghost predicate SortedByRva(symbols: seq<Symbol>) {
    forall i, j :: 0 <= i < j < |symbols| ==> symbols[i].rva <= symbols[j].rva
  }

  /** How many symbols start at or below the address. */
  function Started(symbols: seq<Symbol>, address: int): (n: nat)
    ensures n <= |symbols|
  {
    if symbols == [] then 0
    else (if symbols[0].rva <= address then 1 else 0) + Started(symbols[1..], address)
  }

  /** The last position in `from..to` whose symbol covers the address. */
  function LastCovering(symbols: seq<Symbol>, address: int, from: nat, to: nat): (hit: Option<nat>)
    requires from <= to <= |symbols|
    ensures hit.Some? ==> from <= hit.value < to && Covers(symbols[hit.value], address)
    ensures hit.Some? ==> forall i :: hit.value < i < to ==> !Covers(symbols[i], address)
    ensures hit.None? ==> forall i :: from <= i < to ==> !Covers(symbols[i], address)
  {
    if from == to then None
    else if Covers(symbols[to - 1], address) then Some(to - 1)
    else LastCovering(symbols, address, from, to - 1)
  }

  /** The linear scan: the last symbol that covers the address, anywhere. */
  function Scan(symbols: seq<Symbol>, address: int): Option<nat> {
    LastCovering(symbols, address, 0, |symbols|)
  }

  /** What the search looks at: the symbol after the bound and the three before it. */
  function Window(symbols: seq<Symbol>, address: int): (hit: Option<nat>) {
    var bound := Started(symbols, address);
    LastCovering(symbols, address, if bound < 3 then 0 else bound - 3, if bound < |symbols| then bound + 1 else bound)
  }

  lemma {:induction false} NoneStarted(symbols: seq<Symbol>, address: int)
    requires forall i :: 0 <= i < |symbols| ==> symbols[i].rva > address
    ensures Started(symbols, address) == 0
  {
    if symbols != [] {
      NoneStarted(symbols[1..], address);
    }
  }

  lemma {:induction false} StartedBound(symbols: seq<Symbol>, address: int)
    requires SortedByRva(symbols)
    ensures forall i :: 0 <= i < Started(symbols, address) ==> symbols[i].rva <= address
    ensures forall i :: Started(symbols, address) <= i < |symbols| ==> symbols[i].rva > address
  {
    if symbols != [] {
      StartedBound(symbols[1..], address);
      forall i | 0 <= i < |symbols|
        ensures i < Started(symbols, address) <==> symbols[i].rva <= address
      {
        if i > 0 { assert symbols[i] == symbols[1..][i - 1]; }
        if symbols[0].rva > address { NoneStarted(symbols[1..], address); }
      }
    }
  }

  function Pick(symbols: seq<Symbol>, hit: Option<nat>): (found: Option<Symbol>)
    requires hit.Some? ==> hit.value < |symbols|
  {
    if hit.None? then None else Some(symbols[hit.value])
  }

  /** The binary search for the first symbol that starts above the address. */
  method UpperBound(symbols: seq<Symbol>, address: int) returns (lo: nat)
    requires SortedByRva(symbols)
    ensures lo == Started(symbols, address)
  {
    lo := 0;
    var hi := |symbols|;
    while lo < hi
      invariant 0 <= lo <= hi <= |symbols|
      invariant forall i :: 0 <= i < lo ==> symbols[i].rva <= address
      invariant forall i :: hi <= i < |symbols| ==> symbols[i].rva > address
    {
      var mid := (lo + hi) / 2;
      if symbols[mid].rva <= address {
        lo := mid + 1;
      } else {
        hi := mid;
      }
    }
    StartedBound(symbols, address);
    assert lo < |symbols| ==> symbols[lo].rva > address;
    assert lo > 0 ==> symbols[lo - 1].rva <= address;
  }

  method ResolveSymbol(symbols: seq<Symbol>, address: Option<int>) returns (found: Option<Symbol>)
    requires SortedByRva(symbols)
    ensures found == if address.None? then None else Pick(symbols, Window(symbols, address.value))
  {
    if address.None? {
      return None;
    }
    var lo := UpperBound(symbols, address.value);
    var from := if lo < 3 then 0 else lo - 3;
    var to := if lo < |symbols| then lo + 1 else lo;
    while from < to
      invariant from <= to <= |symbols|
      invariant LastCovering(symbols, address.value, from, to) == Window(symbols, address.value)
    {
      to := to - 1;
      if Covers(symbols[to], address.value) {
        return Some(symbols[to]);
      }
    }
    found := None;
  }

  /** The address lies in the symbol's bytes, or is where a symbol of unknown size starts. */
  predicate InBytes(s: Symbol, address: int) {
    || s.rva <= address < s.rva + s.size
    || (s.size == 0 && address == s.rva)
  }

  /** What the search returns, on starts and sizes alone: the last symbol with the address in its bytes,
      provided the third one after it does not start at or below the address. */
  lemma {:induction false} SearchIsExact(symbols: seq<Symbol>, address: int, i: nat)
    requires SortedByRva(symbols)
    ensures Window(symbols, address) == Some(i) <==>
      && i < |symbols| && InBytes(symbols[i], address)
      && (forall j :: i < j < |symbols| ==> !InBytes(symbols[j], address))
      && (i + 3 < |symbols| ==> symbols[i + 3].rva > address)
  {
    StartedBound(symbols, address);
    assert forall j :: 0 <= j < |symbols| ==> (Covers(symbols[j], address) <==> InBytes(symbols[j], address));
    var bound := Started(symbols, address);
    assert forall j :: bound <= j < |symbols| ==> !Covers(symbols[j], address);
  }

  /** For any sorted symbols, overlapping or not: the search agrees with the linear scan exactly when
      the scan finds nothing or fewer than three later symbols start at or below the address. */
  lemma {:induction false} SearchAgreesIff(symbols: seq<Symbol>, address: int)
    requires SortedByRva(symbols)
    ensures Window(symbols, address) == Scan(symbols, address)
      <==> (Scan(symbols, address).None? || Started(symbols, address) - Scan(symbols, address).value <= 3)
  {
    StartedBound(symbols, address);
  }

  /** A condition on the table alone: where a symbol and the start of the third one after it lie at or
      below an address the symbol covers, some later symbol covers the address too. */
  ghost predicate NeverBuried(symbols: seq<Symbol>) {
    forall i, a :: 0 <= i && i + 3 < |symbols| && Covers(symbols[i], a) && symbols[i + 3].rva <= a ==>
      exists j :: i < j < |symbols| && Covers(symbols[j], a)
  }

  /** The search agrees with the linear scan at every address if and only if the table buries no symbol. */
  lemma {:induction false} SearchAgreesEverywhereIff(symbols: seq<Symbol>)
    requires SortedByRva(symbols)
    ensures (forall a :: Window(symbols, a) == Scan(symbols, a)) <==> NeverBuried(symbols)
  {
    if NeverBuried(symbols) {
      forall a ensures Window(symbols, a) == Scan(symbols, a) {
        StartedBound(symbols, a);
        SearchAgreesIff(symbols, a);
        var hit := Scan(symbols, a);
        if hit.Some? && hit.value + 3 < |symbols| {
          assert symbols[hit.value + 3].rva > a;
        }
      }
    } else {
      var i, a :| 0 <= i && i + 3 < |symbols| && Covers(symbols[i], a) && symbols[i + 3].rva <= a
                  && !exists j :: i < j < |symbols| && Covers(symbols[j], a);
      StartedBound(symbols, a);
      SearchAgreesIff(symbols, a);
      assert Scan(symbols, a) == Some(i);
      assert Started(symbols, a) > i + 3;
    }
  }

  /** Pairwise disjoint effective ranges. */
  ghost predicate Disjoint(symbols: seq<Symbol>) {
    forall i, j, a :: 0 <= i < j < |symbols| ==> !(Covers(symbols[i], a) && Covers(symbols[j], a))
  }

  /** On disjoint ranges the search returns the one symbol that covers the address, if there is one. */
  lemma {:induction false} SearchFindsTheCoveringSymbol(symbols: seq<Symbol>, address: int)
    requires SortedByRva(symbols) && Disjoint(symbols)
    ensures Window(symbols, address) == Scan(symbols, address)
    ensures forall i :: 0 <= i < |symbols| ==> (Window(symbols, address) == Some(i) <==> Covers(symbols[i], address))
  {
    StartedBound(symbols, address);
    var bound := Started(symbols, address);
    forall i | 0 <= i < |symbols| && Covers(symbols[i], address) ensures i == bound - 1 {
      if i < bound - 1 {
        var next := symbols[bound - 1];
        assert Covers(next, next.rva) && Covers(symbols[i], next.rva);
      }
    }
  }

  /** Without disjointness the window can miss a symbol that covers the address: one long symbol with
      three short ones starting inside it before the address. */
  lemma {:induction false} NestedSymbolsAreMissed(name: string, inner: Symbol, rva: int)
    requires inner.size == 1 && inner.rva == rva
    ensures var outer := Symbol(name, None, None, rva, 10);
      var symbols := [outer, inner, inner, inner];
      && SortedByRva(symbols)
      && Covers(outer, rva + 5)
      && Scan(symbols, rva + 5) == Some(0)
      && Window(symbols, rva + 5) == None
  {
    var symbols := [Symbol(name, None, None, rva, 10), inner, inner, inner];
    StartedBound(symbols, rva + 5);
    SearchAgreesIff(symbols, rva + 5);
  }
}
