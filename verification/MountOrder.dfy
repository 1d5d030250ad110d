/** Ordering mounts so that they can be mounted one after the other: normalise every destination,
    then sort by depth and declaration order. */
module MountOrder {
  import opened MountPaths

  datatype Mount = Mount(kind: string, source: string, destination: string, options: seq<string>)

  datatype Indexed = Indexed(index: nat, mount: Mount)

  function NonEmpty(pieces: seq<string>): seq<string> {
    if pieces == [] then []
    else (if pieces[0] != "" then [pieces[0]] else []) + NonEmpty(pieces[1..])
  }

  function Depth(destination: string): nat {
    |NonEmpty(Split(destination))|
  }

  function Clean(mount: Mount): Mount {
    mount.(destination := Normalized(mount.destination))
  }

  function Enumerated(mounts: seq<Mount>): seq<Indexed> {
    seq(|mounts|, i requires 0 <= i < |mounts| => Indexed(i, Clean(mounts[i])))
  }

  /** The sort key order: depth first, then declaration index. */
  predicate Before(a: Indexed, b: Indexed) {
    var x, y := Depth(a.mount.destination), Depth(b.mount.destination);
    x < y || (x == y && a.index < b.index)
  }

  function Insert(x: Indexed, sorted: seq<Indexed>): seq<Indexed> {
    if sorted == [] || Before(x, sorted[0]) then [x] + sorted
    else [sorted[0]] + Insert(x, sorted[1..])
  }

  /** Stands for the library sort: the result is unique, see SortIsUnique. */
  function SortByKey(xs: seq<Indexed>): seq<Indexed> {
    if xs == [] then [] else Insert(xs[0], SortByKey(xs[1..]))
  }

  function Stripped(xs: seq<Indexed>): seq<Mount> {
    seq(|xs|, i requires 0 <= i < |xs| => xs[i].mount)
  }

  function Arranged(mounts: seq<Mount>): (arranged: seq<Mount>)
    ensures |arranged| == |mounts|
  {
    SortedIsFromInput(mounts);
    Stripped(SortByKey(Enumerated(mounts)))
  }

  method CleanAndSortMounts(mounts: seq<Mount>) returns (arranged: seq<Mount>)
    ensures arranged == Arranged(mounts)
  {
    var indexed: seq<Indexed> := [];
    for i := 0 to |mounts|
      invariant indexed == Enumerated(mounts)[..i]
    {
      var destination := NormalizeMountDestination(mounts[i].destination);
      indexed := indexed + [Indexed(i, mounts[i].(destination := destination))];
    }
    assert indexed == Enumerated(mounts);
    indexed := SortByKey(indexed);
    arranged := Stripped(indexed);
  }

  // ---------- the sort ----------

  ghost predicate Ordered(xs: seq<Indexed>) {
    forall i, j :: 0 <= i < j < |xs| ==> Before(xs[i], xs[j])
  }

  ghost predicate DistinctIndexes(xs: seq<Indexed>) {
    forall i, j :: 0 <= i < j < |xs| ==> xs[i].index != xs[j].index
  }

  lemma {:induction false} InsertElements(x: Indexed, sorted: seq<Indexed>)
    ensures multiset(Insert(x, sorted)) == multiset{x} + multiset(sorted)
  {
    if sorted != [] && !Before(x, sorted[0]) {
      InsertElements(x, sorted[1..]);
      assert sorted == [sorted[0]] + sorted[1..];
    }
  }

  lemma {:induction false} InsertOrdered(x: Indexed, sorted: seq<Indexed>)
    requires Ordered(sorted) && forall y :: y in sorted ==> y.index != x.index
    ensures Ordered(Insert(x, sorted))
    ensures forall y :: y in Insert(x, sorted) ==> y == x || y in sorted
  {
    if sorted == [] || Before(x, sorted[0]) {
      forall y | y in sorted ensures Before(x, y) {
        var j :| 0 <= j < |sorted| && sorted[j] == y;
        assert j == 0 || Before(sorted[0], sorted[j]);
      }
    } else {
      var head, tail := sorted[0], sorted[1..];
      InsertOrdered(x, tail);
      assert Before(head, x);
      forall y | y in Insert(x, tail) ensures Before(head, y) {
        if y != x {
          var j :| 0 <= j < |tail| && tail[j] == y;
          assert sorted[j + 1] == y;
        }
      }
    }
  }

  lemma {:induction false} SortLaws(xs: seq<Indexed>)
    requires DistinctIndexes(xs)
    ensures Ordered(SortByKey(xs))
    ensures multiset(SortByKey(xs)) == multiset(xs)
  {
    if xs != [] {
      SortLaws(xs[1..]);
      var sorted := SortByKey(xs[1..]);
      forall y | y in sorted ensures y.index != xs[0].index {
        assert y in multiset(sorted);
        assert y in xs[1..];
      }
      InsertOrdered(xs[0], sorted);
      InsertElements(xs[0], sorted);
      assert xs == [xs[0]] + xs[1..];
    }
  }

  /** Any ordering of the same elements by the sort key is the same sequence, so the theorems below
      hold of every correct sort. */
  lemma {:induction false} SortIsUnique(a: seq<Indexed>, b: seq<Indexed>)
    requires Ordered(a) && Ordered(b) && multiset(a) == multiset(b)
    ensures a == b
  {
    assert |a| == |multiset(a)| == |multiset(b)| == |b|;
    if a != [] {
      FirstIsUnique(a, b);
      MultisetTail(a);
      MultisetTail(b);
      SortIsUnique(a[1..], b[1..]);
      assert a == [a[0]] + a[1..] && b == [b[0]] + b[1..];
    }
  }

  lemma {:induction false} FirstIsUnique(a: seq<Indexed>, b: seq<Indexed>)
    requires Ordered(a) && Ordered(b) && multiset(a) == multiset(b) && a != [] && b != []
    ensures a[0] == b[0]
  {
    assert a[0] in multiset(b) && b[0] in multiset(a);
    var i :| 0 <= i < |b| && b[i] == a[0];
    var j :| 0 <= j < |a| && a[j] == b[0];
    var first, other, x, y := a[0], b[0], b[i], a[j];
    assert i > 0 ==> Before(other, x);
    assert j > 0 ==> Before(first, y);
  }

  lemma {:induction false} MultisetTail(a: seq<Indexed>)
    requires a != []
    ensures multiset(a[1..]) == multiset(a) - multiset{a[0]}
  {
    assert a == [a[0]] + a[1..];
  }

  // ---------- the arrangement ----------

  /** The declaration index of each arranged mount. */
  function Order(mounts: seq<Mount>): (order: seq<nat>)
    ensures |order| == |mounts|
    ensures forall i :: 0 <= i < |order| ==> order[i] < |mounts|
  {
    SortedIsFromInput(mounts);
    var sorted := SortByKey(Enumerated(mounts));
    seq(|sorted|, i requires 0 <= i < |sorted| => sorted[i].index)
  }

  lemma {:induction false} SortedIsFromInput(mounts: seq<Mount>)
    ensures var sorted := SortByKey(Enumerated(mounts));
      && Ordered(sorted)
      && |sorted| == |mounts|
      && (forall i :: 0 <= i < |sorted| ==> sorted[i].index < |mounts| && sorted[i].mount == Clean(mounts[sorted[i].index]))
      && (forall k :: 0 <= k < |mounts| ==> Enumerated(mounts)[k] in sorted)
  {
    var xs := Enumerated(mounts);
    SortLaws(xs);
    var sorted := SortByKey(xs);
    assert |sorted| == |multiset(sorted)| == |multiset(xs)| == |xs|;
    forall i | 0 <= i < |sorted|
      ensures sorted[i].index < |mounts| && sorted[i].mount == Clean(mounts[sorted[i].index])
    {
      assert sorted[i] in multiset(sorted);
      assert sorted[i] in xs;
    }
    forall k | 0 <= k < |mounts| ensures xs[k] in sorted {
      assert xs[k] in multiset(sorted);
    }
  }

  /** The result is a rearrangement of the cleaned input, each mount exactly once, in non-decreasing
      depth, and in declaration order within one depth. */
  lemma {:induction false} ArrangementIsStableDepthSort(mounts: seq<Mount>)
    ensures var order, arranged := Order(mounts), Arranged(mounts);
      && |order| == |arranged| == |mounts|
      && (forall i :: 0 <= i < |order| ==>
            order[i] < |mounts| && arranged[i] == mounts[order[i]].(destination := Normalized(mounts[order[i]].destination)))
      && (forall i, j :: 0 <= i < j < |order| ==> order[i] != order[j])
      && (forall k :: 0 <= k < |mounts| ==> k in order)
      && (forall i, j :: 0 <= i < j < |order| ==>
            Depth(arranged[i].destination) < Depth(arranged[j].destination)
            || (Depth(arranged[i].destination) == Depth(arranged[j].destination) && order[i] < order[j]))
  {
    SortedIsFromInput(mounts);
    var sorted, order := SortByKey(Enumerated(mounts)), Order(mounts);
    forall i, j | 0 <= i < j < |order|
      ensures order[i] != order[j]
    {
      assert Before(sorted[i], sorted[j]);
    }
    forall k | 0 <= k < |mounts| ensures k in order {
      assert Enumerated(mounts)[k] in sorted;
      var i :| 0 <= i < |sorted| && sorted[i] == Enumerated(mounts)[k];
      assert order[i] == k;
    }
  }

  // ---------- depth of a normalised destination ----------

  lemma {:induction false} NonEmptyAll(pieces: seq<string>)
    requires forall i :: 0 <= i < |pieces| ==> pieces[i] != ""
    ensures NonEmpty(pieces) == pieces
  {
    if pieces != [] {
      NonEmptyAll(pieces[1..]);
    }
  }

  /** The depth of a normalised destination is its number of parts, except that the current
      directory, which has none, counts as one because it is written `.`. */
  lemma {:induction false} DepthOfRendered(absolute: bool, parts: seq<string>)
    requires AllComponents(parts)
    ensures Depth(Render(absolute, parts)) == if !absolute && parts == [] then 1 else |parts|
  {
    if parts == [] {
      SplitPiece(".");
      NonEmptyAll(["."]);
      SplitCons("", "");
      assert "" + "/" + "" == "/";
      assert Split("") == [""];
      assert ["", ""][1..] == [""] && NonEmpty([""]) == [];
    } else {
      SplitJoin(parts);
      NonEmptyAll(parts);
      SplitCons("", Join(parts));
      assert "" + "/" + Join(parts) == "/" + Join(parts);
      assert ([""] + parts)[1..] == parts;
    }
  }

  /** Among absolute destinations, a mount on a place comes after every mount on a directory above that
      place, and mounts on one place keep their declaration order, however they were written. */
  lemma {:induction false} ParentsComeFirst(mounts: seq<Mount>, dir: seq<string>, i: nat, j: nat)
    requires i < |mounts| && j < |mounts|
    requires IsAbsolute(mounts[Order(mounts)[i]].destination) && IsAbsolute(mounts[Order(mounts)[j]].destination)
    ensures var upper := Resolve(dir, mounts[Order(mounts)[i]].destination);
      var lower := Resolve(dir, mounts[Order(mounts)[j]].destination);
      && (upper < lower ==> i < j)
      && (upper == lower ==> (i < j <==> Order(mounts)[i] < Order(mounts)[j]))
  {
    if i != j {
      PlacedFirstIff(mounts, i, j);
    }
    AbsoluteDepth(dir, mounts[Order(mounts)[i]].destination);
    AbsoluteDepth(dir, mounts[Order(mounts)[j]].destination);
  }

  lemma {:induction false} AbsoluteDepth(dir: seq<string>, path: string)
    requires IsAbsolute(path)
    ensures Depth(Normalized(path)) == |Resolve(dir, path)|
  {
    AbsoluteIsCanonical(dir, path);
    NormalizedForm(path);
    DepthOfRendered(true, Resolve(dir, path));
  }

  /** Among normal parts of one kind, a proper prefix has the smaller depth exactly when it is not the
      current directory over a direct child. */
  lemma {:induction false} PrefixIsShallowerIff(absolute: bool, upper: seq<string>, lower: seq<string>)
    requires AllComponents(upper) && AllComponents(lower) && upper < lower
    ensures (Depth(Render(absolute, upper)) < Depth(Render(absolute, lower))) <==> (absolute || upper != [] || |lower| > 1)
  {
    DepthOfRendered(absolute, upper);
    DepthOfRendered(absolute, lower);
  }

  /** Any two relative destinations are ordered by their number of normal parts, `.` counting as one,
      and then by declaration, wherever the places they name lie. */
  lemma {:induction false} RelativeOrder(mounts: seq<Mount>, i: nat, j: nat)
    requires i < |mounts| && j < |mounts| && i != j
    requires !IsAbsolute(mounts[Order(mounts)[i]].destination) && !IsAbsolute(mounts[Order(mounts)[j]].destination)
    ensures var m, n := |Components(Arranged(mounts)[i].destination)|, |Components(Arranged(mounts)[j].destination)|;
      var x, y := if m == 0 then 1 else m, if n == 0 then 1 else n;
      i < j <==> (x < y || (x == y && Order(mounts)[i] < Order(mounts)[j]))
  {
    PlacedFirstIff(mounts, i, j);
    RelativeDepth(mounts[Order(mounts)[i]].destination);
    RelativeDepth(mounts[Order(mounts)[j]].destination);
  }

  lemma {:induction false} PlacedFirstIff(mounts: seq<Mount>, i: nat, j: nat)
    requires i < |mounts| && j < |mounts| && i != j
    ensures Arranged(mounts)[i] == Clean(mounts[Order(mounts)[i]]) && Arranged(mounts)[j] == Clean(mounts[Order(mounts)[j]])
    ensures var x, y := Depth(Arranged(mounts)[i].destination), Depth(Arranged(mounts)[j].destination);
      i < j <==> (x < y || (x == y && Order(mounts)[i] < Order(mounts)[j]))
  {
    ArrangementIsStableDepthSort(mounts);
  }

  lemma {:induction false} RelativeDepth(path: string)
    requires !IsAbsolute(path)
    ensures var parts := Components(Normalized(path));
      Depth(Normalized(path)) == if parts == [] then 1 else |parts|
  {
    NormalizedForm(path);
    DepthOfRendered(false, Components(Normalized(path)));
  }

  // ---------- when a destination always comes before what lies below it ----------

  /** Seen from `dir`, the mount arranged at `i` is on `path` and the one at `j` on a place below it. */
  ghost predicate Above(path: string, mounts: seq<Mount>, dir: seq<string>, i: nat, j: nat) {
    && i < |mounts| && j < |mounts|
    && mounts[Order(mounts)[i]].destination == path
    && Resolve(dir, path) < Resolve(dir, mounts[Order(mounts)[j]].destination)
  }

  /** Whatever the other mounts, the declaration order and the starting directory, a mount on `path` is
      arranged before every mount below it. */
  ghost predicate AlwaysFirst(path: string) {
    forall mounts: seq<Mount>, dir: seq<string>, i: nat, j: nat :: Above(path, mounts, dir, i, j) ==> i < j
  }

  /** The destinations that always come first: the root, and relative ones that go down by name from the
      starting directory. All others, absolute or relative, can be mounted over what lies below them:
      an absolute one over a relative one, the current directory and every way up over names. */
  lemma {:induction false} AlwaysFirstIff(path: string)
    ensures var parts := Components(Normalized(path));
      AlwaysFirst(path) <==> (if IsAbsolute(path) then parts == [] else parts != [] && parts[0] != "..")
  {
    var parts := Components(Normalized(path));
    NormalizedForm(path);
    if IsAbsolute(path) && parts == [] {
      RootIsFirst(path);
    } else if IsAbsolute(path) {
      AbsoluteCanHide(path);
    } else if parts != [] && parts[0] != ".." {
      DownwardIsFirst(path);
    } else {
      UpwardCanHide(path);
    }
  }

  lemma {:induction false} RootIsFirst(path: string)
    requires IsAbsolute(path) && Components(Normalized(path)) == []
    ensures AlwaysFirst(path)
  {
    forall mounts: seq<Mount>, dir: seq<string>, i: nat, j: nat | Above(path, mounts, dir, i, j) ensures i < j {
      PlacedFirstIff(mounts, i, j);
      AbsoluteDepth(dir, path);
      AbsoluteIsCanonical(dir, path);
      BelowIsDeep(dir, mounts[Order(mounts)[j]].destination);
    }
  }

  lemma {:induction false} DownwardIsFirst(path: string)
    requires !IsAbsolute(path) && Components(Normalized(path)) != [] && Components(Normalized(path))[0] != ".."
    ensures AlwaysFirst(path)
  {
    var parts := Components(Normalized(path));
    NormalizedForm(path);
    RelativeDepth(path);
    forall mounts: seq<Mount>, dir: seq<string>, i: nat, j: nat | Above(path, mounts, dir, i, j) ensures i < j {
      PlacedFirstIff(mounts, i, j);
      NormalizeKeepsMeaning(dir, path);
      WalkDown(dir, parts);
      BelowIsDeep(dir, mounts[Order(mounts)[j]].destination);
    }
  }

  /** A place reached from `dir` lies at most the depth of its destination below `dir`. */
  lemma {:induction false} BelowIsDeep(dir: seq<string>, path: string)
    ensures |Resolve(dir, path)| <= |dir| + Depth(Normalized(path))
    ensures IsAbsolute(path) ==> |Resolve(dir, path)| == Depth(Normalized(path))
    ensures !IsAbsolute(path) ==> Depth(Normalized(path)) >= 1
  {
    if IsAbsolute(path) {
      AbsoluteDepth(dir, path);
    } else {
      NormalizedForm(path);
      RelativeDepth(path);
      NormalizeKeepsMeaning(dir, path);
      WalkIsShort(dir, Components(Normalized(path)));
    }
  }

  /** A destination no shallower than one below it can be mounted after it. */
  lemma {:induction false} CanHide(path: string, lower: string, dir: seq<string>)
    requires Depth(Normalized(lower)) <= Depth(Normalized(path)) && Resolve(dir, path) < Resolve(dir, lower)
    ensures !AlwaysFirst(path)
  {
    var mounts := [Mount("", "", lower, []), Mount("", "", path, [])];
    PairInOrder(mounts[0], mounts[1]);
    assert Above(path, mounts, dir, 1, 0);
  }

  lemma {:induction false} AbsoluteCanHide(path: string)
    requires IsAbsolute(path) && Components(Normalized(path)) != []
    ensures !AlwaysFirst(path)
  {
    var place := Components(Normalized(path));
    AbsoluteDepth(place, path);
    AbsoluteIsCanonical(place, path);
    OneName("a", place);
    CanHide(path, "a", place);
  }

  lemma {:induction false} UpwardCanHide(path: string)
    requires !IsAbsolute(path)
    requires Components(Normalized(path)) == [] || Components(Normalized(path))[0] == ".."
    ensures !AlwaysFirst(path)
  {
    var place := Resolve([], path);
    UpwardPlace(path);
    Downward([], place + ["a"]);
    assert [] + (place + ["a"]) == place + ["a"];
    CanHide(path, Render(false, place + ["a"]), []);
  }

  /** From the root, a destination that does not go down at once names a place shallower than itself. */
  lemma {:induction false} UpwardPlace(path: string)
    requires !IsAbsolute(path)
    requires Components(Normalized(path)) == [] || Components(Normalized(path))[0] == ".."
    ensures |Resolve([], path)| + 1 <= Depth(Normalized(path))
    ensures AllComponents(Resolve([], path)) && ".." !in Resolve([], path)
  {
    var parts := Components(Normalized(path));
    NormalizedForm(path);
    RelativeDepth(path);
    NormalizeKeepsMeaning([], path);
    WalkUpFirst(parts);
    WalkIsNames([], parts);
  }

  lemma {:induction false} WalkIsShort(dir: seq<string>, components: seq<string>)
    ensures |Walk(dir, components)| <= |dir| + |components|
  {
    if components != [] {
      WalkIsShort(dir, components[..|components| - 1]);
    }
  }

  /** Names lead down. */
  lemma {:induction false} WalkDown(dir: seq<string>, components: seq<string>)
    requires ".." !in components
    ensures Walk(dir, components) == dir + components
  {
    if components != [] {
      var n := |components| - 1;
      WalkDown(dir, components[..n]);
      assert components == components[..n] + [components[n]];
    }
  }

  /** A first step up from the root goes nowhere. */
  lemma {:induction false} WalkUpFirst(components: seq<string>)
    requires components == [] || components[0] == ".."
    ensures |Walk([], components)| + 1 <= if components == [] then 1 else |components|
  {
    if |components| > 1 {
      WalkUpFirst(components[..|components| - 1]);
    }
  }

  lemma {:induction false} WalkIsNames(dir: seq<string>, components: seq<string>)
    requires AllComponents(dir) && ".." !in dir && AllComponents(components)
    ensures AllComponents(Walk(dir, components)) && ".." !in Walk(dir, components)
  {
    if components != [] {
      WalkIsNames(dir, components[..|components| - 1]);
    }
  }

  /** Two mounts, the first not deeper than the second, stay in order; otherwise they change places. */
  lemma {:induction false} PairInOrder(a: Mount, b: Mount)
    ensures var x, y := Depth(Normalized(a.destination)), Depth(Normalized(b.destination));
      && Order([a, b]) == (if x <= y then [0, 1] else [1, 0])
      && Arranged([a, b]) == (if x <= y then [Clean(a), Clean(b)] else [Clean(b), Clean(a)])
  {
    var first, second := Indexed(0, Clean(a)), Indexed(1, Clean(b));
    var mounts := [a, b];
    assert Enumerated(mounts) == [first, second];
    if Depth(Normalized(a.destination)) <= Depth(Normalized(b.destination)) {
      SortPair(first, second);
    } else {
      SortPairSwapped(first, second);
    }
  }

  /** A mount on the current directory, declared after one on any direct child, stays after it and
      so hides it, although the place it covers lies above. */
  lemma {:induction false} CurrentDirectoryHidesChild(child: Mount, current: Mount, dir: seq<string>)
    requires Component(child.destination) && child.destination != ".." && current.destination == "."
    ensures Arranged([child, current]) == [child, current]
    ensures Resolve(dir, current.destination) < Resolve(dir, child.destination)
  {
    OneName(child.destination, dir);
    Upward(dir, []);
    PairInOrder(child, current);
  }

  /** So does a mount on the parent directory. */
  lemma {:induction false} ParentDirectoryHidesChild(child: Mount, parent: Mount, dir: seq<string>)
    requires Component(child.destination) && child.destination != ".." && parent.destination == ".."
    ensures Arranged([child, parent]) == [child, parent]
    ensures Resolve(dir, parent.destination) < Resolve(dir, child.destination)
  {
    OneName(child.destination, dir);
    Upward(dir, [".."]);
    PairInOrder(child, parent);
  }

  /** A mount two directories up comes last even when it is declared first. */
  lemma {:induction false} GrandparentDirectoryComesLast(child: Mount, grandparent: Mount, dir: seq<string>)
    requires Component(child.destination) && child.destination != ".." && grandparent.destination == "../.."
    ensures Arranged([grandparent, child]) == [child, grandparent]
    ensures Arranged([child, grandparent]) == [child, grandparent]
    ensures Resolve(dir, grandparent.destination) < Resolve(dir, child.destination)
  {
    OneName(child.destination, dir);
    assert ".." + "/" + ".." == grandparent.destination;
    Upward(dir, ["..", ".."]);
    PairInOrder(grandparent, child);
    PairInOrder(child, grandparent);
  }

  /** A destination made of steps up is normal and leads to `dir` or above it. */
  lemma {:induction false} Upward(dir: seq<string>, ups: seq<string>)
    requires forall i :: 0 <= i < |ups| ==> ups[i] == ".."
    ensures var path := Render(false, ups);
      && Normalized(path) == path
      && Depth(path) == (if ups == [] then 1 else |ups|)
      && Resolve(dir, path) <= dir
  {
    NormalTextIsKept(false, ups);
    DepthOfRendered(false, ups);
    RenderRoundTrip(false, ups);
    WalkUp(dir, ups);
  }

  lemma {:induction false} WalkUp(dir: seq<string>, ups: seq<string>)
    requires forall i :: 0 <= i < |ups| ==> ups[i] == ".."
    ensures Walk(dir, ups) <= dir
  {
    if ups != [] {
      WalkUp(dir, ups[..|ups| - 1]);
    }
  }

  /** A destination made of names is normal and leads down from `dir`. */
  lemma {:induction false} Downward(dir: seq<string>, names: seq<string>)
    requires names != [] && AllComponents(names) && ".." !in names
    ensures var path := Render(false, names);
      && Normalized(path) == path
      && Depth(path) == |names|
      && Resolve(dir, path) == dir + names
  {
    NormalTextIsKept(false, names);
    DepthOfRendered(false, names);
    RenderRoundTrip(false, names);
    WalkDown(dir, names);
  }

  lemma {:induction false} OneName(name: string, dir: seq<string>)
    requires Component(name) && name != ".."
    ensures Normalized(name) == name && Depth(name) == 1 && Resolve(dir, name) == dir + [name]
  {
    var names := [name];
    assert Render(false, names) == name;
    Downward(dir, names);
  }

  lemma {:induction false} SortPair(a: Indexed, b: Indexed)
    requires Before(a, b)
    ensures SortByKey([a, b]) == [a, b]
  {
    assert [a, b][1..] == [b];
    assert SortByKey([b]) == [b];
  }

  lemma {:induction false} SortPairSwapped(a: Indexed, b: Indexed)
    requires Before(b, a)
    ensures SortByKey([a, b]) == [b, a]
  {
    assert [a, b][1..] == [b] && [b][1..] == [];
    assert SortByKey([b]) == [b];
    assert Insert(a, []) == [a];
  }

  lemma {:induction false} NormalTextIsKept(absolute: bool, parts: seq<string>)
    requires NormalForm(absolute, parts)
    ensures Normalized(Render(absolute, parts)) == Render(absolute, parts)
  {
    RenderRoundTrip(absolute, parts);
    NormalIsStable(absolute, parts);
  }
}
