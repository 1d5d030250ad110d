/** Mount destinations: splitting a path into components and normalising it. */
module MountPaths {

  /** The pieces between slashes. */
  function Split(s: string): (pieces: seq<string>)
    ensures pieces != []
  {
    if s == [] then [[]]
    else
      var rest := Split(s[1..]);
      if s[0] == '/' then [[]] + rest else [[s[0]] + rest[0]] + rest[1..]
  }

  function Join(parts: seq<string>): string {
    if parts == [] then []
    else if |parts| == 1 then parts[0]
    else parts[0] + "/" + Join(parts[1..])
  }

  /** Empty pieces and `.` name nothing. */
  predicate Names(piece: string) {
    piece != "" && piece != "."
  }

  function Naming(pieces: seq<string>): seq<string> {
    if pieces == [] then []
    else (if Names(pieces[0]) then [pieces[0]] else []) + Naming(pieces[1..])
  }

  /** The components of a Unix path after its root, `.` left out. */
  function Components(path: string): seq<string> {
    Naming(Split(path))
  }

  predicate IsAbsolute(path: string) {
    path != "" && path[0] == '/'
  }

  /** One component on the stack of parts. */
  function Apply(absolute: bool, parts: seq<string>, component: string): seq<string> {
    if component != ".." then parts + [component]
    else if parts != [] && parts[|parts| - 1] != ".." then parts[..|parts| - 1]
    else if !absolute then parts + [".."]
    else parts
  }

  function NormalParts(absolute: bool, components: seq<string>): seq<string> {
    if components == [] then []
    else
      var n := |components| - 1;
      Apply(absolute, NormalParts(absolute, components[..n]), components[n])
  }

  function Render(absolute: bool, parts: seq<string>): string {
    if absolute then if parts == [] then "/" else "/" + Join(parts)
    else if parts == [] then "."
    else Join(parts)
  }

  function Normalized(path: string): string {
    Render(IsAbsolute(path), NormalParts(IsAbsolute(path), Components(path)))
  }

  method NormalizeMountDestination(destination: string) returns (normal: string)
    ensures normal == Normalized(destination)
  {
    var absolute := IsAbsolute(destination);
    var components := Components(destination);
    var parts: seq<string> := [];
    for i := 0 to |components|
      invariant parts == NormalParts(absolute, components[..i])
    {
      assert components[..i + 1][..i] == components[..i];
      if components[i] == ".." {
        if parts != [] && parts[|parts| - 1] != ".." {
          parts := parts[..|parts| - 1];
        } else if !absolute {
          parts := parts + [".."];
        }
      } else {
        parts := parts + [components[i]];
      }
    }
    assert components[..|components|] == components;
    normal := Render(absolute, parts);
  }

  // ---------- what a path means ----------

  /** Follows components from a directory, given as the names on the way down from the root. */
  function Walk(dir: seq<string>, components: seq<string>): seq<string> {
    if components == [] then dir
    else
      var n := |components| - 1;
      var at := Walk(dir, components[..n]);
      if components[n] != ".." then at + [components[n]]
      else if at == [] then [] else at[..|at| - 1]
  }

  /** The place a path names, seen from `dir`. */
  function Resolve(dir: seq<string>, path: string): seq<string> {
    Walk(if IsAbsolute(path) then [] else dir, Components(path))
  }

  // ---------- strings and components ----------

  predicate Piece(p: string) {
    '/' !in p
  }

  lemma {:induction false} SplitGivesPieces(s: string)
    ensures forall i :: 0 <= i < |Split(s)| ==> Piece(Split(s)[i])
  {
    if s != [] {
      SplitGivesPieces(s[1..]);
    }
  }

  lemma {:induction false} SplitPiece(p: string)
    requires Piece(p)
    ensures Split(p) == [p]
  {
    if p != [] {
      SplitPiece(p[1..]);
      assert [p[0]] + p[1..] == p;
    }
  }

  lemma {:induction false} SplitCons(p: string, rest: string)
    requires Piece(p)
    ensures Split(p + "/" + rest) == [p] + Split(rest)
  {
    var s := p + "/" + rest;
    if p == [] {
      assert s[1..] == rest;
    } else {
      assert s[1..] == p[1..] + "/" + rest;
      SplitCons(p[1..], rest);
      assert [p[0]] + p[1..] == p;
    }
  }

  lemma {:induction false} SplitJoin(parts: seq<string>)
    requires parts != [] && forall i :: 0 <= i < |parts| ==> Piece(parts[i])
    ensures Split(Join(parts)) == parts
  {
    if |parts| == 1 {
      SplitPiece(parts[0]);
    } else {
      SplitJoin(parts[1..]);
      SplitCons(parts[0], Join(parts[1..]));
    }
  }

  lemma {:induction false} NamingNames(pieces: seq<string>)
    ensures forall i :: 0 <= i < |Naming(pieces)| ==> Names(Naming(pieces)[i]) && Naming(pieces)[i] in pieces
  {
    if pieces != [] {
      NamingNames(pieces[1..]);
    }
  }

  lemma {:induction false} NamingAll(pieces: seq<string>)
    requires forall i :: 0 <= i < |pieces| ==> Names(pieces[i])
    ensures Naming(pieces) == pieces
  {
    if pieces != [] {
      NamingAll(pieces[1..]);
    }
  }

  /** A component: a non-empty name without slashes that is not `.`. */
  predicate Component(p: string) {
    Piece(p) && Names(p)
  }

  ghost predicate AllComponents(parts: seq<string>) {
    forall i :: 0 <= i < |parts| ==> Component(parts[i])
  }

  lemma {:induction false} ComponentsAreComponents(path: string)
    ensures AllComponents(Components(path))
  {
    SplitGivesPieces(path);
    NamingNames(Split(path));
  }

  /** Rendering parts and splitting the text again gives the parts back. */
  lemma {:induction false} RenderRoundTrip(absolute: bool, parts: seq<string>)
    requires AllComponents(parts)
    ensures IsAbsolute(Render(absolute, parts)) == absolute
    ensures Components(Render(absolute, parts)) == parts
  {
    if parts == [] {
      SplitPiece(".");
      SplitPiece("");
      SplitCons("", "");
      assert "" + "/" + "" == "/";
      assert Naming([""]) == [] && Naming(["."]) == [];
      assert ([""] + [""])[1..] == [""];
    } else {
      var text := Join(parts);
      SplitJoin(parts);
      NamingAll(parts);
      SplitCons("", text);
      assert "" + "/" + text == "/" + text;
      assert ([""] + parts)[1..] == parts;
      JoinStartsWithName(parts);
    }
  }

  lemma {:induction false} JoinStartsWithName(parts: seq<string>)
    requires parts != [] && AllComponents(parts)
    ensures Join(parts) != "" && Join(parts)[0] != '/'
  {
    assert parts[0][0] in parts[0];
  }

  // ---------- reading a path ----------

  lemma {:induction false} SplitConcat(a: string, b: string)
    ensures Split(a + "/" + b) == Split(a) + Split(b)
  {
    var s := a + "/" + b;
    if a == [] {
      assert s[1..] == b;
    } else {
      assert s[1..] == a[1..] + "/" + b;
      SplitConcat(a[1..], b);
    }
  }

  lemma {:induction false} NamingConcat(a: seq<string>, b: seq<string>)
    ensures Naming(a + b) == Naming(a) + Naming(b)
  {
    if a == [] {
      assert a + b == b;
    } else {
      assert (a + b)[1..] == a[1..] + b;
      NamingConcat(a[1..], b);
    }
  }

  /** A slash separates what comes before it from what comes after. */
  lemma {:induction false} ComponentsConcat(a: string, b: string)
    ensures Components(a + "/" + b) == Components(a) + Components(b)
  {
    SplitConcat(a, b);
    NamingConcat(Split(a), Split(b));
  }

  /** A text without slashes is one component, or none when it is empty or the current directory. */
  lemma {:induction false} ComponentsOfPiece(p: string)
    requires '/' !in p
    ensures Components(p) == if p == "" || p == "." then [] else [p]
  {
    SplitPiece(p);
    assert [p][1..] == [];
    assert Naming([p]) == (if Names(p) then [p] else []) + Naming([]);
  }

  /** Where one piece leads: it stays, goes to the parent, or goes down by its name. */
  function Go(at: seq<string>, piece: string): seq<string> {
    if piece == "" || piece == "." then at
    else if piece == ".." then if at == [] then [] else at[..|at| - 1]
    else at + [piece]
  }

  lemma {:induction false} WalkPiece(dir: seq<string>, components: seq<string>, piece: string)
    requires '/' !in piece
    ensures Walk(dir, components + Components(piece)) == Go(Walk(dir, components), piece)
  {
    ComponentsOfPiece(piece);
    if piece == "" || piece == "." {
      assert components + [] == components;
    } else {
      WalkSnoc(dir, components, piece);
    }
  }

  /** What a path means, read piece by piece: it starts at the directory, or at the root when it begins
      with a slash, and every further slash lets the next piece start where the last one led. */
  lemma {:induction false} ResolveByPieces(dir: seq<string>, path: string, piece: string)
    requires '/' !in piece
    ensures Resolve(dir, piece) == Go(dir, piece)
    ensures Resolve(dir, path + "/" + piece) == Go(if path == "" then [] else Resolve(dir, path), piece)
  {
    assert piece != "" ==> piece[0] in piece;
    assert [] + Components(piece) == Components(piece);
    WalkPiece(dir, [], piece);
    var longer := path + "/" + piece;
    assert longer[0] == if path == "" then '/' else path[0];
    ComponentsConcat(path, piece);
    ComponentsOfPiece("");
    WalkPiece(if IsAbsolute(longer) then [] else dir, Components(path), piece);
  }

  // ---------- normal form ----------

  /** A run of `..` followed by ordinary names; only relative paths may start with `..`. */
  ghost predicate NormalForm(absolute: bool, parts: seq<string>) {
    && AllComponents(parts)
    && (forall i, j :: 0 <= i < j < |parts| && parts[j] == ".." ==> parts[i] == "..")
    && (absolute ==> ".." !in parts)
  }

  lemma {:induction false} PartsAreNormal(absolute: bool, components: seq<string>)
    requires AllComponents(components)
    ensures NormalForm(absolute, NormalParts(absolute, components))
  {
    if components != [] {
      PartsAreNormal(absolute, components[..|components| - 1]);
    }
  }

  lemma {:induction false} NormalIsStable(absolute: bool, parts: seq<string>)
    requires NormalForm(absolute, parts)
    ensures NormalParts(absolute, parts) == parts
  {
    if parts != [] {
      var n := |parts| - 1;
      NormalIsStable(absolute, parts[..n]);
      assert parts == parts[..n] + [parts[n]];
    }
  }

  /** Every result is in normal form: absolute results hold no `.` and no `..`, relative results are a
      run of `..` followed by ordinary names. */
  lemma {:induction false} NormalizedForm(path: string)
    ensures IsAbsolute(Normalized(path)) == IsAbsolute(path)
    ensures Components(Normalized(path)) == NormalParts(IsAbsolute(path), Components(path))
    ensures NormalForm(IsAbsolute(path), Components(Normalized(path)))
    ensures Normalized(path) == Render(IsAbsolute(path), Components(Normalized(path)))
  {
    ComponentsAreComponents(path);
    PartsAreNormal(IsAbsolute(path), Components(path));
    RenderRoundTrip(IsAbsolute(path), NormalParts(IsAbsolute(path), Components(path)));
  }

  lemma {:induction false} NormalizeIdempotent(path: string)
    ensures Normalized(Normalized(path)) == Normalized(path)
  {
    NormalizedForm(path);
    NormalIsStable(IsAbsolute(path), Components(Normalized(path)));
  }

  // ---------- meaning ----------

  /** Taking a name and then its parent leads back, so cancelling the two keeps the place. */
  lemma {:induction false} WalkNormal(dir: seq<string>, absolute: bool, components: seq<string>)
    requires absolute ==> dir == []
    ensures Walk(dir, NormalParts(absolute, components)) == Walk(dir, components)
    ensures absolute ==> (".." !in NormalParts(absolute, components) && Walk(dir, components) == NormalParts(absolute, components))
  {
    if components != [] {
      var n := |components| - 1;
      var before, last := NormalParts(absolute, components[..n]), components[n];
      WalkNormal(dir, absolute, components[..n]);
      WalkSnoc(dir, before, last);
      if last == ".." && before != [] && before[|before| - 1] != ".." {
        var m := |before| - 1;
        WalkSnoc(dir, before[..m], before[m]);
        assert before == before[..m] + [before[m]];
        var at := Walk(dir, before[..m]);
        assert (at + [before[m]])[..|at|] == at;
      }
    }
  }

  lemma {:induction false} WalkSnoc(dir: seq<string>, components: seq<string>, last: string)
    ensures var at := Walk(dir, components);
      Walk(dir, components + [last])
        == if last != ".." then at + [last] else if at == [] then [] else at[..|at| - 1]
  {
    assert (components + [last])[..|components|] == components;
  }

  /** From every starting directory the normalised path names the same place as the original. */
  lemma {:induction false} NormalizeKeepsMeaning(dir: seq<string>, path: string)
    ensures Resolve(dir, Normalized(path)) == Resolve(dir, path)
  {
    NormalizedForm(path);
    WalkNormal(if IsAbsolute(path) then [] else dir, IsAbsolute(path), Components(path));
  }

  /** An absolute path normalises to the text of the place it names, so two absolute paths name one
      place exactly when they normalise to the same text. */
  lemma {:induction false} AbsoluteIsCanonical(dir: seq<string>, path: string)
    requires IsAbsolute(path)
    ensures Components(Normalized(path)) == Resolve(dir, path)
    ensures Normalized(path) == Render(true, Resolve(dir, path))
  {
    NormalizedForm(path);
    WalkNormal([], true, Components(path));
  }
}
