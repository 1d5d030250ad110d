/** Walking a sample's stack through a prefix table that may be cyclic or dangling. */
module StackWalk {
  import opened Wrappers

  /** The two columns that matter; they need not have the same length. */
  datatype StackTable = StackTable(frame: seq<Option<int>>, prefix: seq<Option<int>>)

  function TableAt(column: seq<Option<int>>, index: int): Option<int> {
    if index < 0 || index >= |column| then None else column[index]
  }

  predicate Live(t: StackTable, row: int) {
    TableAt(t.frame, row).Some?
  }

  function Below(n: nat): (below: set<int>)
    ensures |below| == n
    ensures forall i :: i in below <==> 0 <= i < n
  {
    if n == 0 then {} else Below(n - 1) + {n - 1}
  }

  function Unseen(t: StackTable, seen: set<int>): set<int> {
    Below(|t.frame|) - seen
  }

  /** The rows visited from `current`; the number of unseen rows bounds the walk. */
  function RowsFrom(t: StackTable, current: Option<int>, seen: set<int>): seq<int>
    decreases |Unseen(t, seen)|
  {
    if current.None? || current.value in seen || !Live(t, current.value) then []
    else
      var row := current.value;
      UnseenShrinks(t, seen, row);
      [row] + RowsFrom(t, TableAt(t.prefix, row), seen + {row})
  }

  lemma {:induction false} UnseenShrinks(t: StackTable, seen: set<int>, row: int)
    requires row !in seen && Live(t, row)
    ensures |Unseen(t, seen + {row})| < |Unseen(t, seen)|
  {
    assert Unseen(t, seen) == Unseen(t, seen + {row}) + {row};
  }

  function FramesOf<F>(t: StackTable, rows: seq<int>, resolve: int -> F): (frames: seq<F>)
    requires forall i :: 0 <= i < |rows| ==> Live(t, rows[i])
    ensures |frames| == |rows|
  {
    seq(|rows|, i requires 0 <= i < |rows| && Live(t, rows[i]) => resolve(TableAt(t.frame, rows[i]).value))
  }

  lemma {:induction false} RowsStep(t: StackTable, before: seq<int>, row: int, seen: set<int>)
    requires row !in seen && Live(t, row)
    ensures before + RowsFrom(t, Some(row), seen)
         == before + [row] + RowsFrom(t, TableAt(t.prefix, row), seen + {row})
  {
    UnseenShrinks(t, seen, row);
  }

  lemma {:induction false} RowsAreLive(t: StackTable, current: Option<int>, seen: set<int>)
    ensures forall i :: 0 <= i < |RowsFrom(t, current, seen)| ==> Live(t, RowsFrom(t, current, seen)[i])
    decreases |Unseen(t, seen)|
  {
    if !(current.None? || current.value in seen || !Live(t, current.value)) {
      UnseenShrinks(t, seen, current.value);
      RowsAreLive(t, TableAt(t.prefix, current.value), seen + {current.value});
    }
  }

  /** The frames of the rows still to be visited. */
  function FramesFrom<F>(t: StackTable, current: Option<int>, seen: set<int>, resolve: int -> F): seq<F> {
    RowsAreLive(t, current, seen);
    FramesOf(t, RowsFrom(t, current, seen), resolve)
  }

  lemma {:induction false} FramesStep<F>(t: StackTable, before: seq<F>, row: int, seen: set<int>, resolve: int -> F)
    requires row !in seen && Live(t, row)
    ensures before + FramesFrom(t, Some(row), seen, resolve)
         == before + [resolve(TableAt(t.frame, row).value)] + FramesFrom(t, TableAt(t.prefix, row), seen + {row}, resolve)
  {
    RowsAreLive(t, Some(row), seen);
    RowsStep(t, [], row, seen);
  }

  /** Terminates on every table, cyclic ones included, with the frames of the longest chain. */
  method StackFrames<F>(t: StackTable, stackIndex: Option<int>, resolve: int -> F) returns (frames: seq<F>)
    ensures frames == FramesFrom(t, stackIndex, {}, resolve)
    ensures exists rows :: LongestChain(t, stackIndex, rows) && ResolvedFrom(t, rows, resolve, frames)
  {
    frames := [];
    var seen: set<int> := {};
    var current := stackIndex;
    ghost var all := FramesFrom(t, stackIndex, {}, resolve);
    while current.Some?
      invariant all == frames + FramesFrom(t, current, seen, resolve)
      decreases |Unseen(t, seen)|, current.Some?
    {
      var row := current.value;
      if row in seen {
        break;
      }
      var frameIndex := TableAt(t.frame, row);
      if frameIndex.None? {
        break;
      }
      UnseenShrinks(t, seen, row);
      FramesStep(t, frames, row, seen, resolve);
      seen := seen + {row};
      frames := frames + [resolve(frameIndex.value)];
      current := TableAt(t.prefix, row);
    }
    assert frames + [] == frames;
    FramesAreResolved(t, stackIndex, resolve);
  }

  // ---------- the walk, described on the columns and without walking ----------

  /** The row stands in the frame column and has a frame there. */
  predicate HasFrame(t: StackTable, row: int) {
    0 <= row < |t.frame| && t.frame[row].Some?
  }

  /** The prefix column leads from one row to the other. */
  predicate LeadsTo(t: StackTable, row: int, next: int) {
    0 <= row < |t.prefix| && t.prefix[row] == Some(next)
  }

  /** `rows` is a chain of distinct rows with frames from `start`, each the prefix of the one before. */
  ghost predicate Chain(t: StackTable, start: Option<int>, rows: seq<int>) {
    && (rows != [] ==> start == Some(rows[0]))
    && (forall i :: 0 <= i < |rows| ==> HasFrame(t, rows[i]))
    && (forall i :: 0 < i < |rows| ==> LeadsTo(t, rows[i - 1], rows[i]))
    && (forall i, j :: 0 <= i < j < |rows| ==> rows[i] != rows[j])
  }

  /** The row a chain would go on to. */
  predicate GoesOn(t: StackTable, start: Option<int>, rows: seq<int>, next: int) {
    if rows == [] then start == Some(next) else LeadsTo(t, rows[|rows| - 1], next)
  }

  /** A chain is longest when it cannot go on: whatever row comes next is repeated or has no frame. */
  ghost predicate LongestChain(t: StackTable, start: Option<int>, rows: seq<int>) {
    && Chain(t, start, rows)
    && forall next :: GoesOn(t, start, rows, next) ==> next in rows || !HasFrame(t, next)
  }

  /** One frame for each row, resolved from the row's own entry in the frame column. */
  ghost predicate ResolvedFrom<F>(t: StackTable, rows: seq<int>, resolve: int -> F, frames: seq<F>) {
    && |frames| == |rows|
    && forall i :: 0 <= i < |rows| ==> HasFrame(t, rows[i]) && frames[i] == resolve(t.frame[rows[i]].value)
  }

  lemma {:induction false} FramesAreResolved<F>(t: StackTable, start: Option<int>, resolve: int -> F)
    ensures LongestChain(t, start, RowsFrom(t, start, {}))
    ensures ResolvedFrom(t, RowsFrom(t, start, {}), resolve, FramesFrom(t, start, {}, resolve))
  {
    WalkIsLongestChain(t, start);
    RowsAreLive(t, start, {});
  }

  function NextRow(t: StackTable, start: Option<int>, rows: seq<int>): Option<int> {
    if rows == [] then start else TableAt(t.prefix, rows[|rows| - 1])
  }

  lemma NextRowGoesOn(t: StackTable, start: Option<int>, rows: seq<int>, next: int)
    ensures NextRow(t, start, rows) == Some(next) <==> GoesOn(t, start, rows, next)
    ensures Live(t, next) <==> HasFrame(t, next)
  {
  }

  lemma {:induction false} WalkExtends(t: StackTable, start: Option<int>, before: seq<int>, seen: set<int>)
    requires Chain(t, start, before) && forall row :: row in seen <==> row in before
    ensures LongestChain(t, start, before + RowsFrom(t, NextRow(t, start, before), seen))
    decreases |Unseen(t, seen)|
  {
    var next := NextRow(t, start, before);
    if next.None? || next.value in seen || !Live(t, next.value) {
      assert before + [] == before;
      forall row ensures GoesOn(t, start, before, row) ==> row in before || !HasFrame(t, row) {
        NextRowGoesOn(t, start, before, row);
      }
    } else {
      UnseenShrinks(t, seen, next.value);
      ChainGrows(t, start, before);
      WalkExtends(t, start, before + [next.value], seen + {next.value});
      RowsStep(t, before, next.value, seen);
    }
  }

  lemma ChainGrows(t: StackTable, start: Option<int>, before: seq<int>)
    requires Chain(t, start, before) && NextRow(t, start, before).Some?
    requires NextRow(t, start, before).value !in before && Live(t, NextRow(t, start, before).value)
    ensures Chain(t, start, before + [NextRow(t, start, before).value])
  {
  }

  /** The rows visited are the longest repeat-free chain inside the table. */
  lemma {:induction false} WalkIsLongestChain(t: StackTable, start: Option<int>)
    ensures LongestChain(t, start, RowsFrom(t, start, {}))
  {
    WalkExtends(t, start, [], {});
    assert [] + RowsFrom(t, start, {}) == RowsFrom(t, start, {});
  }

  lemma NextInChain(t: StackTable, start: Option<int>, rows: seq<int>, n: nat)
    requires Chain(t, start, rows) && n < |rows|
    ensures GoesOn(t, start, rows[..n], rows[n])
    ensures rows[n] !in rows[..n] && HasFrame(t, rows[n])
  {
  }

  /** Where a chain goes on, a longest one that agrees with it so far goes on the same way. */
  lemma {:induction false} ChainsAgree(t: StackTable, start: Option<int>, rows: seq<int>, longest: seq<int>, n: nat)
    requires Chain(t, start, rows) && LongestChain(t, start, longest)
    requires n < |rows| && n <= |longest| && rows[..n] == longest[..n]
    ensures n < |longest| && longest[n] == rows[n]
  {
    var whole := longest[..n];
    assert n == |longest| ==> longest == whole;
    NextInChain(t, start, rows, n);
    if n < |longest| {
      NextInChain(t, start, longest, n);
    }
  }

  /** Every chain from the same start is a prefix of a longest one, so there is only one longest. */
  lemma {:induction false} ChainsArePrefixes(t: StackTable, start: Option<int>, rows: seq<int>, longest: seq<int>)
    requires Chain(t, start, rows) && LongestChain(t, start, longest)
    ensures rows <= longest
  {
    PartsArePrefixes(t, start, rows, longest, |rows|);
    assert rows[..|rows|] == rows;
  }

  lemma {:induction false} PartsArePrefixes(t: StackTable, start: Option<int>, rows: seq<int>, longest: seq<int>, n: nat)
    requires Chain(t, start, rows) && LongestChain(t, start, longest) && n <= |rows|
    ensures rows[..n] <= longest
  {
    if n > 0 {
      PartsArePrefixes(t, start, rows, longest, n - 1);
      ChainsAgree(t, start, rows, longest, n - 1);
      assert rows[..n] == rows[..n - 1] + [rows[n - 1]];
    }
  }

  /** At most one frame per table row. */
  lemma {:induction false} WalkIsBounded(t: StackTable, start: Option<int>)
    ensures |RowsFrom(t, start, {})| <= |t.frame|
  {
    WalkIsLongestChain(t, start);
    DistinctRowsAreFew(RowsFrom(t, start, {}), |t.frame|);
  }

  lemma {:induction false} DistinctRowsAreFew(rows: seq<int>, n: nat)
    requires forall i :: 0 <= i < |rows| ==> 0 <= rows[i] < n
    requires forall i, j :: 0 <= i < j < |rows| ==> rows[i] != rows[j]
    ensures |rows| <= n
  {
    DistinctCount(rows);
    SubsetSize((set r | r in rows), Below(n));
  }

  lemma {:induction false} DistinctCount(rows: seq<int>)
    requires forall i, j :: 0 <= i < j < |rows| ==> rows[i] != rows[j]
    ensures |set r | r in rows| == |rows|
  {
    if rows != [] {
      DistinctCount(rows[1..]);
      assert (set r | r in rows) == {rows[0]} + (set r | r in rows[1..]);
    }
  }

  lemma {:induction false} SubsetSize(a: set<int>, b: set<int>)
    requires a <= b
    ensures |a| <= |b|
  {
    assert |b| == |a| + |b - a| by { assert b == a + (b - a); }
  }
}
