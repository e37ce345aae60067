/** Long unchanged runs put away behind a marker, and brought back from the bodies. */
module DiffCollapse {
  import opened Common
  import opened WordSpans
  import opened DocumentDiff

  type Rows = seq<DiffRow>

  // ---------------------------------------------------------------- as it is done: run by run

  /** Where the run of unchanged rows from i ends. */
  function RunEnd(rows: Rows, i: nat): (j: nat)
    requires i <= |rows|
    ensures i <= j <= |rows| && (forall k :: i <= k < j ==> rows[k].op.Equal?) && (j < |rows| ==> !rows[j].op.Equal?)
    decreases |rows| - i
  {
    if i < |rows| && rows[i].op.Equal? then RunEnd(rows, i + 1) else i
  }

  function Lead(i: nat, context: nat): nat {
    if i > 0 then context else 0
  }

  function Trail(rows: Rows, j: nat, context: nat): nat {
    if j < |rows| then context else 0
  }

  /** A run is shown in full unless at least two of its rows would be put away. */
  function ShownRun(rows: Rows, i: nat, j: nat, context: nat): Rows
    requires i <= j <= |rows|
  {
    var lead, trail := Lead(i, context), Trail(rows, j, context);
    if j - i <= lead + trail + 1 then rows[i..j]
    else rows[i..i + lead] + [SkipRow(j - i - lead - trail)] + rows[j - trail..j]
  }

  function CollapsedFrom(rows: Rows, context: nat, i: nat): Rows
    requires i <= |rows|
    decreases |rows| - i
  {
    if i == |rows| then []
    else if !rows[i].op.Equal? then [rows[i]] + CollapsedFrom(rows, context, i + 1)
    else ShownRun(rows, i, RunEnd(rows, i), context) + CollapsedFrom(rows, context, RunEnd(rows, i))
  }

  function Collapsed(rows: Rows, context: int): Rows {
    if context < 0 then rows else CollapsedFrom(rows, context, 0)
  }

  method Collapse(rows: Rows, context: int) returns (out: Rows)
    ensures out == Collapsed(rows, context)
  {
    if context < 0 {
      return rows;
    }
    out := [];
    var i := 0;
    while i < |rows|
      invariant 0 <= i <= |rows|
      invariant out + CollapsedFrom(rows, context, i) == CollapsedFrom(rows, context, 0)
    {
      ghost var rest := CollapsedFrom(rows, context, i);
      if !rows[i].op.Equal? {
        out := out + [rows[i]];
        i := i + 1;
      } else {
        var shown, j := CollapseRun(rows, i, context);
        assert rest == shown + CollapsedFrom(rows, context, j);
        assert out + (shown + CollapsedFrom(rows, context, j)) == out + shown + CollapsedFrom(rows, context, j);
        out := out + shown;
        i := j;
      }
    }
  }

  method CollapseRun(rows: Rows, i: nat, context: nat) returns (shown: Rows, j: nat)
    requires i < |rows| && rows[i].op.Equal?
    ensures j == RunEnd(rows, i) && i < j && shown == ShownRun(rows, i, j, context)
  {
    j := i;
    while j < |rows| && rows[j].op.Equal?
      invariant i <= j <= |rows| && RunEnd(rows, j) == RunEnd(rows, i)
      invariant j == i ==> rows[i].op.Equal?
    {
      j := j + 1;
    }
    shown := ShowRun(rows, i, j, context);
  }

  method ShowRun(rows: Rows, i: nat, j: nat, context: nat) returns (shown: Rows)
    requires i <= j <= |rows|
    ensures shown == ShownRun(rows, i, j, context)
  {
    var lead := if i > 0 then context else 0;
    var trail := if j < |rows| then context else 0;
    if j - i <= lead + trail + 1 {
      return rows[i..j];
    }
    shown := rows[i..i + lead] + [SkipRow(j - i - lead - trail)];
    if trail > 0 {
      shown := shown + rows[j - trail..j];
    }
  }

  // ---------------------------------------------------------------- as it is meant: row by row

  /** A change, or within context rows of one, on either side. */
  predicate Near(rows: Rows, context: nat, k: int) {
    exists m :: 0 <= m < |rows| && k - context <= m <= k + context && !rows[m].op.Equal?
  }

  /** Which rows are near a change. */
  function Marks(rows: Rows, context: nat): (near: seq<bool>)
    ensures |near| == |rows|
  {
    seq(|rows|, k requires 0 <= k < |rows| => Near(rows, context, k))
  }

  function FarEnd(near: seq<bool>, k: nat): (e: nat)
    requires k <= |near|
    ensures k <= e <= |near| && (forall m :: k <= m < e ==> !near[m]) && (e < |near| ==> near[e])
    decreases |near| - k
  {
    if k < |near| && !near[k] then FarEnd(near, k + 1) else k
  }

  /** A far stretch: a marker with its length, unless it is one row. */
  function PutAway(rows: Rows, p: nat, q: nat): Rows
    requires p <= q <= |rows|
  {
    if q == p + 1 then rows[p..q] else [SkipRow(q - p)]
  }

  /** Rows near a change are shown, and the stretches between them counted; a stretch of one is shown. */
  function Summarised(rows: Rows, near: seq<bool>, k: nat): Rows
    requires |near| == |rows| && k <= |rows|
    decreases |rows| - k
  {
    if k == |rows| then []
    else if near[k] then [rows[k]] + Summarised(rows, near, k + 1)
    else PutAway(rows, k, FarEnd(near, k)) + Summarised(rows, near, FarEnd(near, k))
  }

  lemma Front<T>(s: seq<T>, i: nat, p: nat, rest: seq<T>)
    requires i < p <= |s|
    ensures [s[i]] + (s[i + 1..p] + rest) == s[i..p] + rest
  {
  }

  lemma {:induction false} NearStretch(rows: Rows, near: seq<bool>, i: nat, p: nat)
    requires |near| == |rows| && i <= p <= |rows| && forall k :: i <= k < p ==> near[k]
    ensures Summarised(rows, near, i) == rows[i..p] + Summarised(rows, near, p)
    decreases p - i
  {
    if i < p {
      NearStretch(rows, near, i + 1, p);
      Front(rows, i, p, Summarised(rows, near, p));
    }
  }

  /** Inside a run, only the change before it and the change after it can be near. */
  lemma NearInRun(rows: Rows, context: nat, i: nat, j: nat, k: nat)
    requires i <= k < j <= |rows| && (forall m :: i <= m < j ==> rows[m].op.Equal?)
    requires (i > 0 ==> !rows[i - 1].op.Equal?) && (j < |rows| ==> !rows[j].op.Equal?)
    ensures Near(rows, context, k) <==> k < i + Lead(i, context) || k >= j - Trail(rows, j, context)
  {
    if i > 0 && k < i + context {
      assert k - context <= i - 1 <= k + context;
    }
    if j < |rows| && k >= j - context {
      assert k - context <= j <= k + context;
    }
  }

  lemma {:induction false} FarEndIs(near: seq<bool>, k: nat, e: nat)
    requires k <= e <= |near| && (forall m :: k <= m < e ==> !near[m]) && (e < |near| ==> near[e])
    ensures FarEnd(near, k) == e
    decreases e - k
  {
    if k < e {
      FarEndIs(near, k + 1, e);
    }
  }

  lemma FarStretch(rows: Rows, near: seq<bool>, p: nat, q: nat)
    requires |near| == |rows| && p < q <= |rows| && (forall m :: p <= m < q ==> !near[m]) && (q < |rows| ==> near[q])
    ensures Summarised(rows, near, p) == PutAway(rows, p, q) + Summarised(rows, near, q)
  {
    FarEndIs(near, p, q);
  }

  lemma Regroup<T>(x: seq<T>, y: seq<T>, z: seq<T>, rest: seq<T>)
    ensures x + y + z + rest == x + (y + (z + rest))
  {
  }

  /** How a run is marked: near the change before it, near neither, near the change after it. */
  ghost predicate MarkedInThree(near: seq<bool>, i: nat, p: nat, q: nat, j: nat)
    requires i <= p <= q <= j <= |near|
  {
    && (forall k :: i <= k < p || q <= k < j ==> near[k])
    && (forall k :: p <= k < q ==> !near[k])
    && (q < |near| ==> near[q])
  }

  /** A run summarised in its three parts. */
  lemma LongRunSummarised(rows: Rows, near: seq<bool>, i: nat, p: nat, q: nat, j: nat, shown: Rows)
    requires |near| == |rows| && i <= p < q <= j <= |rows| && MarkedInThree(near, i, p, q, j)
    requires shown == rows[i..p] + PutAway(rows, p, q) + rows[q..j]
    ensures Summarised(rows, near, i) == shown + Summarised(rows, near, j)
  {
    NearStretch(rows, near, i, p);
    FarStretch(rows, near, p, q);
    NearStretch(rows, near, q, j);
    Regroup(rows[i..p], PutAway(rows, p, q), rows[q..j], Summarised(rows, near, j));
  }

  lemma ShortRunShown(rows: Rows, context: nat, i: nat, j: nat)
    requires i < j <= |rows| && j - i <= Lead(i, context) + Trail(rows, j, context)
    ensures ShownRun(rows, i, j, context) == rows[i..j]
  {
  }

  lemma LongRunShown(rows: Rows, context: nat, i: nat, j: nat)
    requires i < j <= |rows| && j - i > Lead(i, context) + Trail(rows, j, context)
    ensures var p, q := i + Lead(i, context), j - Trail(rows, j, context);
            ShownRun(rows, i, j, context) == rows[i..p] + PutAway(rows, p, q) + rows[q..j]
  {
    var p, q := i + Lead(i, context), j - Trail(rows, j, context);
    if q == p + 1 {
      RunInThree(rows, i, p, q, j);
    }
  }

  ghost predicate IsRun(rows: Rows, i: nat, j: nat)
    requires i < j <= |rows|
  {
    && (forall m :: i <= m < j ==> rows[m].op.Equal?)
    && (i > 0 ==> !rows[i - 1].op.Equal?) && (j < |rows| ==> !rows[j].op.Equal?)
  }

  lemma ShortRunIsNear(rows: Rows, context: nat, i: nat, j: nat)
    requires i < j <= |rows| && IsRun(rows, i, j) && j - i <= Lead(i, context) + Trail(rows, j, context)
    ensures forall k :: i <= k < j ==> Marks(rows, context)[k]
  {
    forall k | i <= k < j
      ensures Near(rows, context, k)
    {
      NearInRun(rows, context, i, j, k);
    }
  }

  lemma LongRunIsMarked(rows: Rows, context: nat, i: nat, j: nat)
    requires i < j <= |rows| && IsRun(rows, i, j) && j - i > Lead(i, context) + Trail(rows, j, context)
    ensures MarkedInThree(Marks(rows, context), i, i + Lead(i, context), j - Trail(rows, j, context), j)
  {
    forall k | i <= k < j
      ensures Near(rows, context, k) <==> k < i + Lead(i, context) || k >= j - Trail(rows, j, context)
    {
      NearInRun(rows, context, i, j, k);
    }
    ChangeIsNear(rows, context, j);
  }

  lemma RunSummarised(rows: Rows, context: nat, i: nat, j: nat)
    requires i < j <= |rows| && IsRun(rows, i, j)
    ensures Summarised(rows, Marks(rows, context), i)
         == ShownRun(rows, i, j, context) + Summarised(rows, Marks(rows, context), j)
  {
    if j - i <= Lead(i, context) + Trail(rows, j, context) {
      ShortRunIsNear(rows, context, i, j);
      ShortRunShown(rows, context, i, j);
      NearStretch(rows, Marks(rows, context), i, j);
    } else {
      MarkedRunSummarised(rows, Marks(rows, context), context, i, j);
    }
  }

  lemma MarkedRunSummarised(rows: Rows, near: seq<bool>, context: nat, i: nat, j: nat)
    requires i < j <= |rows| && IsRun(rows, i, j) && j - i > Lead(i, context) + Trail(rows, j, context)
    requires near == Marks(rows, context)
    ensures Summarised(rows, near, i) == ShownRun(rows, i, j, context) + Summarised(rows, near, j)
  {
    var p, q := i + Lead(i, context), j - Trail(rows, j, context);
    LongRunIsMarked(rows, context, i, j);
    LongRunShown(rows, context, i, j);
    LongRunSummarised(rows, near, i, p, q, j, ShownRun(rows, i, j, context));
  }

  lemma ChangeIsNear(rows: Rows, context: nat, j: nat)
    ensures j < |rows| && !rows[j].op.Equal? ==> Near(rows, context, j)
  {
    if j < |rows| && !rows[j].op.Equal? {
      assert j - context <= j <= j + context;
    }
  }

  lemma RunInThree(rows: Rows, i: nat, p: nat, q: nat, j: nat)
    requires i <= p <= q <= j <= |rows|
    ensures rows[i..j] == rows[i..p] + rows[p..q] + rows[q..j]
  {
  }

  /** What is shown and what is put away, exactly: every change and every row within context of one is
      shown, in order, and each other stretch of two or more is one marker with its length. */
  lemma {:induction false} CollapseShowsWhatIsNear(rows: Rows, context: nat, i: nat)
    requires i <= |rows|
    requires i == 0 || i == |rows| || !rows[i - 1].op.Equal? || !rows[i].op.Equal?
    ensures CollapsedFrom(rows, context, i) == Summarised(rows, Marks(rows, context), i)
    decreases |rows| - i
  {
    if i < |rows| {
      if !rows[i].op.Equal? {
        CollapseShowsWhatIsNear(rows, context, i + 1);
        ChangeIsNear(rows, context, i);
      } else {
        CollapseShowsWhatIsNear(rows, context, RunEnd(rows, i));
        RunSummarised(rows, context, i, RunEnd(rows, i));
      }
    }
  }

  // ---------------------------------------------------------------- bringing the rows back

  function OldPos(rows: Rows, i: nat): nat
    requires i <= |rows|
  {
    |Side(rows[..i], Old)|
  }

  function NewPos(rows: Rows, i: nat): nat
    requires i <= |rows|
  {
    |Side(rows[..i], New)|
  }

  function EqualRun(before: Lines, after: Lines, a: nat, b: nat, n: nat): Rows {
    if a + n <= |before| && b + n <= |after| then seq(n, k requires 0 <= k < n => EqualRow(before, after, a + k, b + k))
    else []
  }

  /** How many lines of one body the rows stand for, a marker for as many as it counts. */
  function Passed(out: Rows, half: Half): nat {
    if out == [] then 0
    else
      var last := out[|out| - 1];
      Passed(out[..|out| - 1], half) + if last.op.Skip? then last.skipped else |Entry(last, half)|
  }

  function Piece(r: DiffRow, before: Lines, after: Lines, a: nat, b: nat): Rows {
    if r.op.Skip? then EqualRun(before, after, a, b, r.skipped) else [r]
  }

  /** Each marker replaced by that many lines of the bodies, from where the rows before it got to. */
  function Expanded(out: Rows, before: Lines, after: Lines): Rows {
    if out == [] then []
    else
      var init, last := out[..|out| - 1], out[|out| - 1];
      Expanded(init, before, after) + Piece(last, before, after, Passed(init, Old), Passed(init, New))
  }

  ghost predicate IsEqualRow(r: DiffRow, before: Lines, after: Lines, a: nat, b: nat) {
    a < |before| && b < |after| && r == EqualRow(before, after, a, b)
  }

  /** A row as a diff builds it, with a lines of one body and b of the other before it. */
  ghost predicate PlacedAfter(r: DiffRow, before: Lines, after: Lines, a: nat, b: nat) {
    !r.op.Skip? && KindFits(r) && (r.op.Equal? ==> IsEqualRow(r, before, after, a, b))
  }

  /** Rows as a diff builds them: no marker, and an unchanged row is the next line of both bodies. */
  ghost predicate PlacedAt(rows: Rows, before: Lines, after: Lines, i: nat)
    requires i < |rows|
  {
    PlacedAfter(rows[i], before, after, OldPos(rows, i), NewPos(rows, i))
  }

  ghost predicate Placed(rows: Rows, before: Lines, after: Lines) {
    forall i :: 0 <= i < |rows| ==> PlacedAt(rows, before, after, i)
  }

  lemma PosStep(rows: Rows, i: nat)
    requires i < |rows|
    ensures OldPos(rows, i + 1) == OldPos(rows, i) + |Entry(rows[i], Old)|
    ensures NewPos(rows, i + 1) == NewPos(rows, i) + |Entry(rows[i], New)|
  {
    assert rows[..i + 1][..i] == rows[..i];
  }

  lemma EqualStep(rows: Rows, before: Lines, after: Lines, i: nat)
    requires i < |rows| && PlacedAt(rows, before, after, i) && rows[i].op.Equal?
    ensures OldPos(rows, i + 1) == OldPos(rows, i) + 1 && NewPos(rows, i + 1) == NewPos(rows, i) + 1
  {
    PosStep(rows, i);
  }

  ghost predicate PosAdvances(rows: Rows, p: nat, k: nat)
    requires p <= k <= |rows|
  {
    OldPos(rows, k) == OldPos(rows, p) + (k - p) && NewPos(rows, k) == NewPos(rows, p) + (k - p)
  }

  lemma EqualAdvances(rows: Rows, before: Lines, after: Lines, p: nat, k: nat)
    requires p <= k < |rows| && PosAdvances(rows, p, k) && PlacedAt(rows, before, after, k) && rows[k].op.Equal?
    ensures PosAdvances(rows, p, k + 1)
    ensures OldPos(rows, k + 1) <= |before| && NewPos(rows, k + 1) <= |after|
  {
    EqualStep(rows, before, after, k);
  }

  lemma EqualInBounds(rows: Rows, before: Lines, after: Lines, p: nat, q: nat)
    requires p < q <= |rows| && Placed(rows, before, after) && forall k :: p <= k < q ==> rows[k].op.Equal?
    ensures OldPos(rows, p) + (q - p) <= |before| && NewPos(rows, p) + (q - p) <= |after|
  {
    EqualStretch(rows, before, after, p, q);
    assert PosAdvances(rows, p, q) && PosAdvances(rows, p, q - 1) && PlacedAt(rows, before, after, q - 1);
    EqualAdvances(rows, before, after, p, q - 1);
  }

  lemma {:induction false} EqualStretch(rows: Rows, before: Lines, after: Lines, p: nat, q: nat)
    requires p <= q <= |rows| && Placed(rows, before, after) && forall k :: p <= k < q ==> rows[k].op.Equal?
    ensures forall k :: p <= k <= q ==> PosAdvances(rows, p, k)
    decreases q - p
  {
    if p < q {
      EqualStretch(rows, before, after, p, q - 1);
      assert PosAdvances(rows, p, q - 1) && PlacedAt(rows, before, after, q - 1);
      EqualAdvances(rows, before, after, p, q - 1);
    }
  }

  lemma ExpandStep(out: Rows, r: DiffRow, before: Lines, after: Lines)
    ensures Expanded(out + [r], before, after)
         == Expanded(out, before, after) + Piece(r, before, after, Passed(out, Old), Passed(out, New))
    ensures Passed(out + [r], Old) == Passed(out, Old) + if r.op.Skip? then r.skipped else |Entry(r, Old)|
    ensures Passed(out + [r], New) == Passed(out, New) + if r.op.Skip? then r.skipped else |Entry(r, New)|
  {
    assert (out + [r])[..|out|] == out;
  }

  // ---------------------------------------------------------------- what stands for which rows

  /** What is out so far expands to the first i rows, and passes as many lines as they hold. */
  ghost predicate StandsFor(out: Rows, rows: Rows, before: Lines, after: Lines, i: nat)
    requires i <= |rows|
  {
    && Expanded(out, before, after) == rows[..i]
    && Passed(out, Old) == OldPos(rows, i) && Passed(out, New) == NewPos(rows, i)
  }

  lemma PrefixStep<T>(s: seq<T>, i: nat)
    requires i < |s|
    ensures s[..i] + [s[i]] == s[..i + 1]
  {
  }

  lemma ShownStep(out: Rows, rows: Rows, before: Lines, after: Lines, i: nat)
    requires i < |rows| && PlacedAt(rows, before, after, i) && StandsFor(out, rows, before, after, i)
    ensures StandsFor(out + [rows[i]], rows, before, after, i + 1)
  {
    ExpandStep(out, rows[i], before, after);
    PosStep(rows, i);
    PrefixStep(rows, i);
  }

  lemma TakeFirst<T>(out: seq<T>, s: seq<T>, i: nat, j: nat)
    requires i < j <= |s|
    ensures out + [s[i]] + s[i + 1..j] == out + s[i..j]
  {
  }

  /** Rows that are shown stand for themselves. */
  lemma {:induction false} ShownStands(out: Rows, rows: Rows, before: Lines, after: Lines, i: nat, j: nat, more: Rows)
    requires i <= j <= |rows| && Placed(rows, before, after) && StandsFor(out, rows, before, after, i)
    requires more == out + rows[i..j]
    ensures StandsFor(more, rows, before, after, j)
    decreases j - i
  {
    if i < j {
      assert PlacedAt(rows, before, after, i);
      ShownStep(out, rows, before, after, i);
      TakeFirst(out, rows, i, j);
      ShownStands(out + [rows[i]], rows, before, after, i + 1, j, more);
    } else {
      assert more == out;
    }
  }

  lemma EqualRunIs(rows: Rows, before: Lines, after: Lines, p: nat, q: nat)
    requires p < q <= |rows| && Placed(rows, before, after) && forall k :: p <= k < q ==> rows[k].op.Equal?
    ensures EqualRun(before, after, OldPos(rows, p), NewPos(rows, p), q - p) == rows[p..q]
  {
    EqualStretch(rows, before, after, p, q);
    EqualInBounds(rows, before, after, p, q);
    var run := EqualRun(before, after, OldPos(rows, p), NewPos(rows, p), q - p);
    forall k | 0 <= k < q - p
      ensures run[k] == rows[p..q][k]
    {
      assert PlacedAt(rows, before, after, p + k) && PosAdvances(rows, p, p + k);
    }
  }

  lemma Rejoined<T>(s: seq<T>, p: nat, q: nat)
    requires p <= q <= |s|
    ensures s[..p] + s[p..q] == s[..q]
  {
  }

  /** A marker stands for the unchanged rows it counts. */
  lemma MarkerStands(out: Rows, rows: Rows, before: Lines, after: Lines, p: nat, q: nat)
    requires p < q <= |rows| && Placed(rows, before, after) && forall k :: p <= k < q ==> rows[k].op.Equal?
    requires StandsFor(out, rows, before, after, p)
    ensures StandsFor(out + [SkipRow(q - p)], rows, before, after, q)
  {
    EqualStretch(rows, before, after, p, q);
    assert PosAdvances(rows, p, q);
    EqualInBounds(rows, before, after, p, q);
    EqualRunIs(rows, before, after, p, q);
    ExpandStep(out, SkipRow(q - p), before, after);
    Rejoined(rows, p, q);
  }

  lemma LongRunStands(out: Rows, rows: Rows, before: Lines, after: Lines, i: nat, p: nat, q: nat, j: nat, shown: Rows)
    requires i <= p < q <= j <= |rows| && Placed(rows, before, after) && forall k :: i <= k < j ==> rows[k].op.Equal?
    requires StandsFor(out, rows, before, after, i) && shown == rows[i..p] + [SkipRow(q - p)] + rows[q..j]
    ensures StandsFor(out + shown, rows, before, after, j)
  {
    ShownStands(out, rows, before, after, i, p, out + rows[i..p]);
    MarkerStands(out + rows[i..p], rows, before, after, p, q);
    ShownStands(out + rows[i..p] + [SkipRow(q - p)], rows, before, after, q, j,
                out + rows[i..p] + [SkipRow(q - p)] + rows[q..j]);
    Grouped(out, rows[i..p], [SkipRow(q - p)], rows[q..j]);
  }

  lemma Grouped<T>(x: seq<T>, y: seq<T>, z: seq<T>, rest: seq<T>)
    ensures x + y + z + rest == x + (y + z + rest)
  {
  }

  lemma RunStands(out: Rows, rows: Rows, before: Lines, after: Lines, context: nat, i: nat, j: nat, shown: Rows)
    requires i < j <= |rows| && Placed(rows, before, after) && forall k :: i <= k < j ==> rows[k].op.Equal?
    requires StandsFor(out, rows, before, after, i) && shown == ShownRun(rows, i, j, context)
    ensures StandsFor(out + shown, rows, before, after, j)
  {
    var lead, trail := Lead(i, context), Trail(rows, j, context);
    if j - i <= lead + trail + 1 {
      ShownStands(out, rows, before, after, i, j, out + shown);
    } else {
      LongRunStands(out, rows, before, after, i, i + lead, j - trail, j, shown);
    }
  }

  lemma Assoc<T>(x: seq<T>, y: seq<T>, z: seq<T>)
    ensures x + y + z == x + (y + z)
  {
  }

  /** Nothing is lost by collapsing: with the bodies at hand, every row comes back. */
  lemma {:induction false} CollapseLosesNothing(out: Rows, rows: Rows, before: Lines, after: Lines, context: nat,
                                                i: nat)
    requires i <= |rows| && Placed(rows, before, after) && StandsFor(out, rows, before, after, i)
    ensures StandsFor(out + CollapsedFrom(rows, context, i), rows, before, after, |rows|)
    decreases |rows| - i
  {
    if i == |rows| {
      assert out + [] == out;
    } else {
      var shown, j := NextShown(rows, context, i), NextAt(rows, i);
      if rows[i].op.Equal? {
        RunStands(out, rows, before, after, context, i, j, shown);
      } else {
        assert PlacedAt(rows, before, after, i);
        ShownStep(out, rows, before, after, i);
      }
      CollapseLosesNothing(out + shown, rows, before, after, context, j);
      Assoc(out, shown, CollapsedFrom(rows, context, j));
    }
  }

  /** What collapsing does next, and where it goes on. */
  function NextShown(rows: Rows, context: nat, i: nat): Rows
    requires i < |rows|
  {
    if rows[i].op.Equal? then ShownRun(rows, i, RunEnd(rows, i), context) else [rows[i]]
  }

  function NextAt(rows: Rows, i: nat): nat
    requires i < |rows|
  {
    if rows[i].op.Equal? then RunEnd(rows, i) else i + 1
  }

  // ---------------------------------------------------------------- the rows of a diff are placed so

  lemma OpRowPlaced(ops: seq<Opcode>, before: Lines, after: Lines, marker: Marker, n: nat, k: nat, half: Half)
    requires Tiles(ops, before, after) && OpsFit(ops, before, after)
    requires n < |ops| && k < RowCount(ops[n])
    ensures |Side(AllRows(ops[..n], before, after, marker) + OpRows(ops[n], before, after, marker)[..k], half)|
         == Min(Start(ops[n], half) + k, Stop(ops[n], half))
  {
    PrefixSpells(ops, before, after, marker, n, half);
    FollowsOn(ops, before, after, n, half);
    OpRowsSpell(ops[n], before, after, marker, k, half);
    SidesAppend(AllRows(ops[..n], before, after, marker), OpRows(ops[n], before, after, marker)[..k], half);
  }

  ghost predicate PlacedNext(first: Rows, last: Rows, before: Lines, after: Lines, k: nat)
    requires k < |last|
  {
    PlacedAfter(last[k], before, after, |Side(first + last[..k], Old)|, |Side(first + last[..k], New)|)
  }

  lemma OpRowFits(op: Opcode, before: Lines, after: Lines, marker: Marker, k: nat)
    requires OpFits(op, before, after) && k < RowCount(op)
    ensures PlacedAfter(OpRow(op, before, after, marker, k), before, after,
                        Min(op.i1 + k, op.i2), Min(op.j1 + k, op.j2))
  {
    assert op.tag.Same? ==> |before[op.i1..op.i2]| == |after[op.j1..op.j2]|;
  }

  lemma OpRowFollows(ops: seq<Opcode>, before: Lines, after: Lines, marker: Marker, n: nat, k: nat)
    requires Tiles(ops, before, after) && OpsFit(ops, before, after)
    requires n < |ops| && k < RowCount(ops[n])
    ensures PlacedNext(AllRows(ops[..n], before, after, marker), OpRows(ops[n], before, after, marker), before, after,
                       k)
  {
    OpRowFits(ops[n], before, after, marker, k);
    OpRowPlaced(ops, before, after, marker, n, k, Old);
    OpRowPlaced(ops, before, after, marker, n, k, New);
  }

  lemma {:induction false} DiffRowsPlaced(ops: seq<Opcode>, before: Lines, after: Lines, marker: Marker, n: nat)
    requires Tiles(ops, before, after) && OpsFit(ops, before, after) && n <= |ops|
    ensures Placed(AllRows(ops[..n], before, after, marker), before, after)
  {
    if n > 0 {
      DiffRowsPlaced(ops, before, after, marker, n - 1);
      var first, last := AllRows(ops[..n - 1], before, after, marker), OpRows(ops[n - 1], before, after, marker);
      assert ops[..n][..n - 1] == ops[..n - 1];
      forall k | 0 <= k < |last|
        ensures PlacedNext(first, last, before, after, k)
      {
        OpRowFollows(ops, before, after, marker, n - 1, k);
      }
      PlacedAppend(first, last, before, after);
    }
  }

  lemma PlacedAppend(first: Rows, last: Rows, before: Lines, after: Lines)
    requires Placed(first, before, after) && forall k :: 0 <= k < |last| ==> PlacedNext(first, last, before, after, k)
    ensures Placed(first + last, before, after)
  {
    forall i | 0 <= i < |first + last|
      ensures PlacedAt(first + last, before, after, i)
    {
      if i < |first| {
        assert PlacedAt(first, before, after, i);
        assert (first + last)[..i] == first[..i];
      } else {
        assert PlacedNext(first, last, before, after, i - |first|);
        assert (first + last)[..i] == first + last[..i - |first|];
      }
    }
  }

  // ---------------------------------------------------------------- a whole diff

  datatype BodyDiff = BodyDiff(rows: Rows, added: nat, removed: nat, changed: nat, identical: bool, initial: bool)

  /** All the rows of a diff, before any is put away. */
  function FullRows(before: Lines, after: Lines, matcher: Matcher): Rows
    requires ValidMatcher(matcher)
  {
    if before == after then EqualRun(before, after, 0, 0, |after|)
    else
      TilesFit(matcher(before, after), before, after);
      AllRows(matcher(before, after), before, after, MarkerBy(matcher))
  }

  lemma SameLinesAsOpcode(lines: Lines, marker: Marker)
    ensures var ops := [Opcode(Same, 0, |lines|, 0, |lines|)];
            Tiles(ops, lines, lines) && OpsFit(ops, lines, lines)
                && AllRows(ops, lines, lines, marker) == EqualRun(lines, lines, 0, 0, |lines|)
  {
    var ops := [Opcode(Same, 0, |lines|, 0, |lines|)];
    assert Tile(ops, 0, lines, lines);
    TilesFit(ops, lines, lines);
    SameRows(ops[0], lines, marker);
    assert ops[..0] == [];
    assert AllRows([], lines, lines, marker) == [];
  }

  lemma SameRows(op: Opcode, lines: Lines, marker: Marker)
    requires op == Opcode(Same, 0, |lines|, 0, |lines|)
    ensures OpFits(op, lines, lines) && OpRows(op, lines, lines, marker) == EqualRun(lines, lines, 0, 0, |lines|)
  {
  }

  /** The opcodes a diff goes by: the matcher's, or one for all of it when nothing changed. */
  ghost function OpcodesOf(before: Lines, after: Lines, matcher: Matcher): (ops: seq<Opcode>)
    requires ValidMatcher(matcher)
    ensures Tiles(ops, before, after) && OpsFit(ops, before, after)
    ensures AllRows(ops, before, after, MarkerBy(matcher)) == FullRows(before, after, matcher)
  {
    SameLinesAsOpcode(before, MarkerBy(matcher));
    TilesFit(matcher(before, after), before, after);
    if before == after then [Opcode(Same, 0, |before|, 0, |before|)] else matcher(before, after)
  }

  /** For any two bodies, any matcher and any context: the rows, with each marker expanded from the
      bodies, read down the old side as the old body and down the new side as the new one. */
  lemma DiffCarriesBothBodies(before: Lines, after: Lines, matcher: Matcher, context: nat)
    requires ValidMatcher(matcher)
    ensures var full := Expanded(Collapsed(FullRows(before, after, matcher), context), before, after);
            Side(full, Old) == Numbered(before) && Side(full, New) == Numbered(after)
  {
    var ops, rows := OpcodesOf(before, after, matcher), FullRows(before, after, matcher);
    assert ops[..|ops|] == ops;
    DiffRowsPlaced(ops, before, after, MarkerBy(matcher), |ops|);
    RowsRebuildBodies(ops, before, after, MarkerBy(matcher));
    assert rows[..0] == [] && rows[..|rows|] == rows;
    CollapseLosesNothing([], rows, before, after, context, 0);
    assert [] + CollapsedFrom(rows, context, 0) == CollapsedFrom(rows, context, 0);
  }

  /** And what the collapsed rows show is every change, with the rows near it. */
  lemma DiffShowsEveryChange(before: Lines, after: Lines, matcher: Matcher, context: nat)
    requires ValidMatcher(matcher)
    ensures var rows := FullRows(before, after, matcher);
            Collapsed(rows, context) == Summarised(rows, Marks(rows, context), 0)
  {
    CollapseShowsWhatIsNear(FullRows(before, after, matcher), context, 0);
  }

  /** before is None for a first version: then every line is an insertion. */
  method DiffBodies(before: Option<Lines>, after: Lines, matcher: Matcher, context: int) returns (diff: BodyDiff)
    requires ValidMatcher(matcher)
    ensures var base := if before.Some? then before.value else [];
            && diff.rows == Collapsed(FullRows(base, after, matcher), context)
            && diff.identical == (base == after) && diff.initial == before.None?
            && diff.changed == CountOf(FullRows(base, after, matcher), Replace)
            && diff.removed == CountOf(FullRows(base, after, matcher), Delete)
                && diff.added == CountOf(FullRows(base, after, matcher), Insert)
  {
    var lines := if before.Some? then before.value else [];
    if lines == after {
      SameLinesAsOpcode(lines, MarkerBy(matcher));
      OnlyEqualCounts(EqualRun(lines, after, 0, 0, |after|));
      var same := Collapse(EqualRun(lines, after, 0, 0, |after|), context);
      return BodyDiff(same, 0, 0, 0, true, before.None?);
    }
    var ops := matcher(lines, after);
    TilesFit(ops, lines, after);
    var builder := new RowBuilder();
    builder.AppendAll(ops, lines, after, matcher);
    var rows := Collapse(builder.rows, context);
    diff := BodyDiff(rows, builder.added, builder.removed, builder.changed, false, before.None?);
  }

  lemma {:induction false} OnlyEqualCounts(rows: Rows)
    requires forall r :: r in rows ==> r.op.Equal?
    ensures CountOf(rows, Replace) == 0 && CountOf(rows, Delete) == 0 && CountOf(rows, Insert) == 0
  {
    if rows != [] {
      OnlyEqualCounts(rows[..|rows| - 1]);
    }
  }
}
