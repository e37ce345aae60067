/** What changed between two bodies, as rows: built from a line matcher's opcodes, and collapsed. */
module DocumentDiff {
  import opened Common
  import opened WordSpans

  datatype Kind = Equal | Insert | Delete | Replace | Skip

  datatype DiffRow = DiffRow(op: Kind, oldNo: Option<nat>, newNo: Option<nat>, oldText: Option<string>,
                             newText: Option<string>,
                             oldSpans: seq<Span>, newSpans: seq<Span>, skipped: nat)

  type Lines = seq<string>

  /** Marks the words that differ between two lines. */
  type Marker = (string, string) -> (seq<Span>, seq<Span>)

  function MarkerBy(matcher: Matcher): Marker
    requires ValidMatcher(matcher)
  {
    (before: string, after: string) => LineSpans(before, after, matcher)
  }

  // ---------------------------------------------------------------- the rows of one opcode

  function EqualRow(before: Lines, after: Lines, a: nat, b: nat): DiffRow
    requires a < |before| && b < |after|
  {
    DiffRow(Equal, Some(a + 1), Some(b + 1), Some(before[a]), Some(after[b]), [], [], 0)
  }

  function DeleteRow(before: Lines, a: nat): DiffRow
    requires a < |before|
  {
    DiffRow(Delete, Some(a + 1), None, Some(before[a]), None, [], [], 0)
  }

  function InsertRow(after: Lines, b: nat): DiffRow
    requires b < |after|
  {
    DiffRow(Insert, None, Some(b + 1), None, Some(after[b]), [], [], 0)
  }

  function ReplaceRow(before: Lines, after: Lines, a: nat, b: nat, marker: Marker): DiffRow
    requires a < |before| && b < |after|
  {
    var (olds, news) := marker(before[a], after[b]);
    DiffRow(Replace, Some(a + 1), Some(b + 1), Some(before[a]), Some(after[b]), olds, news, 0)
  }

  function SkipRow(n: nat): DiffRow {
    DiffRow(Skip, None, None, None, None, [], [], n)
  }

  function Max(a: int, b: int): int {
    if a < b then b else a
  }

  function Min(a: int, b: int): int {
    if a < b then a else b
  }

  function RowCount(op: Opcode): nat
    requires op.i1 <= op.i2 && op.j1 <= op.j2
  {
    Max(op.i2 - op.i1, op.j2 - op.j1)
  }

  /** The k-th row. A replaced run pairs its lines by position; what is left over on one side is a
      deletion or an insertion. */
  function OpRow(op: Opcode, before: Lines, after: Lines, marker: Marker, k: nat): DiffRow
    requires OpFits(op, before, after) && k < RowCount(op)
  {
    if op.tag.Same? then
      assert |before[op.i1..op.i2]| == |after[op.j1..op.j2]|;
      EqualRow(before, after, op.i1 + k, op.j1 + k)
    else if op.i1 + k < op.i2 && op.j1 + k < op.j2 then ReplaceRow(before, after, op.i1 + k, op.j1 + k, marker)
    else if op.i1 + k < op.i2 then DeleteRow(before, op.i1 + k)
    else InsertRow(after, op.j1 + k)
  }

  function OpRows(op: Opcode, before: Lines, after: Lines, marker: Marker): seq<DiffRow>
    requires OpFits(op, before, after)
  {
    seq(RowCount(op), k requires 0 <= k < RowCount(op) => OpRow(op, before, after, marker, k))
  }

  ghost predicate OpsFit(ops: seq<Opcode>, before: Lines, after: Lines) {
    forall k :: 0 <= k < |ops| ==> OpFits(ops[k], before, after)
  }

  function AllRows(ops: seq<Opcode>, before: Lines, after: Lines, marker: Marker): seq<DiffRow>
    requires OpsFit(ops, before, after)
  {
    if ops == [] then []
    else AllRows(ops[..|ops| - 1], before, after, marker) + OpRows(ops[|ops| - 1], before, after, marker)
  }

  // ---------------------------------------------------------------- reading a body off the rows

  datatype Half = Old | New

  function Entry(r: DiffRow, half: Half): seq<(nat, string)> {
    var no, text := if half.Old? then r.oldNo else r.newNo, if half.Old? then r.oldText else r.newText;
    if no.Some? && text.Some? then [(no.value, text.value)] else []
  }

  /** The lines one half of the rows spells, with their numbers. */
  function Side(rows: seq<DiffRow>, half: Half): seq<(nat, string)> {
    if rows == [] then [] else Side(rows[..|rows| - 1], half) + Entry(rows[|rows| - 1], half)
  }

  /** The lines from start up to stop, each with its number. */
  function Stretch(lines: Lines, start: nat, stop: nat): seq<(nat, string)>
    requires start <= stop <= |lines|
  {
    seq(stop - start, k requires 0 <= k < stop - start => (start + k + 1, lines[start + k]))
  }

  function Numbered(lines: Lines): (numbered: seq<(nat, string)>)
    ensures |numbered| == |lines| && forall k :: 0 <= k < |lines| ==> numbered[k] == (k + 1, lines[k])
  {
    Stretch(lines, 0, |lines|)
  }

  function CountOf(rows: seq<DiffRow>, op: Kind): nat {
    if rows == [] then 0 else CountOf(rows[..|rows| - 1], op) + if rows[|rows| - 1].op == op then 1 else 0
  }

  lemma {:induction false} SidesAppend(x: seq<DiffRow>, y: seq<DiffRow>, half: Half)
    ensures Side(x + y, half) == Side(x, half) + Side(y, half)
  {
    if y == [] {
      assert x + y == x;
    } else {
      assert (x + y)[..|x + y| - 1] == x + y[..|y| - 1];
      SidesAppend(x, y[..|y| - 1], half);
    }
  }

  function Body(before: Lines, after: Lines, half: Half): Lines {
    if half.Old? then before else after
  }

  function Start(op: Opcode, half: Half): nat {
    if half.Old? then op.i1 else op.j1
  }

  function Stop(op: Opcode, half: Half): nat {
    if half.Old? then op.i2 else op.j2
  }

  /** A row's kind tells which sides it has. */
  ghost predicate KindFits(r: DiffRow) {
    && ((r.oldNo.Some? && r.oldText.Some?) <==> (r.op.Equal? || r.op.Replace? || r.op.Delete?))
    && ((r.newNo.Some? && r.newText.Some?) <==> (r.op.Equal? || r.op.Replace? || r.op.Insert?))
  }

  lemma OpRowSides(op: Opcode, before: Lines, after: Lines, marker: Marker, k: nat, half: Half)
    requires OpFits(op, before, after) && k < RowCount(op)
    ensures KindFits(OpRow(op, before, after, marker, k))
    ensures Entry(OpRow(op, before, after, marker, k), half)
         == LineAt(Body(before, after, half), Start(op, half), Stop(op, half), k)
  {
    assert op.tag.Same? ==> |before[op.i1..op.i2]| == |after[op.j1..op.j2]|;
  }

  /** The k-th line from start, if that is before stop. */
  function LineAt(lines: Lines, start: nat, stop: nat, k: nat): seq<(nat, string)>
    requires stop <= |lines|
  {
    if start + k < stop then [(start + k + 1, lines[start + k])] else []
  }

  /** Rows that each hold the next line, as long as there are any, spell those lines. */
  lemma {:induction false} RowsSpell(rows: seq<DiffRow>, half: Half, lines: Lines, start: nat, stop: nat)
    requires start <= stop <= |lines|
    requires forall k :: 0 <= k < |rows| ==> Entry(rows[k], half) == LineAt(lines, start, stop, k)
    ensures Side(rows, half) == Stretch(lines, start, Min(start + |rows|, stop))
  {
    if rows != [] {
      RowsSpell(rows[..|rows| - 1], half, lines, start, stop);
      SliceOneMore(lines, start, stop, |rows|);
    }
  }

  lemma SliceOneMore(lines: Lines, start: nat, stop: nat, k: nat)
    requires start <= stop <= |lines| && k > 0
    ensures Stretch(lines, start, Min(start + k, stop))
         == Stretch(lines, start, Min(start + k - 1, stop)) + LineAt(lines, start, stop, k - 1)
  {
  }

  lemma StretchJoin(lines: Lines, a: nat, b: nat, c: nat)
    requires a <= b <= c <= |lines|
    ensures Stretch(lines, a, b) + Stretch(lines, b, c) == Stretch(lines, a, c)
  {
  }

  /** The first k rows of an opcode spell out the first lines of each side. */
  lemma OpRowsSpell(op: Opcode, before: Lines, after: Lines, marker: Marker, k: nat, half: Half)
    requires OpFits(op, before, after) && k <= RowCount(op)
    ensures Side(OpRows(op, before, after, marker)[..k], half)
         == Stretch(Body(before, after, half), Start(op, half), Min(Start(op, half) + k, Stop(op, half)))
  {
    var rows := OpRows(op, before, after, marker)[..k];
    forall i | 0 <= i < k
      ensures Entry(rows[i], half) == LineAt(Body(before, after, half), Start(op, half), Stop(op, half), i)
    {
      OpRowSides(op, before, after, marker, i, half);
    }
    RowsSpell(rows, half, Body(before, after, half), Start(op, half), Stop(op, half));
  }

  lemma TilesFit(ops: seq<Opcode>, before: Lines, after: Lines)
    requires Tiles(ops, before, after)
    ensures OpsFit(ops, before, after)
  {
    forall k | 0 <= k < |ops|
      ensures OpFits(ops[k], before, after)
    {
      assert Tile(ops, k, before, after);
    }
  }

  /** How far the first n opcodes have got in one body. */
  function Reached(ops: seq<Opcode>, n: nat, half: Half): nat
    requires n <= |ops|
  {
    if half.Old? then OldAt(ops, n) else NewAt(ops, n)
  }

  lemma FollowsOn(ops: seq<Opcode>, before: Lines, after: Lines, n: nat, half: Half)
    requires Tiles(ops, before, after) && n < |ops|
    ensures Start(ops[n], half) == Reached(ops, n, half) <= Reached(ops, n + 1, half)
          == Stop(ops[n], half) <= |Body(before, after, half)|
  {
    assert Tile(ops, n, before, after);
  }

  lemma AllRowsStep(ops: seq<Opcode>, before: Lines, after: Lines, marker: Marker, n: nat)
    requires OpsFit(ops, before, after) && n < |ops|
    ensures AllRows(ops[..n + 1], before, after, marker)
         == AllRows(ops[..n], before, after, marker) + OpRows(ops[n], before, after, marker)
  {
    assert ops[..n + 1][..n] == ops[..n];
  }

  lemma OneOpcodeMore(ops: seq<Opcode>, before: Lines, after: Lines, marker: Marker, n: nat, half: Half)
    requires OpsFit(ops, before, after) && n < |ops|
    ensures Side(AllRows(ops[..n + 1], before, after, marker), half)
         == Side(AllRows(ops[..n], before, after, marker), half)
          + Stretch(Body(before, after, half), Start(ops[n], half), Stop(ops[n], half))
  {
    AllRowsStep(ops, before, after, marker, n);
    OpSpells(ops[n], before, after, marker, half);
    SidesAppend(AllRows(ops[..n], before, after, marker), OpRows(ops[n], before, after, marker), half);
  }

  lemma OpSpells(op: Opcode, before: Lines, after: Lines, marker: Marker, half: Half)
    requires OpFits(op, before, after)
    ensures Side(OpRows(op, before, after, marker), half)
         == Stretch(Body(before, after, half), Start(op, half), Stop(op, half))
  {
    var rows := OpRows(op, before, after, marker);
    assert rows[..|rows|] == rows;
    OpRowsSpell(op, before, after, marker, |rows|, half);
  }

  /** The rows of the first n opcodes read as the body up to where those opcodes have got. */
  ghost predicate Spelt(ops: seq<Opcode>, before: Lines, after: Lines, marker: Marker, n: nat, half: Half)
    requires n <= |ops| && OpsFit(ops, before, after)
  {
    && Reached(ops, n, half) <= |Body(before, after, half)|
    && Side(AllRows(ops[..n], before, after, marker), half)
       == Stretch(Body(before, after, half), 0, Reached(ops, n, half))
  }

  lemma {:induction false} PrefixSpells(ops: seq<Opcode>, before: Lines, after: Lines, marker: Marker, n: nat,
                                        half: Half)
    requires Tiles(ops, before, after) && OpsFit(ops, before, after) && n <= |ops|
    ensures Spelt(ops, before, after, marker, n, half)
  {
    if n == 0 {
      assert ops[..0] == [];
    } else {
      PrefixSpells(ops, before, after, marker, n - 1, half);
      SpellsOneMore(ops, before, after, marker, n - 1, half);
    }
  }

  lemma SpellsOneMore(ops: seq<Opcode>, before: Lines, after: Lines, marker: Marker, n: nat, half: Half)
    requires Tiles(ops, before, after) && OpsFit(ops, before, after) && n < |ops|
    requires Spelt(ops, before, after, marker, n, half)
    ensures Spelt(ops, before, after, marker, n + 1, half)
  {
    FollowsOn(ops, before, after, n, half);
    OneOpcodeMore(ops, before, after, marker, n, half);
    StretchJoin(Body(before, after, half), 0, Reached(ops, n, half), Reached(ops, n + 1, half));
  }

  /** The rows read down either side are that body, its lines numbered from 1, each once, in order. */
  lemma RowsRebuildBodies(ops: seq<Opcode>, before: Lines, after: Lines, marker: Marker)
    requires Tiles(ops, before, after) && OpsFit(ops, before, after)
    ensures Side(AllRows(ops, before, after, marker), Old) == Numbered(before)
    ensures Side(AllRows(ops, before, after, marker), New) == Numbered(after)
  {
    PrefixSpells(ops, before, after, marker, |ops|, Old);
    PrefixSpells(ops, before, after, marker, |ops|, New);
    assert ops[..|ops|] == ops;
  }

  lemma {:induction false} CountsAddUp(rows: seq<DiffRow>)
    requires forall r :: r in rows ==> KindFits(r)
    ensures CountOf(rows, Equal) + CountOf(rows, Replace) + CountOf(rows, Delete) == |Side(rows, Old)|
    ensures CountOf(rows, Equal) + CountOf(rows, Replace) + CountOf(rows, Insert) == |Side(rows, New)|
  {
    if rows != [] {
      assert KindFits(rows[|rows| - 1]);
      CountsAddUp(rows[..|rows| - 1]);
    }
  }

  lemma {:induction false} KindsFit(ops: seq<Opcode>, before: Lines, after: Lines, marker: Marker)
    requires OpsFit(ops, before, after)
    ensures forall r :: r in AllRows(ops, before, after, marker) ==> KindFits(r)
  {
    if ops != [] {
      var op := ops[|ops| - 1];
      KindsFit(ops[..|ops| - 1], before, after, marker);
      forall k | 0 <= k < RowCount(op)
        ensures KindFits(OpRows(op, before, after, marker)[k])
      {
        OpRowSides(op, before, after, marker, k, Old);
      }
    }
  }

  /** Every line of each body is counted once: as unchanged, changed, or only there. */
  lemma CountsMeasureBodies(ops: seq<Opcode>, before: Lines, after: Lines, marker: Marker)
    requires Tiles(ops, before, after) && OpsFit(ops, before, after)
    ensures var rows := AllRows(ops, before, after, marker);
            CountOf(rows, Equal) + CountOf(rows, Replace) + CountOf(rows, Delete) == |before|
    ensures var rows := AllRows(ops, before, after, marker);
            CountOf(rows, Equal) + CountOf(rows, Replace) + CountOf(rows, Insert) == |after|
  {
    KindsFit(ops, before, after, marker);
    CountsAddUp(AllRows(ops, before, after, marker));
    RowsRebuildBodies(ops, before, after, marker);
  }

  // ---------------------------------------------------------------- building them, as it runs

  lemma {:induction false} CountAppend(x: seq<DiffRow>, r: DiffRow, op: Kind)
    ensures CountOf(x + [r], op) == CountOf(x, op) + if r.op == op then 1 else 0
  {
    assert (x + [r])[..|x|] == x;
  }

  lemma PrefixStep<T>(begin: seq<T>, s: seq<T>, k: nat)
    requires k < |s|
    ensures begin + s[..k + 1] == begin + s[..k] + [s[k]]
  {
  }

  method MakeRow(op: Opcode, before: Lines, after: Lines, matcher: Matcher, k: nat) returns (r: DiffRow)
    requires OpFits(op, before, after) && ValidMatcher(matcher) && k < RowCount(op)
    ensures r == OpRow(op, before, after, MarkerBy(matcher), k)
  {
    var a, b := op.i1 + k, op.j1 + k;
    if op.tag.Same? {
      assert |before[op.i1..op.i2]| == |after[op.j1..op.j2]|;
      return EqualRow(before, after, a, b);
    }
    if a >= op.i2 {
      return InsertRow(after, b);
    }
    if b >= op.j2 {
      return DeleteRow(before, a);
    }
    r := MakeReplaceRow(before, after, a, b, matcher);
  }

  method MakeReplaceRow(before: Lines, after: Lines, a: nat, b: nat, matcher: Matcher) returns (r: DiffRow)
    requires a < |before| && b < |after| && ValidMatcher(matcher)
    ensures r == ReplaceRow(before, after, a, b, MarkerBy(matcher))
  {
    var olds, news := FindSpans(before[a], after[b], matcher);
    r := DiffRow(Replace, Some(a + 1), Some(b + 1), Some(before[a]), Some(after[b]), olds, news, 0);
  }

  class RowBuilder {
    var rows: seq<DiffRow>
    var added: nat
    var removed: nat
    var changed: nat

    constructor ()
      ensures rows == [] && Counted()
    {
      rows, added, removed, changed := [], 0, 0, 0;
    }

    ghost predicate Counted()
      reads this
    {
      added == CountOf(rows, Insert) && removed == CountOf(rows, Delete) && changed == CountOf(rows, Replace)
    }

    method Append(r: DiffRow)
      requires Counted()
      modifies this
      ensures Counted() && rows == old(rows) + [r]
    {
      CountAppend(rows, r, Insert);
      CountAppend(rows, r, Delete);
      CountAppend(rows, r, Replace);
      rows := rows + [r];
      match r.op
      case Insert => added := added + 1;
      case Delete => removed := removed + 1;
      case Replace => changed := changed + 1;
      case _ =>
    }

    /** One row of an opcode, the k-th. */
    method AppendRow(op: Opcode, before: Lines, after: Lines, matcher: Matcher, k: nat, ghost begin: seq<DiffRow>)
      requires Counted() && OpFits(op, before, after) && ValidMatcher(matcher) && k < RowCount(op)
      requires rows == begin + OpRows(op, before, after, MarkerBy(matcher))[..k]
      modifies this
      ensures Counted() && rows == begin + OpRows(op, before, after, MarkerBy(matcher))[..k + 1]
    {
      PrefixStep(begin, OpRows(op, before, after, MarkerBy(matcher)), k);
      var r := MakeRow(op, before, after, matcher, k);
      Append(r);
    }

    method AppendOpcode(op: Opcode, before: Lines, after: Lines, matcher: Matcher)
      requires Counted() && OpFits(op, before, after) && ValidMatcher(matcher)
      modifies this
      ensures Counted() && rows == old(rows) + OpRows(op, before, after, MarkerBy(matcher))
    {
      ghost var begin, all := rows, OpRows(op, before, after, MarkerBy(matcher));
      for k := 0 to RowCount(op)
        invariant Counted() && rows == begin + all[..k]
      {
        AppendRow(op, before, after, matcher, k, begin);
      }
      assert all[..|all|] == all;
    }

    method AppendAll(ops: seq<Opcode>, before: Lines, after: Lines, matcher: Matcher)
      requires Counted() && rows == [] && OpsFit(ops, before, after) && ValidMatcher(matcher)
      modifies this
      ensures Counted() && rows == AllRows(ops, before, after, MarkerBy(matcher))
    {
      for k := 0 to |ops|
        invariant Counted() && rows == AllRows(ops[..k], before, after, MarkerBy(matcher))
      {
        assert ops[..k + 1][..k] == ops[..k];
        AppendOpcode(ops[k], before, after, matcher);
      }
      assert ops[..|ops|] == ops;
    }
  }
}
