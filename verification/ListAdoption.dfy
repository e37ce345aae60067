/** A list copied from a template, and taking a newer version of that template. */
module ListAdoption {
  import opened Common
  import opened Text
  import opened Rules
  import opened EvidenceLinks
  import opened Lists
  import opened ListEvidence
  import opened ListImport

  /** One version of a template, as the copy's side reads it. */
  datatype Snap = Snap(number: nat, content: Content, controls: set<ControlId>)

  /** What a list's writers keep to: named columns once each, every row a cell per column. */
  ghost predicate WellShaped(c: Content) {
    && Distinct(c.columns)
    && (forall r :: r in c.refs ==> r in c.columns)
    && (forall i :: 0 <= i < |c.rows| ==> |c.rows[i]| == |c.columns|)
  }

  predicate Filled(cell: string) {
    !Blank(cell)
  }

  function CellAt(c: Content, i: nat, column: string): string
    requires WellShaped(c) && i < |c.rows| && column in c.columns
  {
    c.rows[i][IndexOf(c.columns, column).value]
  }

  lemma IndexIs(columns: seq<string>, j: nat)
    requires Distinct(columns) && j < |columns|
    ensures IndexOf(columns, columns[j]) == Some(j)
  {
  }

  // ---------------------------------------------------------------- an edit's guard

  /** Whether an edit may be saved over base. A version with reference columns keeps its columns,
      its rows' number and order, and every cell of those columns. */
  predicate EditAllowed(base: Content, columns: seq<string>, rows: seq<Row>)
    requires forall i :: 0 <= i < |rows| ==> |rows[i]| == |columns|
    requires WellShaped(base)
  {
    base.refs == [] ||
    (columns == base.columns && |rows| == |base.rows|
     && forall i, c :: 0 <= i < |rows| && c in base.refs
          ==> rows[i][IndexOf(base.columns, c).value] == base.rows[i][IndexOf(base.columns, c).value])
  }

  /** The copy carries the template's reference text: same columns, same rows in order, same
      reference cells. Says nothing of a template with no reference columns. */
  ghost predicate CarriesReference(c: Content, t: Content)
    requires WellShaped(c) && WellShaped(t)
  {
    t.refs != [] ==>
      && c.columns == t.columns && c.refs == t.refs && |c.rows| == |t.rows|
      && forall i, r :: 0 <= i < |c.rows| && r in t.refs ==> CellAt(c, i, r) == CellAt(t, i, r)
  }

  lemma EditKeepsReference(c: Content, t: Content, columns: seq<string>, rows: seq<Row>)
    requires WellShaped(c) && WellShaped(t) && CarriesReference(c, t)
    requires forall i :: 0 <= i < |rows| ==> |rows[i]| == |columns|
    requires EditAllowed(c, columns, rows) && WellShaped(c.(columns := columns, rows := rows))
    ensures CarriesReference(c.(columns := columns, rows := rows), t)
  {
  }

  // ---------------------------------------------------------------- rows, moved onto the new columns

  /** Without reference columns, cells follow their column by name. */
  function ByName(mine: Content, columns: seq<string>): seq<Row>
    requires WellShaped(mine)
  {
    seq(|mine.rows|, i requires 0 <= i < |mine.rows| =>
      seq(|columns|, j requires 0 <= j < |columns| => if columns[j] in mine.columns then CellAt(mine, i, columns[j])
          else ""))
  }

  /** The filled cells, each named by its row and column. */
  function FilledCells(c: Content): set<(nat, string)>
    requires WellShaped(c)
  {
    set i: nat, column | i < |c.rows| && column in c.columns && Filled(CellAt(c, i, column)) :: (i, column)
  }

  /** The filled cells whose column the template no longer has. */
  function DroppedByName(mine: Content, columns: seq<string>): set<(nat, string)>
    requires WellShaped(mine)
  {
    set i: nat, column
      | i < |mine.rows| && column in mine.columns && column !in columns
          && Filled(CellAt(mine, i, column)) :: (i, column)
  }

  // A template without reference columns: cells follow their column's name.

  lemma ByNameCells(mine: Content, after: Content)
    requires WellShaped(mine) && WellShaped(after) && after.rows == ByName(mine, after.columns)
    ensures forall i, c :: 0 <= i < |mine.rows| && c in after.columns
              ==> CellAt(after, i, c) == (if c in mine.columns then CellAt(mine, i, c) else "")
  {
  }

  /** The filled cells are those kept and those counted as dropped, and no cell is both. What is
      kept keeps its row and its value. */
  lemma FilledCellsAreConserved(mine: Content, after: Content)
    requires WellShaped(mine) && WellShaped(after) && after.rows == ByName(mine, after.columns)
    ensures FilledCells(mine) == FilledCells(after) + DroppedByName(mine, after.columns)
    ensures |FilledCells(mine)| == |FilledCells(after)| + |DroppedByName(mine, after.columns)|
    ensures forall i, c ::
          (i, c) in FilledCells(after) ==> (i, c) in FilledCells(mine) && CellAt(after, i, c) == CellAt(mine, i, c)
  {
    KeptOrDropped(mine, after);
    DisjointSizes(FilledCells(after), DroppedByName(mine, after.columns));
  }

  lemma KeptOrDropped(mine: Content, after: Content)
    requires WellShaped(mine) && WellShaped(after) && after.rows == ByName(mine, after.columns)
    ensures FilledCells(mine) == FilledCells(after) + DroppedByName(mine, after.columns)
    ensures FilledCells(after) !! DroppedByName(mine, after.columns)
    ensures forall i, c ::
          (i, c) in FilledCells(after) ==> (i, c) in FilledCells(mine) && CellAt(after, i, c) == CellAt(mine, i, c)
  {
    ByNameCells(mine, after);
  }

  lemma DisjointSizes<T>(a: set<T>, b: set<T>)
    requires a !! b
    ensures |a + b| == |a| + |b|
  {
  }

  // A template with reference columns: cells follow their row's key.

  function FirstIn(columns: seq<string>, refs: seq<string>): (c: string)
    requires exists r :: r in refs && r in columns
    ensures c in refs && c in columns
  {
    if columns[0] in refs then columns[0] else FirstIn(columns[1..], refs)
  }

  /** The key: the first reference column in column order. */
  function KeyColumn(t: Content): (c: string)
    requires WellShaped(t) && t.refs != []
    ensures c in t.refs && c in t.columns
  {
    assert t.refs[0] in t.refs && t.refs[0] in t.columns;
    FirstIn(t.columns, t.refs)
  }

  /** The last place of each key. */
  function LastAt(keys: seq<string>): (m: map<string, nat>)
    ensures forall k :: k in m ==> m[k] < |keys| && keys[m[k]] == k
    ensures forall i :: 0 <= i < |keys| ==> keys[i] in m && i <= m[keys[i]]
  {
    if keys == [] then map[]
    else
      var init := keys[..|keys| - 1];
      assert forall i :: 0 <= i < |init| ==> init[i] == keys[i];
      LastAt(init)[keys[|keys| - 1] := |keys| - 1]
  }

  function KeysIn(mine: Content, key: string): seq<string>
    requires WellShaped(mine) && key in mine.columns
  {
    seq(|mine.rows|, i requires 0 <= i < |mine.rows| => CellAt(mine, i, key))
  }

  /** The copy's rows by key. Of two rows with one key the later is the one found. */
  function RowsByKey(mine: Content, key: string): (m: map<string, nat>)
    requires WellShaped(mine)
    ensures forall k :: k in m ==> m[k] < |mine.rows|
  {
    if key in mine.columns then LastAt(KeysIn(mine, key)) else map[]
  }

  /** A row of the template with the copy's own cells put back: those of the copy's row with its key. */
  function CarriedRow(mine: Content, theirs: Content, j: nat): Row
    requires WellShaped(mine) && WellShaped(theirs) && theirs.refs != [] && j < |theirs.rows|
  {
    var k, found := CellAt(theirs, j, KeyColumn(theirs)), RowsByKey(mine, KeyColumn(theirs));
    seq(|theirs.columns|, i requires 0 <= i < |theirs.columns| =>
      if theirs.columns[i] in theirs.refs || k !in found || theirs.columns[i] !in mine.columns then theirs.rows[j][i]
      else CellAt(mine, found[k], theirs.columns[i]))
  }

  function CarriedRows(mine: Content, theirs: Content): seq<Row>
    requires WellShaped(mine) && WellShaped(theirs) && theirs.refs != []
  {
    seq(|theirs.rows|, j requires 0 <= j < |theirs.rows| => CarriedRow(mine, theirs, j))
  }

  function Keys(t: Content): set<string>
    requires WellShaped(t) && t.refs != []
  {
    set j: nat | j < |t.rows| :: CellAt(t, j, KeyColumn(t))
  }

  /** The filled cells, outside the reference columns, of rows whose key the template dropped. */
  function DroppedByKey(mine: Content, theirs: Content): set<(string, string)>
    requires WellShaped(mine) && WellShaped(theirs) && theirs.refs != []
  {
    var found := RowsByKey(mine, KeyColumn(theirs));
    set k, c
      | k in found && k !in Keys(theirs) && c in mine.columns && c !in theirs.refs
          && Filled(CellAt(mine, found[k], c)) :: (k, c)
  }

  /** The dictionary of the copy's rows, a later row taking the place of an earlier one. */
  method IndexRows(keys: seq<string>) returns (found: map<string, nat>)
    ensures found == LastAt(keys)
  {
    found := map[];
    for i := 0 to |keys|
      invariant found == LastAt(keys[..i])
    {
      assert keys[..i + 1][..i] == keys[..i];
      found := found[keys[i] := i];
    }
    assert keys[..|keys|] == keys;
  }

  /** Of one dropped row, the filled cells in the first n of its columns that are the copy's own. */
  function DroppedOf(mine: Content, refs: seq<string>, row: nat, k: string, n: nat): set<(string, string)>
    requires WellShaped(mine) && row < |mine.rows| && n <= |mine.columns|
  {
    set c | c in mine.columns[..n] && c !in refs && Filled(CellAt(mine, row, c)) :: (k, c)
  }

  method CountRow(mine: Content, refs: seq<string>, row: nat, k: string) returns (n: nat)
    requires WellShaped(mine) && row < |mine.rows|
    ensures n == |DroppedOf(mine, refs, row, k, |mine.columns|)|
  {
    n := 0;
    for i := 0 to |mine.columns|
      invariant n == |DroppedOf(mine, refs, row, k, i)|
    {
      DroppedOneMore(mine, refs, row, k, i);
      if mine.columns[i] !in refs && Filled(mine.rows[row][i]) {
        n := n + 1;
      }
    }
  }

  lemma DroppedOneMore(mine: Content, refs: seq<string>, row: nat, k: string, i: nat)
    requires WellShaped(mine) && row < |mine.rows| && i < |mine.columns|
    ensures |DroppedOf(mine, refs, row, k, i + 1)|
         == |DroppedOf(mine, refs, row, k, i)| + if mine.columns[i] !in refs && Filled(mine.rows[row][i]) then 1 else 0
  {
    var c, before := mine.columns[i], DroppedOf(mine, refs, row, k, i);
    IndexIs(mine.columns, i);
    assert mine.columns[..i + 1] == mine.columns[..i] + [c];
    assert c !in mine.columns[..i];
    assert (k, c) !in before;
    var more := if c !in refs && Filled(mine.rows[row][i]) then {(k, c)} else {};
    assert DroppedOf(mine, refs, row, k, i + 1) == before + more;
  }

  /** The dropped cells of the rows with these keys. */
  function DroppedAmong(mine: Content, theirs: Content, keys: set<string>): set<(string, string)>
    requires WellShaped(mine) && WellShaped(theirs) && theirs.refs != []
  {
    set p | p in DroppedByKey(mine, theirs) && p.0 in keys
  }

  lemma DroppedWithOneMore(mine: Content, theirs: Content, keys: set<string>, k: string)
    requires WellShaped(mine) && WellShaped(theirs) && theirs.refs != []
    requires k !in keys && k in RowsByKey(mine, KeyColumn(theirs))
    ensures |DroppedAmong(mine, theirs, keys + {k})|
         == |DroppedAmong(mine, theirs, keys)|
          + if k in Keys(theirs) then 0
            else |DroppedOf(mine, theirs.refs, RowsByKey(mine, KeyColumn(theirs))[k], k, |mine.columns|)|
  {
    var found, before := RowsByKey(mine, KeyColumn(theirs)), DroppedAmong(mine, theirs, keys);
    assert mine.columns[..|mine.columns|] == mine.columns;
    var of := if k in Keys(theirs) then {} else DroppedOf(mine, theirs.refs, found[k], k, |mine.columns|);
    assert DroppedAmong(mine, theirs, keys + {k}) == before + of;
    assert before !! of;
  }

  /** The loop over the copy's rows by key, counting the cells of those the template dropped. */
  method CountDropped(mine: Content, theirs: Content, found: map<string, nat>) returns (dropped: nat)
    requires WellShaped(mine) && WellShaped(theirs) && theirs.refs != []
    requires found == RowsByKey(mine, KeyColumn(theirs))
    ensures dropped == |DroppedByKey(mine, theirs)|
  {
    dropped := 0;
    var kept, todo := Keys(theirs), found.Keys;
    assert DroppedAmong(mine, theirs, found.Keys - todo) == {};
    while todo != {}
      invariant todo <= found.Keys
      invariant dropped == |DroppedAmong(mine, theirs, found.Keys - todo)|
      decreases todo
    {
      var k :| k in todo;
      DroppedWithOneMore(mine, theirs, found.Keys - todo, k);
      assert found.Keys - (todo - {k}) == found.Keys - todo + {k};
      if k !in kept {
        var n := CountRow(mine, theirs.refs, found[k], k);
        dropped := dropped + n;
      }
      todo := todo - {k};
    }
    assert DroppedAmong(mine, theirs, found.Keys - {}) == DroppedByKey(mine, theirs);
  }

  /** One row: the template's cell in a reference column, in a column new to the copy, or where the
      copy has no such row, and the copy's own in every other. */
  method CarryRow(mine: Content, theirs: Content, j: nat, known: Option<nat>) returns (row: Row)
    requires WellShaped(mine) && WellShaped(theirs) && theirs.refs != [] && j < |theirs.rows|
    requires var k, found := CellAt(theirs, j, KeyColumn(theirs)), RowsByKey(mine, KeyColumn(theirs));
             known == if k in found then Some(found[k]) else None
    ensures row == CarriedRow(mine, theirs, j)
  {
    row := [];
    for i := 0 to |theirs.columns|
      invariant |row| == i
      invariant forall n :: 0 <= n < i ==> row[n] == CarriedRow(mine, theirs, j)[n]
    {
      var c := theirs.columns[i];
      if c in theirs.refs || known.None? || c !in mine.columns {
        row := row + [theirs.rows[j][i]];
      } else {
        row := row + [mine.rows[known.value][IndexOf(mine.columns, c).value]];
      }
    }
  }

  /** The copy's rows by key, the template's rows one by one, then the count of what is left behind. */
  method ReferenceRows(mine: Content, theirs: Content) returns (rows: seq<Row>, dropped: nat)
    requires WellShaped(mine) && WellShaped(theirs) && theirs.refs != []
    ensures rows == CarriedRows(mine, theirs)
    ensures dropped == |DroppedByKey(mine, theirs)|
  {
    var found: map<string, nat> := map[];
    if KeyColumn(theirs) in mine.columns {
      found := IndexRows(KeysIn(mine, KeyColumn(theirs)));
    }
    rows := CarryAll(mine, theirs, found);
    dropped := CountDropped(mine, theirs, found);
  }

  method CarryAll(mine: Content, theirs: Content, found: map<string, nat>) returns (rows: seq<Row>)
    requires WellShaped(mine) && WellShaped(theirs) && theirs.refs != []
    requires found == RowsByKey(mine, KeyColumn(theirs))
    ensures rows == CarriedRows(mine, theirs)
  {
    rows := [];
    for j := 0 to |theirs.rows|
      invariant |rows| == j
      invariant forall i :: 0 <= i < j ==> rows[i] == CarriedRow(mine, theirs, i)
    {
      var k := CellAt(theirs, j, KeyColumn(theirs));
      var row := CarryRow(mine, theirs, j, if k in found then Some(found[k]) else None);
      rows := rows + [row];
    }
  }

  ghost predicate KeysOnce(mine: Content, key: string)
    requires WellShaped(mine)
  {
    key in mine.columns ==> forall i, j :: 0 <= i < j < |mine.rows| ==> CellAt(mine, i, key) != CellAt(mine, j, key)
  }

  lemma CarriedCells(mine: Content, theirs: Content, after: Content, j: nat, c: string)
    requires WellShaped(mine) && WellShaped(theirs) && theirs.refs != []
    requires WellShaped(after) && after.columns == theirs.columns && after.rows == CarriedRows(mine, theirs)
    requires j < |theirs.rows| && c in theirs.columns
    ensures var k, found := CellAt(theirs, j, KeyColumn(theirs)), RowsByKey(mine, KeyColumn(theirs));
            CellAt(after, j, c) == if c in theirs.refs || k !in found || c !in mine.columns then CellAt(theirs, j, c)
                else CellAt(mine, found[k], c)
  {
    var i := IndexOf(theirs.columns, c).value;
    assert after.rows[j] == CarriedRow(mine, theirs, j);
    assert theirs.columns[i] == c;
  }

  /** What the copy's row i held in column c is in the row of the new version with the same key. */
  ghost predicate Survives(mine: Content, after: Content, key: string, i: nat, c: string)
    requires WellShaped(mine) && WellShaped(after) && key in after.columns && i < |mine.rows| && c in mine.columns
  {
    && key in mine.columns && c in after.columns
    && exists j: nat :: j < |after.rows| && CellAt(after, j, key) == CellAt(mine, i, key)
        && CellAt(after, j, c) == CellAt(mine, i, c)
  }

  ghost predicate KeptKey(mine: Content, theirs: Content, i: nat)
    requires WellShaped(mine) && WellShaped(theirs) && theirs.refs != [] && i < |mine.rows|
  {
    KeyColumn(theirs) in mine.columns && CellAt(mine, i, KeyColumn(theirs)) in Keys(theirs)
  }

  /** What row i of the copy holds in column c can be found in the template's rows as they will be: the
      copy has the key, the template the column, and either it is a reference column and the template's
      row of that key already says the same, or no later row of the copy with that key says otherwise. */
  ghost predicate Carries(mine: Content, theirs: Content, i: nat, c: string)
    requires WellShaped(mine) && WellShaped(theirs) && theirs.refs != [] && i < |mine.rows| && c in mine.columns
  {
    var key := KeyColumn(theirs);
    && key in mine.columns && c in theirs.columns
    && if c in theirs.refs then Survives(mine, theirs, key, i, c) else LastOfItsKey(mine, key, i, c)
  }

  /** The last row with the key of row i, the one the dictionary holds, has the same cell in column c. */
  ghost predicate LastOfItsKey(mine: Content, key: string, i: nat, c: string)
    requires WellShaped(mine) && key in mine.columns && i < |mine.rows| && c in mine.columns
  {
    var k, found := CellAt(mine, i, key), RowsByKey(mine, key);
    k in found && CellAt(mine, found[k], c) == CellAt(mine, i, c)
  }

  /** Where each key is in one row, that is every row. */
  lemma OnceIsLast(mine: Content, key: string, i: nat, c: string)
    requires WellShaped(mine) && key in mine.columns && KeysOnce(mine, key) && i < |mine.rows| && c in mine.columns
    ensures LastOfItsKey(mine, key, i, c)
  {
    assert KeysIn(mine, key)[i] == CellAt(mine, i, key);
  }

  /** A cell of the copy's own in a row whose key the template kept is carried over, if its column is still
      there and no later row of that key says otherwise: by key, wherever the template now has that row. */
  lemma OwnCellsFollowTheirKey(mine: Content, theirs: Content, after: Content, i: nat, c: string)
    requires WellShaped(mine) && WellShaped(theirs) && theirs.refs != []
    requires WellShaped(after) && after.columns == theirs.columns && after.rows == CarriedRows(mine, theirs)
    requires i < |mine.rows| && c in mine.columns && c !in theirs.refs
    ensures KeptKey(mine, theirs, i) && c in theirs.columns && LastOfItsKey(mine, KeyColumn(theirs), i, c)
          ==> Survives(mine, after, KeyColumn(theirs), i, c)
  {
    var key := KeyColumn(theirs);
    if KeptKey(mine, theirs, i) && c in theirs.columns && LastOfItsKey(mine, key, i, c) {
      var j: nat :| j < |theirs.rows| && CellAt(theirs, j, key) == CellAt(mine, i, key);
      CarriedCells(mine, theirs, after, j, key);
      CarriedCells(mine, theirs, after, j, c);
    }
  }

  /** A cell carried over by key is a cell that carries, whatever was counted. */
  lemma SurvivorCarries(mine: Content, theirs: Content, after: Content, i: nat, c: string)
    requires WellShaped(mine) && WellShaped(theirs) && theirs.refs != []
    requires WellShaped(after) && after.columns == theirs.columns && after.rows == CarriedRows(mine, theirs)
    requires i < |mine.rows| && c in mine.columns && Survives(mine, after, KeyColumn(theirs), i, c)
    ensures Carries(mine, theirs, i, c) && KeptKey(mine, theirs, i)
  {
    var key := KeyColumn(theirs);
    var j: nat :| j < |after.rows| && CellAt(after, j, key) == CellAt(mine, i, key)
        && CellAt(after, j, c) == CellAt(mine, i, c);
    CarriedCells(mine, theirs, after, j, key);
    CarriedCells(mine, theirs, after, j, c);
    assert KeysIn(mine, key)[i] == CellAt(mine, i, key);
  }

  /** A filled cell that carries is carried over, if nothing was counted as dropped. */
  lemma CarrierSurvives(mine: Content, theirs: Content, after: Content, i: nat, c: string)
    requires WellShaped(mine) && WellShaped(theirs) && theirs.refs != [] && DroppedByKey(mine, theirs) == {}
    requires WellShaped(after) && after.columns == theirs.columns && after.rows == CarriedRows(mine, theirs)
    requires i < |mine.rows| && c in mine.columns && Filled(CellAt(mine, i, c)) && Carries(mine, theirs, i, c)
    ensures Survives(mine, after, KeyColumn(theirs), i, c)
  {
    var key := KeyColumn(theirs);
    if c in theirs.refs {
      var j: nat :| j < |theirs.rows| && CellAt(theirs, j, key) == CellAt(mine, i, key)
          && CellAt(theirs, j, c) == CellAt(mine, i, c);
      CarriedCells(mine, theirs, after, j, key);
      CarriedCells(mine, theirs, after, j, c);
    } else {
      assert (CellAt(mine, i, key), c) !in DroppedByKey(mine, theirs);
      OwnCellsFollowTheirKey(mine, theirs, after, i, c);
    }
  }

  /** A filled cell, unless its column is a reference column of the copy and of the template both. */
  ghost predicate OwnFilled(mine: Content, theirs: Content, i: nat, c: string)
    requires WellShaped(mine) && i < |mine.rows|
  {
    c in mine.columns && (c !in mine.refs || c !in theirs.refs) && Filled(CellAt(mine, i, c))
  }

  ghost predicate AllSurvive(mine: Content, theirs: Content, after: Content)
    requires WellShaped(mine) && WellShaped(theirs) && WellShaped(after) && theirs.refs != []
    requires after.columns == theirs.columns
  {
    forall i, c :: 0 <= i < |mine.rows| && OwnFilled(mine, theirs, i, c)
        ==> Survives(mine, after, KeyColumn(theirs), i, c)
  }

  ghost predicate OwnCellsCarry(mine: Content, theirs: Content)
    requires WellShaped(mine) && WellShaped(theirs) && theirs.refs != []
  {
    forall i, c :: 0 <= i < |mine.rows| && OwnFilled(mine, theirs, i, c) ==> Carries(mine, theirs, i, c)
  }

  /** Exactly when no filled cell is lost: none is counted as dropped, and each carries. The count alone
      does not say so. */
  lemma NothingLostExactly(mine: Content, theirs: Content, after: Content)
    requires WellShaped(mine) && WellShaped(theirs) && theirs.refs != []
    requires WellShaped(after) && after.columns == theirs.columns && after.rows == CarriedRows(mine, theirs)
    ensures AllSurvive(mine, theirs, after) <==> DroppedByKey(mine, theirs) == {} && OwnCellsCarry(mine, theirs)
  {
    if AllSurvive(mine, theirs, after) {
      SurvivorsCarry(mine, theirs, after);
    }
    if DroppedByKey(mine, theirs) == {} && OwnCellsCarry(mine, theirs) {
      forall i, c | 0 <= i < |mine.rows| && OwnFilled(mine, theirs, i, c)
        ensures Survives(mine, after, KeyColumn(theirs), i, c)
      {
        CarrierSurvives(mine, theirs, after, i, c);
      }
    }
  }

  lemma SurvivorsCarry(mine: Content, theirs: Content, after: Content)
    requires WellShaped(mine) && WellShaped(theirs) && theirs.refs != []
    requires WellShaped(after) && after.columns == theirs.columns && after.rows == CarriedRows(mine, theirs)
    requires AllSurvive(mine, theirs, after)
    ensures DroppedByKey(mine, theirs) == {} && OwnCellsCarry(mine, theirs)
  {
    forall i, c | 0 <= i < |mine.rows| && OwnFilled(mine, theirs, i, c)
      ensures Carries(mine, theirs, i, c) && KeptKey(mine, theirs, i)
    {
      SurvivorCarries(mine, theirs, after, i, c);
    }
    var found := RowsByKey(mine, KeyColumn(theirs));
    forall k, c | (k, c) in DroppedByKey(mine, theirs)
      ensures false
    {
      assert OwnFilled(mine, theirs, found[k], c);
    }
  }

  // ---------------------------------------------------------------- the plan

  datatype Plan = Plan(content: Content, dropped: nat, personChanged: bool) {
    /** The update would replace something a person did. */
    predicate ReplacesAnEdit() { personChanged || dropped > 0 }
  }

  /** What a version defines, next to its rows. */
  function Definition(c: Content): Content {
    c.(rows := [])
  }

  function NewRows(mine: Content, base: Content, theirs: Content): seq<Row>
    requires WellShaped(mine) && WellShaped(theirs)
  {
    if mine.rows == base.rows then theirs.rows
    else if theirs.refs != [] then CarriedRows(mine, theirs)
    else ByName(mine, theirs.columns)
  }

  function DroppedCells(mine: Content, base: Content, theirs: Content): nat
    requires WellShaped(mine) && WellShaped(theirs)
  {
    if mine.rows == base.rows then 0
    else if theirs.refs != [] then |DroppedByKey(mine, theirs)|
    else |DroppedByName(mine, theirs.columns)|
  }

  /** From the copy as it is, as it last took the template, and the template now. */
  function Planned(mine: Content, base: Content, theirs: Content): Plan
    requires WellShaped(mine) && WellShaped(theirs)
  {
    Plan(theirs.(rows := NewRows(mine, base, theirs)), DroppedCells(mine, base, theirs), Definition(mine)
        != Definition(base))
  }

  lemma PlanIsWellShaped(mine: Content, base: Content, theirs: Content)
    requires WellShaped(mine) && WellShaped(theirs)
    ensures WellShaped(Planned(mine, base, theirs).content)
  {
  }

  /** Whatever the copy held, taking a template leaves it with that template's reference text. */
  lemma PlanCarriesReference(mine: Content, base: Content, theirs: Content)
    requires WellShaped(mine) && WellShaped(theirs)
    ensures WellShaped(Planned(mine, base, theirs).content)
    ensures CarriesReference(Planned(mine, base, theirs).content, theirs)
  {
    PlanIsWellShaped(mine, base, theirs);
    var after := Planned(mine, base, theirs).content;
    if theirs.refs != [] && mine.rows != base.rows {
      forall i, r | 0 <= i < |after.rows| && r in theirs.refs
        ensures CellAt(after, i, r) == CellAt(theirs, i, r)
      {
        CarriedCells(mine, theirs, after, i, r);
      }
    }
  }

  // ---------------------------------------------------------------- taking the update

  datatype Refusal = AlreadyBased | NotTheEdit | EditNotNamed | EvidenceRestsOn

  function LastAdopted(versions: seq<Version>): Version
    requires exists v :: v in versions && v.provenance.Adopted?
    ensures LastAdopted(versions) in versions && LastAdopted(versions).provenance.Adopted?
  {
    var last := versions[|versions| - 1];
    if last.provenance.Adopted? then last else LastAdopted(versions[..|versions| - 1])
  }

  /** A copy that once took its template, every version a list could hold. */
  ghost predicate IsCopy(d: ListDef) {
    && (exists v :: v in d.versions && v.provenance.Adopted?)
    && forall v :: v in d.versions ==> WellShaped(v.content)
  }

  function BasedOn(d: ListDef): nat
    requires IsCopy(d)
  {
    LastAdopted(d.versions).provenance.templateVersion
  }

  function PlanFor(d: ListDef, theirs: Content): Plan
    requires IsCopy(d) && WellShaped(theirs)
  {
    Planned(d.Current().value.content, LastAdopted(d.versions).content, theirs)
  }

  function Adopting(d: ListDef, snap: Snap, content: Content): ListDef {
    Retagged(WithVersion(d, content, Adopted(snap.number)), snap.controls, ByTemplate)
  }

  /** Its refusals, in the order they are checked; a refusal writes nothing. */
  function Updated(s: Store, l: ListId, snap: Snap, overwrite: Option<EditRef>): Result<Store, Refusal>
    requires l in s.lists && IsCopy(s.lists[l]) && WellShaped(snap.content)
  {
    var d := s.lists[l];
    var plan := PlanFor(d, snap.content);
    var edit := if plan.ReplacesAnEdit() then Some(RefFor(s.lists, l)) else None;
    if snap.number == BasedOn(d) then Err(AlreadyBased)
    else if overwrite.Some? && overwrite != edit then Err(NotTheEdit)
    else if edit.Some? && overwrite.None? then Err(EditNotNamed)
    else if exists c :: c in TagsToRemove(d, snap.controls, ByTemplate) && RestingLinks(s, l, c) != {}
        then Err(EvidenceRestsOn)
    else Ok(s.(lists := s.lists[l := Adopting(d, snap, plan.content)]))
  }

  /** An edit is replaced exactly when an update replaces one and it is named, list and version. With
      nothing named, no definition was changed and no filled cell is counted as dropped; and the version
      named is still there, under its number, with all it held. */
  lemma OverwritesOnlyWhatIsNamed(s: Store, l: ListId, snap: Snap, overwrite: Option<EditRef>)
    requires l in s.lists && IsCopy(s.lists[l]) && WellShaped(snap.content) && Updated(s, l, snap, overwrite).Ok?
    requires s.lists[l].Numbered()
    ensures PlanFor(s.lists[l], snap.content).ReplacesAnEdit() <==> overwrite == Some(RefFor(s.lists, l))
    ensures overwrite.None? ==>
              var mine, base := s.lists[l].Current().value.content, LastAdopted(s.lists[l].versions).content;
              Definition(mine) == Definition(base) && (mine.rows == base.rows || NothingCounted(mine, snap.content))
    ensures var after := Updated(s, l, snap, overwrite).value.lists[l];
            overwrite.Some? ==> IsVersion(after, overwrite.value.number, s.lists[l].Current().value)
  {
    EditStays(s.lists[l], snap, PlanFor(s.lists[l], snap.content).content);
  }

  /** The one version of that number. */
  ghost predicate IsVersion(d: ListDef, n: nat, v: Version) {
    v in d.versions && v.number == n && forall w :: w in d.versions && w.number == n ==> w == v
  }

  lemma EditStays(d: ListDef, snap: Snap, content: Content)
    requires d.Numbered() && d.versions != []
    ensures IsVersion(Adopting(d, snap, content), d.Current().value.number, d.Current().value)
  {
    var after := Adopting(d, snap, content);
    VersionsStayNumbered(d, content, Adopted(snap.number));
    assert after.versions[|d.versions| - 1] == d.Current().value;
  }

  ghost predicate NothingCounted(mine: Content, theirs: Content)
    requires WellShaped(mine) && WellShaped(theirs)
  {
    if theirs.refs != [] then DroppedByKey(mine, theirs) == {} else DroppedByName(mine, theirs.columns) == {}
  }

  lemma {:induction false} AdoptedLast(versions: seq<Version>, v: Version)
    requires v.provenance.Adopted?
    ensures LastAdopted(versions + [v]) == v
  {
    assert v in versions + [v];
  }

  /** Taking an update: the copy stays numbered, every older version keeps its value, the version it
      is now based on is the one taken, and live evidence keeps its support. */
  lemma UpdateKeepsConfinement(s: Store, l: ListId, snap: Snap, overwrite: Option<EditRef>)
    requires Inv(s) && l in s.lists && IsCopy(s.lists[l]) && WellShaped(snap.content)
    requires Updated(s, l, snap, overwrite).Ok?
    ensures var after := Updated(s, l, snap, overwrite).value;
            Inv(after) && IsCopy(after.lists[l]) && BasedOn(after.lists[l]) == snap.number
                && s.lists[l].versions <= after.lists[l].versions
  {
    var d := s.lists[l];
    var content := PlanFor(d, snap.content).content;
    PlanIsWellShaped(d.Current().value.content, LastAdopted(d.versions).content, snap.content);
    VersionsStayNumbered(d, content, Adopted(snap.number));
    ListChangeKeeps(s, l, Adopting(d, snap, content));
    var v := Version(MaxNumber(d.versions) + 1, content, Adopted(snap.number));
    AdoptedLast(d.versions, v);
    assert v in d.versions + [v];
  }

  /** Every check, before anything is written. */
  method CheckUpdate(store: ListStore, l: ListId, snap: Snap, overwrite: Option<EditRef>,
                     plan: Plan) returns (refused: Option<Refusal>)
    requires l in store.lists && IsCopy(store.lists[l]) && WellShaped(snap.content)
    requires plan == PlanFor(store.lists[l], snap.content)
    ensures var r := Updated(store.View(), l, snap, overwrite);
            if r.Err? then refused == Some(r.error) else refused.None?
    ensures refused.None? ==> forall c ::
          c in TagsToRemove(store.lists[l], snap.controls, ByTemplate) ==> RestingLinks(store.View(), l, c) == {}
  {
    var d := store.lists[l];
    var edit := if plan.ReplacesAnEdit() then Some(RefFor(store.lists, l)) else None;
    if snap.number == BasedOn(d) {
      return Some(AlreadyBased);
    }
    if overwrite.Some? && overwrite != edit {
      return Some(NotTheEdit);
    }
    if edit.Some? && overwrite.None? {
      return Some(EditNotNamed);
    }
    if exists c :: c in TagsToRemove(d, snap.controls, ByTemplate) && RestingLinks(store.View(), l, c) != {} {
      return Some(EvidenceRestsOn);
    }
    refused := None;
  }

  /** Writes the version, then adds and removes tags. */
  method WriteAdoption(store: ListStore, l: ListId, snap: Snap, content: Content)
    requires l in store.lists
    requires forall c ::
          c in TagsToRemove(store.lists[l], snap.controls, ByTemplate) ==> RestingLinks(store.View(), l, c) == {}
    modifies store`lists
    ensures store.lists == old(store.lists)[l := Adopting(old(store.lists)[l], snap, content)]
  {
    ghost var begin := store.View();
    var _ := store.CreateVersion(l, content, Adopted(snap.number));
    assert forall c :: RestingLinks(store.View(), l, c) == RestingLinks(begin, l, c);
    assert TagsToRemove(store.lists[l], snap.controls, ByTemplate)
        == TagsToRemove(begin.lists[l], snap.controls, ByTemplate);
    Retag(store, l, snap.controls, ByTemplate);
  }

  method TakeUpdate(store: ListStore, l: ListId, snap: Snap,
                    overwrite: Option<EditRef>) returns (refused: Option<Refusal>)
    requires l in store.lists && IsCopy(store.lists[l]) && WellShaped(snap.content)
    modifies store`lists
    ensures refused.None? ==> Updated(old(store.View()), l, snap, overwrite) == Ok(store.View())
    ensures refused.Some?
          ==> Updated(old(store.View()), l, snap, overwrite) == Err(refused.value) && store.View() == old(store.View())
  {
    var d := store.lists[l];
    var plan := MakePlan(d.Current().value.content, LastAdopted(d.versions).content, snap.content);
    refused := CheckUpdate(store, l, snap, overwrite, plan);
    if refused.None? {
      WriteAdoption(store, l, snap, plan.content);
    }
  }

  method MakePlan(mine: Content, base: Content, theirs: Content) returns (plan: Plan)
    requires WellShaped(mine) && WellShaped(theirs)
    ensures plan == Planned(mine, base, theirs)
  {
    var rows, dropped := theirs.rows, 0;
    if mine.rows != base.rows {
      if theirs.refs != [] {
        rows, dropped := ReferenceRows(mine, theirs);
      } else {
        rows, dropped := ByName(mine, theirs.columns), |DroppedByName(mine, theirs.columns)|;
      }
    }
    plan := Plan(theirs.(rows := rows), dropped, Definition(mine) != Definition(base));
  }

  /** The copy: the template's definition, rows and tags as they are now, as its version 1. */
  function Copied(lists: map<ListId, ListDef>, l: ListId, snap: Snap): Result<map<ListId, ListDef>, ListError> {
    if l in lists then Err(KeyTaken) else Ok(lists[l := Adopting(ListDef(false, [], map[]), snap, snap.content)])
  }

  /** A copy starts with the template's reference text and tags, and takes nothing from live evidence. */
  lemma CopyingKeepsConfinement(s: Store, l: ListId, snap: Snap)
    requires Inv(s) && WellShaped(snap.content) && Copied(s.lists, l, snap).Ok?
    ensures var after := Copied(s.lists, l, snap).value;
            && Inv(s.(lists := after)) && IsCopy(after[l]) && BasedOn(after[l]) == snap.number
            && CarriesReference(after[l].Current().value.content, snap.content) && after[l].tags.Keys == snap.controls
  {
    var d := Adopting(ListDef(false, [], map[]), snap, snap.content);
    VersionsStayNumbered(ListDef(false, [], map[]), snap.content, Adopted(snap.number));
    ListChangeKeeps(s, l, d);
    var v := Version(1, snap.content, Adopted(snap.number));
    AdoptedLast([], v);
    assert [] + [v] == [v] && v in [v];
  }

  method Adopt(store: ListStore, l: ListId, snap: Snap) returns (error: Option<ListError>)
    modifies store`lists
    ensures error.None? ==> Copied(old(store.lists), l, snap) == Ok(store.lists)
    ensures error.Some? ==> Copied(old(store.lists), l, snap) == Err(error.value) && store.lists == old(store.lists)
  {
    if l in store.lists {
      return Some(KeyTaken);
    }
    store.lists := store.lists[l := ListDef(false, [], map[])];
    WriteAdoption(store, l, snap, snap.content);
    assert store.lists == old(store.lists)[l := Adopting(ListDef(false, [], map[]), snap, snap.content)];
    error := None;
  }

  // ---------------------------------------------------------------- over every run

  /** What happens to a copy's content: guarded edits, and updates to a version of the template. */
  datatype CopyStep =
    | SaveEdit(columns: seq<string>, rows: seq<Row>)
    | Take(n: nat, controls: set<ControlId>)

  /** A template's versions, none of which ever changes. */
  ghost predicate Template(versions: seq<Content>) {
    forall i :: 0 <= i < |versions| ==> WellShaped(versions[i])
  }

  ghost predicate EditFits(d: ListDef, step: CopyStep)
    requires IsCopy(d) && step.SaveEdit?
  {
    && (forall i :: 0 <= i < |step.rows| ==> |step.rows[i]| == |step.columns|)
    && Distinct(step.columns) && (forall r :: r in d.Current().value.content.refs ==> r in step.columns)
    && EditAllowed(d.Current().value.content, step.columns, step.rows)
  }

  ghost function CopyNext(d: ListDef, template: seq<Content>, step: CopyStep): ListDef
    requires Template(template)
  {
    if !IsCopy(d) then d
    else match step
      case SaveEdit(columns, rows) =>
        if EditFits(d, step) then WithVersion(d, d.Current().value.content.(columns := columns, rows := rows), Edited)
        else d
      case Take(n, controls) =>
        if n < |template| then Adopting(d, Snap(n, template[n], controls), PlanFor(d, template[n]).content) else d
  }

  ghost function CopyRun(d: ListDef, template: seq<Content>, steps: seq<CopyStep>): ListDef
    requires Template(template)
  {
    if steps == [] then d else CopyNext(CopyRun(d, template, steps[..|steps| - 1]), template, steps[|steps| - 1])
  }

  /** The copy's current version carries the reference text of the template version it is based on. */
  ghost predicate CarriesTemplate(d: ListDef, template: seq<Content>) {
    && IsCopy(d) && Template(template) && BasedOn(d) < |template|
    && CarriesReference(d.Current().value.content, template[BasedOn(d)])
    && Definition(LastAdopted(d.versions).content) == Definition(template[BasedOn(d)])
  }

  lemma EditKeepsTemplate(d: ListDef, template: seq<Content>, step: CopyStep)
    requires CarriesTemplate(d, template) && step.SaveEdit?
    ensures CarriesTemplate(CopyNext(d, template, step), template)
  {
    if EditFits(d, step) {
      var content := d.Current().value.content.(columns := step.columns, rows := step.rows);
      var v := Version(MaxNumber(d.versions) + 1, content, Edited);
      assert d.Current().value in d.versions;
      EditKeepsReference(d.Current().value.content, template[BasedOn(d)], step.columns, step.rows);
      var w := LastAdopted(d.versions);
      assert w in d.versions + [v];
      assert (d.versions + [v])[..|d.versions|] == d.versions;
    }
  }

  lemma TakeKeepsTemplate(d: ListDef, template: seq<Content>, step: CopyStep)
    requires CarriesTemplate(d, template) && step.Take?
    ensures CarriesTemplate(CopyNext(d, template, step), template)
  {
    if step.n < |template| {
      var content := PlanFor(d, template[step.n]).content;
      PlanCarriesReference(d.Current().value.content, LastAdopted(d.versions).content, template[step.n]);
      var v := Version(MaxNumber(d.versions) + 1, content, Adopted(step.n));
      AdoptedLast(d.versions, v);
      assert v in d.versions + [v];
    }
  }

  lemma NextKeepsTemplate(d: ListDef, template: seq<Content>, step: CopyStep)
    requires CarriesTemplate(d, template)
    ensures CarriesTemplate(CopyNext(d, template, step), template)
  {
    if step.SaveEdit? {
      EditKeepsTemplate(d, template, step);
    } else {
      TakeKeepsTemplate(d, template, step);
    }
  }

  lemma {:induction false} RunKeepsTemplate(d: ListDef, template: seq<Content>, steps: seq<CopyStep>)
    requires CarriesTemplate(d, template)
    ensures CarriesTemplate(CopyRun(d, template, steps), template)
  {
    if steps != [] {
      RunKeepsTemplate(d, template, steps[..|steps| - 1]);
      NextKeepsTemplate(CopyRun(d, template, steps[..|steps| - 1]), template, steps[|steps| - 1]);
    }
  }

  /** Every run that starts with the copying of a template version keeps its reference text: after
      any guarded edits and updates, the copy has the columns, rows in order, and reference cells
      of the template version it is then based on. */
  lemma ReferenceTextOverRuns(template: seq<Content>, first: nat, controls: set<ControlId>, steps: seq<CopyStep>)
    requires Template(template) && first < |template|
    ensures var d := Adopting(ListDef(false, [], map[]), Snap(first, template[first], controls), template[first]);
            CarriesTemplate(d, template) && CarriesTemplate(CopyRun(d, template, steps), template)
  {
    var v := Version(1, template[first], Adopted(first));
    AdoptedLast([], v);
    assert [] + [v] == [v] && v in [v];
    RunKeepsTemplate(Adopting(ListDef(false, [], map[]), Snap(first, template[first], controls), template[first]),
                     template, steps);
  }
}
