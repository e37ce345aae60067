/** What taking a newer template version writes, cell by cell, and when it must be told to. */
module AdoptionEffects {
  import opened Common
  import opened Rules
  import opened EvidenceLinks
  import opened Lists
  import opened ListEvidence
  import opened ListImport
  import opened ListAdoption
  import opened ListEffects

  // ---------------------------------------------------------------- an edit's guard, exactly

  /** With reference columns an edit may be saved exactly when it carries the reference text it found. */
  lemma EditAllowedExactly(base: Content, columns: seq<string>, rows: seq<Row>)
    requires WellShaped(base) && forall i :: 0 <= i < |rows| ==> |rows[i]| == |columns|
    requires WellShaped(base.(columns := columns, rows := rows))
    ensures EditAllowed(base, columns, rows) <==> CarriesReference(base.(columns := columns, rows := rows), base)
  {
    var edited := base.(columns := columns, rows := rows);
    if base.refs != [] && columns == base.columns && |rows| == |base.rows| {
      forall i, c | 0 <= i < |rows| && c in base.refs
        ensures CellAt(edited, i, c) == rows[i][IndexOf(columns, c).value]
        ensures CellAt(base, i, c) == base.rows[i][IndexOf(base.columns, c).value]
      {
      }
    }
  }

  // ---------------------------------------------------------------- the rows written

  /** The column that is the template's key: its first reference column. */
  ghost predicate IsKey(t: Content, q: nat) {
    q < |t.columns| && t.columns[q] in t.refs && forall i :: 0 <= i < q ==> t.columns[i] !in t.refs
  }

  lemma {:induction false} FirstIsKey(columns: seq<string>, refs: seq<string>, q: nat)
    requires q < |columns| && columns[q] in refs && forall i :: 0 <= i < q ==> columns[i] !in refs
    ensures FirstIn(columns, refs) == columns[q]
  {
    if q > 0 {
      assert columns[0] !in refs;
      FirstIsKey(columns[1..], refs, q - 1);
    }
  }

  lemma KeyIs(t: Content, q: nat)
    requires WellShaped(t) && IsKey(t, q)
    ensures t.refs != [] && KeyColumn(t) == t.columns[q] && IndexOf(t.columns, KeyColumn(t)) == Some(q)
  {
    assert t.columns[q] in t.refs;
    FirstIsKey(t.columns, t.refs, q);
    IndexIs(t.columns, q);
  }

  /** The last row of the copy with this key in the column of that name. */
  ghost predicate LastRowOf(mine: Content, name: string, k: string, m: nat)
    requires WellShaped(mine)
  {
    exists q :: 0 <= q < |mine.columns| && mine.columns[q] == name && m < |mine.rows| && mine.rows[m][q] == k
      && forall n :: m < n < |mine.rows| ==> mine.rows[n][q] != k
  }

  lemma FoundIs(mine: Content, name: string, k: string, m: nat)
    requires WellShaped(mine)
    ensures k in RowsByKey(mine, name) && RowsByKey(mine, name)[k] == m <==> LastRowOf(mine, name, k, m)
  {
    if name in mine.columns {
      var q := IndexOf(mine.columns, name).value;
      var keys := KeysIn(mine, name);
      assert forall i :: 0 <= i < |mine.rows| ==> keys[i] == mine.rows[i][q];
      if LastRowOf(mine, name, k, m) {
        assert keys[m] == k;
      }
    }
  }

  /** What the copy holds for the template's row of key k, in the column of that name. */
  ghost predicate Holds(mine: Content, key: string, k: string, column: string, m: nat, c: nat)
    requires WellShaped(mine)
  {
    LastRowOf(mine, key, k, m) && c < |mine.columns| && mine.columns[c] == column
  }

  /** A cell by key: the template's in a reference column and where the copy has no such row or column, the
      copy's in every other. */
  ghost predicate CellByKey(mine: Content, theirs: Content, q: nat, j: nat, i: nat, cell: string)
    requires WellShaped(mine) && WellShaped(theirs) && q < |theirs.columns| && j < |theirs.rows| && i < |theirs.columns|
  {
    var key, k, column := theirs.columns[q], theirs.rows[j][q], theirs.columns[i];
    if column !in theirs.refs && exists m: nat, c: nat :: Holds(mine, key, k, column, m, c)
    then forall m: nat, c: nat :: Holds(mine, key, k, column, m, c) ==> cell == mine.rows[m][c]
    else cell == theirs.rows[j][i]
  }

  lemma CarriedByKey(mine: Content, theirs: Content, q: nat, j: nat, i: nat)
    requires WellShaped(mine) && WellShaped(theirs) && IsKey(theirs, q) && j < |theirs.rows| && i < |theirs.columns|
    ensures theirs.refs != [] && CellByKey(mine, theirs, q, j, i, CarriedRow(mine, theirs, j)[i])
  {
    KeyIs(theirs, q);
    var key, k, column := theirs.columns[q], theirs.rows[j][q], theirs.columns[i];
    assert CellAt(theirs, j, KeyColumn(theirs)) == k;
    var found := RowsByKey(mine, key);
    forall m: nat, c: nat | Holds(mine, key, k, column, m, c)
      ensures k in found && found[k] == m && column in mine.columns && CellAt(mine, m, column) == mine.rows[m][c]
    {
      FoundIs(mine, key, k, m);
      IndexIs(mine.columns, c);
    }
    if k in found && column in mine.columns {
      FoundIs(mine, key, k, found[k]);
      assert Holds(mine, key, k, column, found[k], IndexOf(mine.columns, column).value);
    }
  }

  /** A cell by name: the copy's, in its own row, where it has the column. */
  ghost predicate CellByName(mine: Content, column: string, i: nat, cell: string)
    requires WellShaped(mine) && i < |mine.rows|
  {
    && (forall c :: 0 <= c < |mine.columns| && mine.columns[c] == column ==> cell == mine.rows[i][c])
    && (column !in mine.columns ==> cell == "")
  }

  /** The rows an update writes: the template's where the copy's were never edited, else the copy's cells, by
      the template's keys if it has reference columns and by name if it has none. */
  ghost predicate RowsWritten(mine: Content, base: Content, theirs: Content, rows: seq<Row>)
    requires WellShaped(mine) && WellShaped(theirs) && forall i :: 0 <= i < |rows| ==> |rows[i]| == |theirs.columns|
  {
    if mine.rows == base.rows then rows == theirs.rows
    else if theirs.refs == [] then
      && |rows| == |mine.rows|
      && forall i, j :: 0 <= i < |rows| && 0 <= j < |theirs.columns|
           ==> CellByName(mine, theirs.columns[j], i, rows[i][j])
    else
      && |rows| == |theirs.rows|
      && forall q: nat, j, i :: IsKey(theirs, q) && 0 <= j < |rows| && 0 <= i < |theirs.columns|
           ==> CellByKey(mine, theirs, q, j, i, rows[j][i])
  }

  /** What an update writes: the template's definition, and those rows. */
  lemma UpdateWrites(mine: Content, base: Content, theirs: Content)
    requires WellShaped(mine) && WellShaped(theirs)
    ensures var after := Planned(mine, base, theirs).content;
            && WellShaped(after) && after == theirs.(rows := after.rows)
            && RowsWritten(mine, base, theirs, after.rows)
  {
    PlanIsWellShaped(mine, base, theirs);
    var after := Planned(mine, base, theirs).content;
    if mine.rows != base.rows && theirs.refs == [] {
      forall i, j | 0 <= i < |after.rows| && 0 <= j < |theirs.columns|
        ensures CellByName(mine, theirs.columns[j], i, after.rows[i][j])
      {
        NamedCell(mine, theirs.columns, i, j);
      }
    }
    if mine.rows != base.rows && theirs.refs != [] {
      forall q: nat, j, i | IsKey(theirs, q) && 0 <= j < |after.rows| && 0 <= i < |theirs.columns|
        ensures CellByKey(mine, theirs, q, j, i, after.rows[j][i])
      {
        CarriedByKey(mine, theirs, q, j, i);
        assert after.rows[j] == CarriedRow(mine, theirs, j);
      }
    }
  }

  lemma NamedCell(mine: Content, columns: seq<string>, i: nat, j: nat)
    requires WellShaped(mine) && i < |mine.rows| && j < |columns|
    ensures CellByName(mine, columns[j], i, ByName(mine, columns)[i][j])
  {
    forall c | 0 <= c < |mine.columns| && mine.columns[c] == columns[j]
      ensures CellAt(mine, i, columns[j]) == mine.rows[i][c]
    {
      IndexIs(mine.columns, c);
    }
  }

  // ---------------------------------------------------------------- when an edit must be named

  ghost predicate NotBlank(cell: string) {
    exists i :: 0 <= i < |cell| && cell[i] != ' ' && cell[i] != '\t' && cell[i] != '\n' && cell[i] != '\r'
  }

  lemma FilledIs(cell: string)
    ensures Filled(cell) <==> NotBlank(cell)
  {
  }

  /** Something entered in a column the template has no more. */
  ghost predicate ColumnGone(mine: Content, theirs: Content)
    requires WellShaped(mine)
  {
    exists i, c :: 0 <= i < |mine.rows| && 0 <= c < |mine.columns| && mine.columns[c] !in theirs.columns
      && NotBlank(mine.rows[i][c])
  }

  ghost predicate HasKey(t: Content, q: nat, k: string)
    requires WellShaped(t) && q < |t.columns|
  {
    exists j :: 0 <= j < |t.rows| && t.rows[j][q] == k
  }

  /** Something entered, outside the reference columns, in a row whose key the template has no more. */
  ghost predicate RowGone(mine: Content, theirs: Content)
    requires WellShaped(mine) && WellShaped(theirs)
  {
    exists q: nat, k, m: nat, c: nat :: GoneWithRow(mine, theirs, q, k, m, c)
  }

  ghost predicate GoneWithRow(mine: Content, theirs: Content, q: nat, k: string, m: nat, c: nat)
    requires WellShaped(mine) && WellShaped(theirs)
  {
    && IsKey(theirs, q) && LastRowOf(mine, theirs.columns[q], k, m) && !HasKey(theirs, q, k)
    && c < |mine.columns| && mine.columns[c] !in theirs.refs && NotBlank(mine.rows[m][c])
  }

  ghost predicate MustBeNamed(mine: Content, base: Content, theirs: Content)
    requires WellShaped(mine) && WellShaped(theirs)
  {
    || mine.title != base.title || mine.description != base.description || mine.responsible != base.responsible
    || mine.cadence != base.cadence || mine.columns != base.columns || mine.refs != base.refs
    || (mine.rows != base.rows && if theirs.refs == [] then ColumnGone(mine, theirs) else RowGone(mine, theirs))
  }

  lemma DroppedByNameIs(mine: Content, theirs: Content)
    requires WellShaped(mine)
    ensures DroppedByName(mine, theirs.columns) != {} <==> ColumnGone(mine, theirs)
  {
    if ColumnGone(mine, theirs) {
      var i, c :| 0 <= i < |mine.rows| && 0 <= c < |mine.columns| && mine.columns[c] !in theirs.columns
          && NotBlank(mine.rows[i][c]);
      IndexIs(mine.columns, c);
      FilledIs(mine.rows[i][c]);
      assert (i, mine.columns[c]) in DroppedByName(mine, theirs.columns);
    }
    if DroppedByName(mine, theirs.columns) != {} {
      var p :| p in DroppedByName(mine, theirs.columns);
      FilledIs(CellAt(mine, p.0, p.1));
      assert mine.columns[IndexOf(mine.columns, p.1).value] !in theirs.columns;
    }
  }

  lemma KeysAre(t: Content, q: nat, k: string)
    requires WellShaped(t) && IsKey(t, q)
    ensures t.refs != [] && (k in Keys(t) <==> HasKey(t, q, k))
  {
    KeyIs(t, q);
    if HasKey(t, q, k) {
      var j :| 0 <= j < |t.rows| && t.rows[j][q] == k;
      assert CellAt(t, j, KeyColumn(t)) == k;
    }
  }

  lemma {:induction false} SomeKey(columns: seq<string>, refs: seq<string>) returns (q: nat)
    requires exists r :: r in refs && r in columns
    ensures q < |columns| && columns[q] in refs && forall i :: 0 <= i < q ==> columns[i] !in refs
    decreases |columns|
  {
    if columns[0] in refs {
      q := 0;
    } else {
      var rest := SomeKey(columns[1..], refs);
      q := rest + 1;
      forall i | 0 <= i < q
        ensures columns[i] !in refs
      {
        assert i > 0 ==> columns[i] == columns[1..][i - 1];
      }
    }
  }

  lemma DroppedByKeyIs(mine: Content, theirs: Content)
    requires WellShaped(mine) && WellShaped(theirs) && theirs.refs != []
    ensures DroppedByKey(mine, theirs) != {} <==> RowGone(mine, theirs)
  {
    var found := RowsByKey(mine, KeyColumn(theirs));
    if RowGone(mine, theirs) {
      var q: nat, k, m: nat, c: nat :| GoneWithRow(mine, theirs, q, k, m, c);
      CountedByKey(mine, theirs, q, k, m, c);
    }
    if DroppedByKey(mine, theirs) != {} {
      var p :| p in DroppedByKey(mine, theirs);
      assert theirs.refs[0] in theirs.refs && theirs.refs[0] in theirs.columns;
      var q := SomeKey(theirs.columns, theirs.refs);
      GoneByKey(mine, theirs, q, p.0, p.1);
    }
  }

  lemma GoneByKey(mine: Content, theirs: Content, q: nat, k: string, column: string)
    requires WellShaped(mine) && WellShaped(theirs) && IsKey(theirs, q) && theirs.refs != []
    requires (k, column) in DroppedByKey(mine, theirs)
    ensures RowGone(mine, theirs)
  {
    KeyIs(theirs, q);
    KeysAre(theirs, q, k);
    var m, c := RowsByKey(mine, theirs.columns[q])[k], IndexOf(mine.columns, column).value;
    FoundIs(mine, theirs.columns[q], k, m);
    FilledIs(CellAt(mine, m, column));
    assert mine.columns[c] == column;
    assert GoneWithRow(mine, theirs, q, k, m, c);
  }

  lemma CountedByKey(mine: Content, theirs: Content, q: nat, k: string, m: nat, c: nat)
    requires WellShaped(mine) && WellShaped(theirs) && GoneWithRow(mine, theirs, q, k, m, c)
    ensures theirs.refs != [] && (k, mine.columns[c]) in DroppedByKey(mine, theirs)
  {
    KeyIs(theirs, q);
    KeysAre(theirs, q, k);
    FoundIs(mine, theirs.columns[q], k, m);
    IndexIs(mine.columns, c);
    FilledIs(mine.rows[m][c]);
  }

  /** An edit has to be named exactly when a definition was changed, or something entered has no place left. */
  lemma MustBeNamedExactly(mine: Content, base: Content, theirs: Content)
    requires WellShaped(mine) && WellShaped(theirs)
    ensures Planned(mine, base, theirs).ReplacesAnEdit() <==> MustBeNamed(mine, base, theirs)
  {
    DroppedByNameIs(mine, theirs);
    if theirs.refs != [] {
      DroppedByKeyIs(mine, theirs);
    }
  }

  // ---------------------------------------------------------------- taking it

  /** The last version of the copy that took its template. */
  ghost predicate LastTaken(d: ListDef, a: nat) {
    && a < |d.versions| && d.versions[a].provenance.Adopted?
    && forall i :: a < i < |d.versions| ==> !d.versions[i].provenance.Adopted?
  }

  lemma {:induction false} LastTakenIs(versions: seq<Version>, a: nat)
    requires a < |versions| && versions[a].provenance.Adopted?
    requires forall i :: a < i < |versions| ==> !versions[i].provenance.Adopted?
    ensures versions[a] in versions && LastAdopted(versions) == versions[a]
  {
    if a < |versions| - 1 {
      assert versions[..|versions| - 1][a] == versions[a];
      LastTakenIs(versions[..|versions| - 1], a);
    }
  }

  /** A tag only the template put there, that it names no more, with evidence resting on it. */
  ghost predicate TemplateTakesSupport(s: Store, l: ListId, controls: set<ControlId>)
    requires l in s.lists
  {
    exists c :: c in s.lists[l].tags && s.lists[l].tags[c] == ByTemplate && c !in controls && RestsOn(s, l, c)
  }

  lemma TemplateTakesIs(s: Store, l: ListId, controls: set<ControlId>)
    requires l in s.lists
    ensures (exists c :: c in TagsToRemove(s.lists[l], controls, ByTemplate) && RestingLinks(s, l, c) != {})
       <==> TemplateTakesSupport(s, l, controls)
  {
    forall c
      ensures RestingLinks(s, l, c) != {} <==> RestsOn(s, l, c)
    {
      RestingAre(s, l, c);
    }
    if TemplateTakesSupport(s, l, controls) {
      var c :| c in s.lists[l].tags && s.lists[l].tags[c] == ByTemplate && c !in controls && RestsOn(s, l, c);
      assert c in TagsToRemove(s.lists[l], controls, ByTemplate);
    }
  }

  /** The copy after taking the version: one version more, and the tags that follow the template's. */
  ghost predicate Taken(s: Store, l: ListId, snap: Snap, base: Content, after: Store)
    requires l in s.lists && HasContent(s.lists) && WellShaped(Last(s.lists[l]).content) && WellShaped(snap.content)
  {
    && l in after.lists && after == s.(lists := s.lists[l := after.lists[l]])
    && var d, now := s.lists[l], after.lists[l];
       && now.isTemplate == d.isTemplate && TagsFollow(d.tags, snap.controls, ByTemplate, now.tags)
       && |now.versions| == |d.versions| + 1 && d.versions <= now.versions
       && Last(now).number == |d.versions| + 1 && Last(now).provenance == Adopted(snap.number)
       && WellShaped(Last(now).content) && Last(now).content == snap.content.(rows := Last(now).content.rows)
       && RowsWritten(Last(d).content, base, snap.content, Last(now).content.rows)
  }

  /** Taking a template version: what it writes, or exactly these refusals, in this order. */
  lemma TakeEffect(s: Store, l: ListId, snap: Snap, overwrite: Option<EditRef>, a: nat)
    requires HasContent(s.lists) && l in s.lists && IsCopy(s.lists[l]) && s.lists[l].Numbered()
    requires WellShaped(snap.content) && LastTaken(s.lists[l], a)
    ensures var r, d := Updated(s, l, snap, overwrite), s.lists[l];
            var edit := EditRef(l, Last(d).number);
            var named := MustBeNamed(Last(d).content, d.versions[a].content, snap.content);
            if d.versions[a].provenance == Adopted(snap.number) then r == Err(AlreadyBased)
            else if overwrite.Some? && !(named && overwrite == Some(edit)) then r == Err(NotTheEdit)
            else if named && overwrite.None? then r == Err(EditNotNamed)
            else if TemplateTakesSupport(s, l, snap.controls) then r == Err(EvidenceRestsOn)
            else r.Ok? && Taken(s, l, snap, d.versions[a].content, r.value)
  {
    var d := s.lists[l];
    assert Last(d) in d.versions;
    LastTakenIs(d.versions, a);
    MustBeNamedExactly(Last(d).content, d.versions[a].content, snap.content);
    TemplateTakesIs(s, l, snap.controls);
    if Updated(s, l, snap, overwrite).Ok? {
      var content := PlanFor(d, snap.content).content;
      UpdateWrites(Last(d).content, d.versions[a].content, snap.content);
      MaxOfNumbered(d);
      RetaggedFollow(WithVersion(d, content, Adopted(snap.number)), snap.controls, ByTemplate);
    }
  }

  /** Copying a template: its content as version 1 and its tags, or a refusal where the key is taken. */
  lemma CopyEffect(lists: map<ListId, ListDef>, l: ListId, snap: Snap)
    ensures var r := Copied(lists, l, snap);
            if l in lists then r == Err(KeyTaken)
            else
              && r.Ok? && l in r.value && r.value == lists[l := r.value[l]]
              && TagsFollow(map[], snap.controls, ByTemplate, r.value[l].tags)
              && r.value[l] == ListDef(false, [Version(1, snap.content, Adopted(snap.number))], r.value[l].tags)
  {
    var d := WithVersion(ListDef(false, [], map[]), snap.content, Adopted(snap.number));
    RetaggedFollow(d, snap.controls, ByTemplate);
    assert d.versions == [Version(1, snap.content, Adopted(snap.number))];
  }
}
