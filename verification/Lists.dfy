/** Versioned lists: their content, who may call them filled in, and the one way to change them. */
module Lists {
  import opened Common
  import opened Text
  import opened Rules

  /** A list, by its key: an organisation has one list of each key. */
  type ListId = string
  type Row = seq<string>

  datatype Content = Content(title: string, description: string, responsible: string, cadence: string,
                             columns: seq<string>, refs: seq<string>, rows: seq<Row>)

  /** Why a version exists: an import wrote it, or a person did, by hand or from a template version. */
  datatype Provenance = Imported | ByHand | Edited | Adopted(templateVersion: nat)

  datatype Version = Version(number: nat, content: Content, provenance: Provenance)

  /** Who put a tag on a list, and so whose it is to take off without being asked. */
  datatype Via = ByPerson | ByImport | ByTemplate

  datatype ListDef = ListDef(isTemplate: bool, versions: seq<Version>, tags: map<ControlId, Via>) {
    /** The current version is the one written last. */
    function Current(): Option<Version> {
      if versions == [] then None else Some(versions[|versions| - 1])
    }

    ghost predicate Numbered() {
      forall i :: 0 <= i < |versions| ==> versions[i].number == i + 1
    }
  }

  // ---------------------------------------------------------------- is the list filled in?

  predicate Upper(c: char) { 'A' <= c <= 'Z' }

  predicate TokenChar(c: char) { Upper(c) || '0' <= c <= '9' || c == '_' }

  /** A fill-in token such as [CUSTOMER_NAME] anywhere in the cell. */
  predicate HasToken(cell: string) {
    exists i, j :: 0 <= i && i + 1 < j < |cell| && IsToken(cell, i, j)
  }

  predicate IsToken(cell: string, i: int, j: int)
    requires 0 <= i && i + 1 < j < |cell|
  {
    cell[i] == '[' && Upper(cell[i + 1]) && cell[j] == ']' && forall k :: i < k < j ==> TokenChar(cell[k])
  }

  predicate Entered(cell: string) {
    !Blank(cell) && !HasToken(cell)
  }

  predicate IsExampleRow(row: Row) {
    exists i :: 0 <= i < |row| && HasToken(row[i])
  }

  function IndexOf(columns: seq<string>, c: string): (i: Option<nat>)
    ensures i.Some? ==> i.value < |columns| && columns[i.value] == c && forall j :: 0 <= j < i.value ==> columns[j] != c
    ensures i.None? <==> c !in columns
  {
    if columns == [] then None
    else if columns[0] == c then Some(0)
    else
      var rest := IndexOf(columns[1..], c);
      if rest.Some? then Some(rest.value + 1) else None
  }

  function RefIndices(columns: seq<string>, refs: seq<string>): set<nat> {
    set c | c in refs && c in columns :: IndexOf(columns, c).value
  }

  predicate HasEntry(row: Row, reserved: set<nat>) {
    exists i: nat :: i < |row| && i !in reserved && Entered(row[i])
  }

  function ExampleRows(rows: seq<Row>): nat {
    if rows == [] then 0 else ExampleRows(rows[..|rows| - 1]) + if IsExampleRow(rows[|rows| - 1]) then 1 else 0
  }

  function UnenteredRows(rows: seq<Row>, reserved: set<nat>): nat {
    if rows == [] then 0
    else UnenteredRows(rows[..|rows| - 1], reserved) + if HasEntry(rows[|rows| - 1], reserved) then 0 else 1
  }

  predicate IsPopulated(c: Content) {
    c.rows != [] && ExampleRows(c.rows) == 0 && UnenteredRows(c.rows, RefIndices(c.columns, c.refs)) == 0
  }

  /** Something other than white space in the cell. */
  ghost predicate SomethingIn(cell: string) {
    exists i :: 0 <= i < |cell| && cell[i] != ' ' && cell[i] != '\t' && cell[i] != '\n' && cell[i] != '\r'
  }

  /** Square brackets around capitals, digits and underscores, a capital first: an example to fill in. */
  ghost predicate TokenIn(cell: string) {
    exists i, j :: 0 <= i && i + 1 < j < |cell| && TokenAt(cell, i, j)
  }

  ghost predicate TokenAt(cell: string, i: int, j: int)
    requires 0 <= i && i + 1 < j < |cell|
  {
    && cell[i] == '[' && cell[j] == ']' && 'A' <= cell[i + 1] <= 'Z'
    && forall k :: i < k < j ==> 'A' <= cell[k] <= 'Z' || '0' <= cell[k] <= '9' || cell[k] == '_'
  }

  /** The first column of its name, and that a reference column's. */
  ghost predicate IsReference(c: Content, i: nat) {
    i < |c.columns| && c.columns[i] in c.refs && forall j :: 0 <= j < i ==> c.columns[j] != c.columns[i]
  }

  /** Somebody entered something, outside the reference columns. */
  ghost predicate EnteredInto(c: Content, r: Row) {
    exists i: nat :: i < |r| && !IsReference(c, i) && SomethingIn(r[i]) && !TokenIn(r[i])
  }

  lemma CellMeans(cell: string)
    ensures HasToken(cell) <==> TokenIn(cell)
    ensures Entered(cell) <==> SomethingIn(cell) && !TokenIn(cell)
  {
    forall i, j | 0 <= i && i + 1 < j < |cell|
      ensures IsToken(cell, i, j) <==> TokenAt(cell, i, j)
    {
    }
  }

  lemma ReferencesAre(c: Content, i: nat)
    ensures i in RefIndices(c.columns, c.refs) <==> IsReference(c, i)
  {
    if IsReference(c, i) {
      assert IndexOf(c.columns, c.columns[i]).value == i;
    }
  }

  lemma RowMeans(c: Content, r: Row)
    ensures HasEntry(r, RefIndices(c.columns, c.refs)) <==> EnteredInto(c, r)
    ensures IsExampleRow(r) <==> exists i :: 0 <= i < |r| && TokenIn(r[i])
  {
    forall i: nat | i < |r|
      ensures HasToken(r[i]) <==> TokenIn(r[i])
      ensures Entered(r[i]) <==> SomethingIn(r[i]) && !TokenIn(r[i])
      ensures i in RefIndices(c.columns, c.refs) <==> IsReference(c, i)
    {
      CellMeans(r[i]);
      ReferencesAre(c, i);
    }
  }

  /** Populated means every row holds something a person entered outside the reference columns,
      and no cell anywhere is still a template's example. */
  lemma PopulatedMeans(c: Content)
    ensures IsPopulated(c) <==>
              && c.rows != []
              && (forall r :: r in c.rows ==> EnteredInto(c, r))
              && (forall r, i :: r in c.rows && 0 <= i < |r| ==> !TokenIn(r[i]))
  {
    CountsAreZero(c.rows, RefIndices(c.columns, c.refs));
    forall r
      ensures HasEntry(r, RefIndices(c.columns, c.refs)) <==> EnteredInto(c, r)
      ensures IsExampleRow(r) <==> exists i :: 0 <= i < |r| && TokenIn(r[i])
    {
      RowMeans(c, r);
    }
  }

  lemma {:induction false} CountsAreZero(rows: seq<Row>, reserved: set<nat>)
    ensures ExampleRows(rows) == 0 <==> forall r :: r in rows ==> !IsExampleRow(r)
    ensures UnenteredRows(rows, reserved) == 0 <==> forall r :: r in rows ==> HasEntry(r, reserved)
  {
    if rows != [] {
      var init, last := rows[..|rows| - 1], rows[|rows| - 1];
      CountsAreZero(init, reserved);
      assert rows == init + [last];
      assert forall r :: r in rows <==> r in init || r == last;
    }
  }

  // ---------------------------------------------------------------- writing a version, changing tags

  function MaxNumber(versions: seq<Version>): nat {
    if versions == [] then 0
    else
      var rest := MaxNumber(versions[..|versions| - 1]);
      if versions[|versions| - 1].number > rest then versions[|versions| - 1].number else rest
  }

  /** The one way content changes: a further version, numbered after every one there is. */
  function WithVersion(d: ListDef, content: Content, provenance: Provenance): ListDef {
    d.(versions := d.versions + [Version(MaxNumber(d.versions) + 1, content, provenance)])
  }

  lemma {:induction false} MaxOfNumbered(d: ListDef)
    requires d.Numbered()
    ensures MaxNumber(d.versions) == |d.versions|
    decreases |d.versions|
  {
    if d.versions != [] {
      MaxOfNumbered(d.(versions := d.versions[..|d.versions| - 1]));
    }
  }

  /** Versions are numbered 1 to n, and a new one leaves every older one alone. */
  lemma VersionsStayNumbered(d: ListDef, content: Content, provenance: Provenance)
    requires d.Numbered()
    ensures var after := WithVersion(d, content, provenance);
            after.Numbered() && d.versions <= after.versions
                && after.Current().value == Version(|d.versions| + 1, content, provenance)
  {
    MaxOfNumbered(d);
  }

  function WithTag(d: ListDef, key: ControlId, via: Via): ListDef {
    if key in d.tags then d else d.(tags := d.tags[key := via])
  }

  function WithoutTag(d: ListDef, key: ControlId): ListDef {
    d.(tags := d.tags - {key})
  }
}
