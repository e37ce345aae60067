/** What taking a newer template version does to what a person entered: exactly when it is kept. */
module UpdateLosses {
  import opened Common
  import opened Rules
  import opened EvidenceLinks
  import opened Lists
  import opened ListEvidence
  import opened ListImport
  import opened ListAdoption

  // ---------------------------------------------------------------- a person's work, kept or not

  /** The cell is as the template version has it. */
  ghost predicate FromTemplate(c: Content, basis: Content, i: nat, column: string)
    requires WellShaped(c) && WellShaped(basis) && i < |c.rows| && column in c.columns
  {
    i < |basis.rows| && column in basis.columns && CellAt(basis, i, column) == CellAt(c, i, column)
  }

  /** A filled cell that the template version the copy is based on did not put there. */
  ghost predicate Work(mine: Content, basis: Content, i: nat, c: string)
    requires WellShaped(mine) && WellShaped(basis) && i < |mine.rows|
  {
    c in mine.columns && Filled(CellAt(mine, i, c)) && !FromTemplate(mine, basis, i, c)
  }

  /** The new version still has it: in its row, or, with reference columns, in the row of its key. */
  ghost predicate Kept(mine: Content, theirs: Content, after: Content, i: nat, c: string)
    requires WellShaped(mine) && WellShaped(theirs) && WellShaped(after) && after.columns == theirs.columns
    requires i < |mine.rows| && c in mine.columns
  {
    if theirs.refs == [] then i < |after.rows| && c in after.columns && CellAt(after, i, c) == CellAt(mine, i, c)
    else Survives(mine, after, KeyColumn(theirs), i, c)
  }

  ghost predicate WorkKept(mine: Content, basis: Content, theirs: Content, after: Content)
    requires WellShaped(mine) && WellShaped(basis) && WellShaped(theirs) && WellShaped(after)
    requires after.columns == theirs.columns
  {
    forall i, c :: 0 <= i < |mine.rows| && Work(mine, basis, i, c) ==> Kept(mine, theirs, after, i, c)
  }

  /** Every filled cell is one the template version put there. */
  ghost predicate OnlyExamples(c: Content, basis: Content)
    requires WellShaped(c) && WellShaped(basis)
  {
    forall i, column :: (i, column) in FilledCells(c) ==> FromTemplate(c, basis, i, column)
  }

  /** The template has reference columns, and every cell a person worked in can be found in its rows:
      no column worked in is dropped, none is made a reference column that says otherwise, the key is
      kept, and no later row of the same key says otherwise. */
  ghost predicate WorkCarries(mine: Content, basis: Content, theirs: Content)
    requires WellShaped(mine) && WellShaped(basis) && WellShaped(theirs) && theirs.refs != []
  {
    forall i, c :: 0 <= i < |mine.rows| && Work(mine, basis, i, c) ==> Carries(mine, theirs, i, c)
  }

  /** Where rows were edited: without reference columns always, with them if the work carries. */
  ghost predicate EditsCarry(mine: Content, basis: Content, theirs: Content)
    requires WellShaped(mine) && WellShaped(basis) && WellShaped(theirs)
  {
    theirs.refs == [] || WorkCarries(mine, basis, theirs)
  }

  // ---------------------------------------------------------------- one update

  /** An update that names no edit keeps what a person defined, and, where rows were edited since the
      last update and there are no reference columns, every filled cell, in its row and under its
      column's name. */
  lemma UnnamedUpdateLosesNothing(mine: Content, base: Content, theirs: Content)
    requires WellShaped(mine) && WellShaped(theirs) && !Planned(mine, base, theirs).ReplacesAnEdit()
    ensures Definition(mine) == Definition(base)
    ensures var after := Planned(mine, base, theirs).content;
            mine.rows != base.rows && theirs.refs == [] ==>
              WellShaped(after) && |after.rows| == |mine.rows| && FilledCells(after) == FilledCells(mine)
              && forall i, c :: (i, c) in FilledCells(mine) ==> CellAt(after, i, c) == CellAt(mine, i, c)
  {
    PlanIsWellShaped(mine, base, theirs);
    if mine.rows != base.rows && theirs.refs == [] {
      NothingDroppedByName(mine, Planned(mine, base, theirs).content);
    }
  }

  lemma NothingDroppedByName(mine: Content, after: Content)
    requires WellShaped(mine) && WellShaped(after) && after.rows == ByName(mine, after.columns)
    requires DroppedByName(mine, after.columns) == {}
    ensures FilledCells(after) == FilledCells(mine)
    ensures forall i, c :: (i, c) in FilledCells(mine) ==> CellAt(after, i, c) == CellAt(mine, i, c)
  {
    FilledCellsAreConserved(mine, after);
  }

  lemma EditedByKeyKeepsExactly(mine: Content, basis: Content, theirs: Content, after: Content)
    requires WellShaped(mine) && WellShaped(basis) && WellShaped(theirs) && theirs.refs != []
    requires DroppedByKey(mine, theirs) == {}
    requires WellShaped(after) && after.columns == theirs.columns && after.rows == CarriedRows(mine, theirs)
    ensures WorkKept(mine, basis, theirs, after) <==> WorkCarries(mine, basis, theirs)
  {
    forall i, c | 0 <= i < |mine.rows| && Work(mine, basis, i, c)
      ensures Kept(mine, theirs, after, i, c) <==> Carries(mine, theirs, i, c)
    {
      if Carries(mine, theirs, i, c) {
        CarrierSurvives(mine, theirs, after, i, c);
      }
      if Kept(mine, theirs, after, i, c) {
        SurvivorCarries(mine, theirs, after, i, c);
      }
    }
  }

  lemma EditedByNameKeeps(mine: Content, base: Content, basis: Content, theirs: Content)
    requires WellShaped(mine) && WellShaped(basis) && WellShaped(theirs) && theirs.refs == []
    requires mine.rows != base.rows && !Planned(mine, base, theirs).ReplacesAnEdit()
    ensures WellShaped(Planned(mine, base, theirs).content)
    ensures WorkKept(mine, basis, theirs, Planned(mine, base, theirs).content)
  {
    UnnamedUpdateLosesNothing(mine, base, theirs);
    var after := Planned(mine, base, theirs).content;
    forall i, c | 0 <= i < |mine.rows| && Work(mine, basis, i, c)
      ensures Kept(mine, theirs, after, i, c)
    {
      assert (i, c) in FilledCells(mine);
      assert (i, c) in FilledCells(after);
    }
  }

  lemma ExamplesAreNoWork(mine: Content, basis: Content)
    requires WellShaped(mine) && WellShaped(basis) && OnlyExamples(mine, basis)
    ensures forall i, c :: 0 <= i < |mine.rows| ==> !Work(mine, basis, i, c)
  {
    forall i, c | 0 <= i < |mine.rows| && c in mine.columns && Filled(CellAt(mine, i, c))
      ensures FromTemplate(mine, basis, i, c)
    {
      assert (i, c) in FilledCells(mine);
    }
  }

  /** An update that names no edit, of a copy based on the template version basis. Where rows were
      edited since the last update, a person's work is kept exactly if the template has no reference
      columns, or all of it can be found in the template's rows. Where they were not, nothing of the
      copy is looked at: the template's rows are taken, which loses no work if the last update left none. */
  lemma UnnamedUpdateKeepsExactly(mine: Content, base: Content, basis: Content, theirs: Content)
    requires WellShaped(mine) && WellShaped(base) && WellShaped(basis) && WellShaped(theirs)
    requires !Planned(mine, base, theirs).ReplacesAnEdit()
    ensures var after := Planned(mine, base, theirs).content;
            && WellShaped(after)
            && (mine.rows != base.rows ==> (WorkKept(mine, basis, theirs, after) <==> EditsCarry(mine, basis, theirs)))
            && (mine.rows == base.rows ==> after == theirs)
            && (mine.rows == base.rows && OnlyExamples(base, basis) ==> WorkKept(mine, basis, theirs, after))
  {
    PlanIsWellShaped(mine, base, theirs);
    var after := Planned(mine, base, theirs).content;
    if mine.rows == base.rows {
      assert after == theirs && mine.columns == Definition(mine).columns == base.columns;
      if OnlyExamples(base, basis) {
        assert OnlyExamples(mine, basis);
        ExamplesAreNoWork(mine, basis);
      }
    } else if theirs.refs == [] {
      EditedByNameKeeps(mine, base, basis, theirs);
    } else {
      EditedByKeyKeepsExactly(mine, basis, theirs, after);
    }
  }

  // ---------------------------------------------------------------- every update there could be

  ghost predicate KeptBy(mine: Content, base: Content, basis: Content, theirs: Content)
    requires WellShaped(mine) && WellShaped(basis) && WellShaped(theirs)
  {
    PlanIsWellShaped(mine, base, theirs);
    WorkKept(mine, basis, theirs, Planned(mine, base, theirs).content)
  }

  /** Every later version in whose rows the work can be found keeps it, if taken with no edit named. */
  ghost predicate KeptByAll(mine: Content, base: Content, basis: Content)
    requires WellShaped(mine) && WellShaped(basis)
  {
    forall theirs :: WellShaped(theirs) && EditsCarry(mine, basis, theirs)
        ==> Planned(mine, base, theirs).ReplacesAnEdit() || KeptBy(mine, base, basis, theirs)
  }

  /** What a person entered is safe from every later version in whose rows it can be found, with or
      without reference columns, exactly when the copy was edited since the last update, or that update
      left none of a person's work in it. */
  lemma KeptByEveryUpdateExactly(mine: Content, base: Content, basis: Content)
    requires WellShaped(mine) && WellShaped(base) && WellShaped(basis)
    ensures KeptByAll(mine, base, basis) <==> mine != base || OnlyExamples(base, basis)
  {
    if mine != base || OnlyExamples(base, basis) {
      forall theirs | WellShaped(theirs) && EditsCarry(mine, basis, theirs)
        ensures Planned(mine, base, theirs).ReplacesAnEdit() || KeptBy(mine, base, basis, theirs)
      {
        if !Planned(mine, base, theirs).ReplacesAnEdit() {
          assert mine.rows == base.rows ==> mine == base;
          UnnamedUpdateKeepsExactly(mine, base, basis, theirs);
        }
      }
    } else {
      var i, c :| (i, c) in FilledCells(base) && !FromTemplate(base, basis, i, c);
      var theirs := basis.(refs := []);
      assert WellShaped(theirs) && EditsCarry(mine, basis, theirs);
      assert Work(mine, basis, i, c) && !Kept(mine, theirs, Planned(mine, base, theirs).content, i, c);
      assert !KeptBy(mine, base, basis, theirs);
    }
  }

  /** So for any copy, after any edits and updates. */
  lemma KeptOverRunsExactly(template: seq<Content>, first: nat, controls: set<ControlId>, steps: seq<CopyStep>)
    requires Template(template) && first < |template|
    ensures var d := CopyRun(Adopting(ListDef(false, [], map[]), Snap(first, template[first], controls),
          template[first]), template, steps);
            && CarriesTemplate(d, template)
            && var mine, base, basis := d.Current().value.content, LastAdopted(d.versions).content,
                template[BasedOn(d)];
               KeptByAll(mine, base, basis) <==> mine != base || OnlyExamples(base, basis)
  {
    ReferenceTextOverRuns(template, first, controls, steps);
    var d := CopyRun(Adopting(ListDef(false, [], map[]), Snap(first, template[first], controls), template[first]),
                     template, steps);
    KeptByEveryUpdateExactly(d.Current().value.content, LastAdopted(d.versions).content, template[BasedOn(d)]);
  }

  // ---------------------------------------------------------------- updates that lose it

  /** A copy whose rows are its own, carried over by one update: the next takes the template's rows. */
  lemma OwnRowsLost()
    ensures var carried := Content("T", "", "", "", ["host"], [], [["fw-1"]]);
            var theirs := carried.(rows := [["[HOST]"]]);
            WellShaped(carried) && WellShaped(theirs)
            && !Planned(carried, carried, theirs).ReplacesAnEdit()
                && !Kept(carried, theirs, Planned(carried, carried, theirs).content, 0, "host")
  {
    var carried := Content("T", "", "", "", ["host"], [], [["fw-1"]]);
    var theirs := carried.(rows := [["[HOST]"]]);
    assert IndexOf(carried.columns, "host") == Some(0);
    assert CellAt(carried, 0, "host") == "fw-1" && "fw-1"[0] == 'f';
    assert (0, "host") in FilledCells(carried);
    assert CellAt(theirs, 0, "host") == "[HOST]" && "[HOST]"[0] == '[';
  }

  /** The same with reference columns: the second update in a row takes the copy's own cell. */
  lemma OwnCellsLostByKey()
    ensures var carried := Content("T", "", "", "", ["id", "value"], ["id"], [["1", "mine"]]);
            var theirs := carried.(rows := [["1", ""]]);
            && WellShaped(carried) && WellShaped(theirs) && KeysOnce(carried, "id")
            && !Planned(carried, carried, theirs).ReplacesAnEdit()
            && !AllSurvive(carried, theirs, Planned(carried, carried, theirs).content)
  {
    var carried := Content("T", "", "", "", ["id", "value"], ["id"], [["1", "mine"]]);
    var theirs := carried.(rows := [["1", ""]]);
    IndexIs(carried.columns, 1);
    assert carried.columns[1] == "value" && carried.rows[0][1][0] == 'm';
    assert OwnFilled(carried, theirs, 0, "value");
    assert CellAt(theirs, 0, "value") == "";
    assert !Survives(carried, theirs, KeyColumn(theirs), 0, "value");
  }

  /** With reference columns it may lose one: the template drops a column of the copy's own, the
      row's key stays, and the filled cell goes without being counted or any edit being named. */
  lemma ReferenceUpdateLosesACell()
    ensures var base := Content("T", "", "", "", ["id", "note"], ["id"], [["1", ""]]);
            var mine := base.(rows := [["1", "kept by hand"]]);
            var theirs := base.(columns := ["id"], rows := [["1"]]);
            && WellShaped(mine) && WellShaped(base) && WellShaped(theirs) && KeysOnce(mine, "id")
            && !Planned(mine, base, theirs).ReplacesAnEdit()
            && !AllSurvive(mine, theirs, Planned(mine, base, theirs).content)
  {
    var base := Content("T", "", "", "", ["id", "note"], ["id"], [["1", ""]]);
    var mine := base.(rows := [["1", "kept by hand"]]);
    var theirs := base.(columns := ["id"], rows := [["1"]]);
    IndexIs(mine.columns, 0);
    IndexIs(mine.columns, 1);
    assert mine.rows[0][1][0] == 'k';
    assert CellAt(theirs, 0, "id") == "1";
    NoKeyNothingDropped(mine, theirs);
    assert OwnFilled(mine, theirs, 0, "note") && "note" !in theirs.columns;
  }

  /** A column the template makes a reference column is taken over: the person's cell goes, without
      being counted or any edit being named. */
  lemma NewReferenceColumnTakesACell()
    ensures var base := Content("T", "", "", "", ["id", "note"], ["id"], [["1", ""]]);
            var mine := base.(rows := [["1", "kept by hand"]]);
            var theirs := base.(refs := ["id", "note"]);
            && WellShaped(mine) && WellShaped(base) && WellShaped(theirs) && KeysOnce(mine, "id")
            && !Planned(mine, base, theirs).ReplacesAnEdit() && Work(mine, base, 0, "note")
            && WellShaped(Planned(mine, base, theirs).content)
            && !Kept(mine, theirs, Planned(mine, base, theirs).content, 0, "note")
  {
    var base := Content("T", "", "", "", ["id", "note"], ["id"], [["1", ""]]);
    var mine := base.(rows := [["1", "kept by hand"]]);
    var theirs := base.(refs := ["id", "note"]);
    TwoColumns(mine, "id", "note");
    TwoColumns(theirs, "id", "note");
    assert mine.rows[0][1][0] == 'k';
    assert CellAt(theirs, 0, "id") == "1";
    NoKeyNothingDropped(mine, theirs);
    LossIsExact(mine, base, base, theirs, 0, "note");
  }

  /** Of two rows with one key, the earlier goes the same way. */
  lemma SharedKeyLosesACell()
    ensures var base := Content("T", "", "", "", ["id", "note"], [], [["", ""], ["", ""]]);
            var mine := base.(rows := [["1", "first"], ["1", "second"]]);
            var theirs := base.(refs := ["id"], rows := [["1", ""]]);
            && WellShaped(mine) && WellShaped(base) && WellShaped(theirs)
            && !Planned(mine, base, theirs).ReplacesAnEdit() && Work(mine, base, 0, "note")
            && WellShaped(Planned(mine, base, theirs).content)
            && !Kept(mine, theirs, Planned(mine, base, theirs).content, 0, "note")
  {
    var base := Content("T", "", "", "", ["id", "note"], [], [["", ""], ["", ""]]);
    var mine := base.(rows := [["1", "first"], ["1", "second"]]);
    var theirs := base.(refs := ["id"], rows := [["1", ""]]);
    TwoColumns(mine, "id", "note");
    TwoColumns(theirs, "id", "note");
    assert mine.rows[0][1][0] == 'f' && mine.rows[1][1][0] == 's';
    assert CellAt(theirs, 0, "id") == "1";
    NoKeyNothingDropped(mine, theirs);
    LaterIsFound(mine, "id", 0, 1);
    LossIsExact(mine, base, base, theirs, 0, "note");
  }

  /** Work in edited rows that cannot be found in the template's rows is lost. */
  lemma LossIsExact(mine: Content, base: Content, basis: Content, theirs: Content, i: nat, c: string)
    requires WellShaped(mine) && WellShaped(base) && WellShaped(basis) && WellShaped(theirs) && theirs.refs != []
    requires mine.rows != base.rows && i < |mine.rows| && Work(mine, basis, i, c) && !Carries(mine, theirs, i, c)
    ensures WellShaped(Planned(mine, base, theirs).content)
    ensures !Kept(mine, theirs, Planned(mine, base, theirs).content, i, c)
  {
    PlanIsWellShaped(mine, base, theirs);
    var after := Planned(mine, base, theirs).content;
    if Kept(mine, theirs, after, i, c) {
      SurvivorCarries(mine, theirs, after, i, c);
    }
  }

  lemma TwoColumns(content: Content, a: string, b: string)
    requires content.columns == [a, b] && a != b && WellShaped(content)
    ensures forall i: nat :: i < |content.rows|
              ==> CellAt(content, i, a) == content.rows[i][0] && CellAt(content, i, b) == content.rows[i][1]
  {
    IndexIs(content.columns, 0);
    IndexIs(content.columns, 1);
  }

  lemma LaterIsFound(mine: Content, key: string, i: nat, j: nat)
    requires WellShaped(mine) && key in mine.columns && i < j == |mine.rows| - 1
    requires CellAt(mine, i, key) == CellAt(mine, j, key)
    ensures CellAt(mine, i, key) in RowsByKey(mine, key) && RowsByKey(mine, key)[CellAt(mine, i, key)] == j
  {
    assert KeysIn(mine, key)[j] == CellAt(mine, j, key);
  }

  lemma NoKeyNothingDropped(mine: Content, theirs: Content)
    requires WellShaped(mine) && WellShaped(theirs) && theirs.refs != [] && KeyColumn(theirs) in mine.columns
    requires forall i :: 0 <= i < |mine.rows| ==> CellAt(mine, i, KeyColumn(theirs)) in Keys(theirs)
    ensures DroppedByKey(mine, theirs) == {}
  {
    var keys := KeysIn(mine, KeyColumn(theirs));
    assert forall k :: k in LastAt(keys) ==> keys[LastAt(keys)[k]] == k;
  }

  /** The rows are only kept if they were edited since the last update. One update directly after
      another takes the template's rows, counts nothing as dropped and asks for no edit to be named,
      whatever rows of the organisation's own the first had carried over. */
  lemma SecondUpdateReplacesTheRows(d: ListDef, first: Snap, carried: Content, second: Snap)
    requires IsCopy(d) && WellShaped(carried) && WellShaped(second.content)
    ensures var after := Adopting(d, first, carried);
            IsCopy(after) && PlanFor(after, second.content) == Plan(second.content, 0, false)
  {
    var v := Version(MaxNumber(d.versions) + 1, carried, Adopted(first.number));
    AdoptedLast(d.versions, v);
    assert v in d.versions + [v];
  }
}
