/** Importing a library of lists: what an import proposes, and what applying it does. */
module ListImport {
  import opened Common
  import opened Rules
  import opened EvidenceLinks
  import opened Lists
  import opened ListEvidence

  /** One list the source defines. An import's content never has reference columns. */
  datatype Sheet = Sheet(key: ListId, content: Content, controls: set<ControlId>)

  datatype Action = Create | NewVersion | Unchanged | Conflict

  /** A person's edit, named exactly: the list and the version. */
  datatype EditRef = EditRef(key: ListId, number: nat)

  datatype ImportError = NotAConflict | EvidenceRests

  ghost predicate DistinctKeys(plan: seq<Sheet>) {
    forall i, j :: 0 <= i < j < |plan| ==> plan[i].key != plan[j].key
  }

  // ---------------------------------------------------------------- tags

  /** An import, or a copy taking its template, manages only the tags it put there. */
  function TagsToAdd(d: ListDef, controls: set<ControlId>): set<ControlId> {
    controls - d.tags.Keys
  }

  function TagsToRemove(d: ListDef, controls: set<ControlId>, via: Via): set<ControlId> {
    set c | c in d.tags && d.tags[c] == via && c !in controls
  }

  function Retagged(d: ListDef, controls: set<ControlId>, via: Via): ListDef {
    d.(tags := map c | c in d.tags.Keys + controls && c !in TagsToRemove(d, controls, via) :: if c in d.tags
        then d.tags[c] else via)
  }

  /** Re-tagging keeps every tag somebody else put there, and leaves nothing further to do. */
  lemma RetaggedIsSettled(d: ListDef, controls: set<ControlId>, via: Via)
    ensures var after := Retagged(d, controls, via);
            && (forall c :: c in d.tags && d.tags[c] != via ==> c in after.tags && after.tags[c] == d.tags[c])
            && TagsToAdd(after, controls) == {} && TagsToRemove(after, controls, via) == {}
            && controls <= after.tags.Keys
  {
  }

  // ---------------------------------------------------------------- what an import proposes

  predicate ContentChanged(d: ListDef, sheet: Sheet) {
    d.Current().None? || d.Current().value.content != sheet.content
  }

  predicate TagsChanged(d: ListDef, sheet: Sheet) {
    TagsToAdd(d, sheet.controls) != {} || TagsToRemove(d, sheet.controls, ByImport) != {}
  }

  /** A list whose current version a person wrote is never written over unasked. */
  function Proposed(lists: map<ListId, ListDef>, sheet: Sheet): Action {
    if sheet.key !in lists then Create
    else
      var d := lists[sheet.key];
      if ContentChanged(d, sheet) && d.Current().Some? && !d.Current().value.provenance.Imported? then Conflict
      else if ContentChanged(d, sheet) || TagsChanged(d, sheet) then NewVersion
      else Unchanged
  }

  function RefFor(lists: map<ListId, ListDef>, key: ListId): EditRef {
    EditRef(key, if key in lists && lists[key].Current().Some? then lists[key].Current().value.number else 0)
  }

  /** The edits that would be replaced. */
  function Conflicts(lists: map<ListId, ListDef>, plan: seq<Sheet>): set<EditRef> {
    set s | s in plan && Proposed(lists, s).Conflict? :: RefFor(lists, s.key)
  }

  /** A conflict named by its exact edit is written like any new version. */
  function Resolved(lists: map<ListId, ListDef>, sheet: Sheet, overwrite: set<EditRef>): Action {
    var a := Proposed(lists, sheet);
    if a.Conflict? && RefFor(lists, sheet.key) in overwrite then NewVersion else a
  }

  /** The new version would take away a tag that live evidence rests on. */
  predicate Blocked(s: Store, sheet: Sheet, overwrite: set<EditRef>) {
    Resolved(s.lists, sheet, overwrite).NewVersion? && sheet.key in s.lists
    && exists c :: c in TagsToRemove(s.lists[sheet.key], sheet.controls, ByImport)
        && RestingLinks(s, sheet.key, c) != {}
  }

  // ---------------------------------------------------------------- applying it

  function Written(d: ListDef, sheet: Sheet): ListDef {
    Retagged(if ContentChanged(d, sheet) then WithVersion(d, sheet.content, Imported) else d, sheet.controls, ByImport)
  }

  /** What one list becomes, given the sheet that names it. */
  function Outcome(lists: map<ListId, ListDef>, sheet: Sheet, overwrite: set<EditRef>): ListDef {
    if sheet.key !in lists then Written(ListDef(true, [], map[]), sheet)
    else if Resolved(lists, sheet, overwrite).NewVersion? then Written(lists[sheet.key], sheet)
    else lists[sheet.key]
  }

  function AppliedTo(lists: map<ListId, ListDef>, plan: seq<Sheet>, overwrite: set<EditRef>): map<ListId, ListDef> {
    if plan == [] then lists
    else
      var last := plan[|plan| - 1];
      AppliedTo(lists, plan[..|plan| - 1], overwrite)[last.key := Outcome(lists, last, overwrite)]
  }

  /** The whole apply. A refusal, for a name that is no conflict or for a tag that evidence rests
      on, comes before anything is written. */
  function Applied(s: Store, plan: seq<Sheet>, overwrite: set<EditRef>): Result<Store, ImportError> {
    if !(overwrite <= Conflicts(s.lists, plan)) then Err(NotAConflict)
    else if exists sheet :: sheet in plan && Blocked(s, sheet, overwrite) then Err(EvidenceRests)
    else Ok(s.(lists := AppliedTo(s.lists, plan, overwrite)))
  }

  // ---------------------------------------------------------------- list by list

  ghost predicate Names(plan: seq<Sheet>, l: ListId) {
    exists sheet :: sheet in plan && sheet.key == l
  }

  lemma {:induction false} ApplyDoesEach(lists: map<ListId, ListDef>, plan: seq<Sheet>, overwrite: set<EditRef>)
    requires DistinctKeys(plan)
    ensures var after := AppliedTo(lists, plan, overwrite);
            && (forall sheet ::
                sheet in plan ==> sheet.key in after && after[sheet.key] == Outcome(lists, sheet, overwrite))
            && (forall l :: l in lists ==> l in after)
            && (forall l :: l in after && !Names(plan, l) ==> l in lists && after[l] == lists[l])
  {
    if plan != [] {
      var init, last := plan[..|plan| - 1], plan[|plan| - 1];
      ApplyDoesEach(lists, init, overwrite);
      NamesOneMore(plan);
      assert forall sheet :: sheet in plan <==> sheet in init || sheet == last;
    }
  }

  lemma NamesOneMore(plan: seq<Sheet>)
    requires DistinctKeys(plan) && plan != []
    ensures !Names(plan[..|plan| - 1], plan[|plan| - 1].key)
    ensures forall l :: Names(plan, l) <==> Names(plan[..|plan| - 1], l) || plan[|plan| - 1].key == l
  {
    var init, last := plan[..|plan| - 1], plan[|plan| - 1];
    assert forall sheet :: sheet in plan <==> sheet in init || sheet == last;
    forall sheet | sheet in init
      ensures sheet.key != last.key
    {
      var i :| 0 <= i < |init| && init[i] == sheet;
      assert plan[i] == sheet;
    }
  }

  /** Writing a sheet settles it: the same source proposes nothing for that list again. */
  lemma WrittenIsSettled(d: ListDef, sheet: Sheet)
    ensures var after := Written(d, sheet);
            !ContentChanged(after, sheet) && !TagsChanged(after, sheet)
  {
    RetaggedIsSettled(if ContentChanged(d, sheet) then WithVersion(d, sheet.content, Imported) else d, sheet.controls,
                      ByImport);
  }

  /** Applying a plan and reading it again proposes no list and no version: only the edits left
      alone the first time are still there to be named. */
  lemma ImportIsIdempotent(s: Store, plan: seq<Sheet>, overwrite: set<EditRef>, sheet: Sheet)
    requires DistinctKeys(plan) && HasContent(s.lists) && sheet in plan && Applied(s, plan, overwrite).Ok?
    ensures var after := Applied(s, plan, overwrite).value;
            var again := Proposed(after.lists, sheet);
            if Resolved(s.lists, sheet, overwrite).Conflict? then again.Conflict? else again.Unchanged?
  {
    ApplyDoesEach(s.lists, plan, overwrite);
    WrittenIsSettled(if sheet.key in s.lists then s.lists[sheet.key] else ListDef(true, [], map[]), sheet);
  }

  /** An import respects people: a list whose edit is not named, or that the plan does not name, is
      left exactly as it was; of the rest, versions are only added, numbered on, and the tags
      somebody else put there stay. Links and artifacts are not touched. */
  lemma ImportRespectsPeople(s: Store, plan: seq<Sheet>, overwrite: set<EditRef>, l: ListId)
    requires DistinctKeys(plan) && Applied(s, plan, overwrite).Ok? && l in s.lists && s.lists[l].Numbered()
    ensures var after := Applied(s, plan, overwrite).value;
            && after.links == s.links && after.sources == s.sources && l in after.lists
            && s.lists[l].versions <= after.lists[l].versions && after.lists[l].Numbered()
            && |after.lists[l].versions| <= |s.lists[l].versions| + 1
            && after.lists[l].isTemplate == s.lists[l].isTemplate
            && (forall c :: c in s.lists[l].tags && s.lists[l].tags[c] != ByImport
                  ==> c in after.lists[l].tags && after.lists[l].tags[c] == s.lists[l].tags[c])
            && ((forall sheet :: sheet in plan && sheet.key == l ==> Resolved(s.lists, sheet, overwrite).Conflict?)
                  ==> after.lists[l] == s.lists[l])
  {
    ApplyDoesEach(s.lists, plan, overwrite);
    if exists sheet :: sheet in plan && sheet.key == l {
      var sheet :| sheet in plan && sheet.key == l;
      var d := s.lists[l];
      VersionsStayNumbered(d, sheet.content, Imported);
      RetaggedIsSettled(if ContentChanged(d, sheet) then WithVersion(d, sheet.content, Imported) else d,
                        sheet.controls, ByImport);
    }
  }

  // ---------------------------------------------------------------- confinement survives an import

  lemma {:induction false} AppliedKeeps(s: Store, plan: seq<Sheet>, overwrite: set<EditRef>, n: nat)
    requires Inv(s) && DistinctKeys(plan) && n <= |plan|
    requires forall sheet :: sheet in plan ==> !Blocked(s, sheet, overwrite)
    ensures Inv(s.(lists := AppliedTo(s.lists, plan[..n], overwrite)))
  {
    if n == 0 {
      assert AppliedTo(s.lists, plan[..0], overwrite) == s.lists;
    } else {
      AppliedKeeps(s, plan, overwrite, n - 1);
      NextSheetKeeps(s, plan, overwrite, n - 1);
    }
  }

  lemma NextSheetKeeps(s: Store, plan: seq<Sheet>, overwrite: set<EditRef>, n: nat)
    requires DistinctKeys(plan) && n < |plan| && !Blocked(s, plan[n], overwrite)
    requires Inv(s.(lists := AppliedTo(s.lists, plan[..n], overwrite)))
    ensures Inv(s.(lists := AppliedTo(s.lists, plan[..n + 1], overwrite)))
  {
    AppliedOneMore(s.lists, plan, overwrite, n);
    OneSheetKeeps(s, s.(lists := AppliedTo(s.lists, plan[..n], overwrite)), plan[..n], plan[n], overwrite);
  }

  lemma AppliedOneMore(lists: map<ListId, ListDef>, plan: seq<Sheet>, overwrite: set<EditRef>, n: nat)
    requires n < |plan|
    ensures AppliedTo(lists, plan[..n + 1], overwrite)
         == AppliedTo(lists, plan[..n], overwrite)[plan[n].key := Outcome(lists, plan[n], overwrite)]
  {
    assert plan[..n + 1][..n] == plan[..n];
  }

  lemma OneSheetKeeps(s: Store, sofar: Store, init: seq<Sheet>, sheet: Sheet, overwrite: set<EditRef>)
    requires Inv(sofar) && DistinctKeys(init) && sofar == s.(lists := AppliedTo(s.lists, init, overwrite))
    requires forall other :: other in init ==> other.key != sheet.key
    requires !Blocked(s, sheet, overwrite)
    ensures Inv(sofar.(lists := sofar.lists[sheet.key := Outcome(s.lists, sheet, overwrite)]))
  {
    ApplyDoesEach(s.lists, init, overwrite);
    assert sheet.key in sofar.lists <==> sheet.key in s.lists;
    assert forall c :: RestingLinks(sofar, sheet.key, c) == RestingLinks(s, sheet.key, c);
    OutcomeOnlyAdds(s, sheet, overwrite);
    ListChangeKeeps(sofar, sheet.key, Outcome(s.lists, sheet, overwrite));
  }

  /** A list is only given a further version, and no tag that evidence rests on is taken from it. */
  lemma OutcomeOnlyAdds(s: Store, sheet: Sheet, overwrite: set<EditRef>)
    requires sheet.key in s.lists ==> s.lists[sheet.key].Numbered()
    requires !Blocked(s, sheet, overwrite)
    ensures var d := Outcome(s.lists, sheet, overwrite);
            && d.Numbered() && (sheet.key !in s.lists ==> d.versions != [])
            && (sheet.key in s.lists ==>
                  && d.isTemplate == s.lists[sheet.key].isTemplate && s.lists[sheet.key].versions <= d.versions
                  && forall c :: c in s.lists[sheet.key].tags && c !in d.tags ==> RestingLinks(s, sheet.key, c) == {})
  {
    VersionsStayNumbered(if sheet.key in s.lists then s.lists[sheet.key] else ListDef(true, [], map[]), sheet.content,
                         Imported);
  }

  /** An import that is not refused keeps every live list link on a practice its list is tagged
      with, at a populated version. */
  lemma ImportKeepsConfinement(s: Store, plan: seq<Sheet>, overwrite: set<EditRef>)
    requires Inv(s) && DistinctKeys(plan) && Applied(s, plan, overwrite).Ok?
    ensures Inv(Applied(s, plan, overwrite).value)
  {
    AppliedKeeps(s, plan, overwrite, |plan|);
    assert plan[..|plan|] == plan;
  }

  // ---------------------------------------------------------------- the apply as it runs

  method AddTags(store: ListStore, l: ListId, adding: set<ControlId>, via: Via)
    requires l in store.lists
    modifies store`lists
    ensures store.lists
         == old(store.lists)[l := old(store.lists)[l].(tags := Tagged(old(store.lists)[l].tags, adding, via))]
  {
    var before, todo := store.lists[l], adding;
    assert Tagged(before.tags, adding - todo, via) == before.tags;
    while todo != {}
      invariant todo <= adding
      invariant store.lists == old(store.lists)[l := before.(tags := Tagged(before.tags, adding - todo, via))]
      decreases todo
    {
      var c :| c in todo;
      TaggedOneMore(before.tags, adding - todo, via, c);
      assert adding - (todo - {c}) == adding - todo + {c};
      store.AddTag(l, c, via);
      todo := todo - {c};
    }
    assert adding - {} == adding;
  }

  lemma TaggedOneMore(tags: map<ControlId, Via>, some: set<ControlId>, via: Via, c: ControlId)
    ensures Tagged(tags, some + {c}, via) == if c in Tagged(tags, some, via) then Tagged(tags, some, via)
          else Tagged(tags, some, via)[c := via]
  {
  }

  /** No removal is refused, since no evidence rests on any of them. */
  method RemoveTags(store: ListStore, l: ListId, removing: set<ControlId>)
    requires l in store.lists
    requires forall c :: c in removing ==> RestingLinks(store.View(), l, c) == {}
    modifies store`lists
    ensures store.lists == old(store.lists)[l := old(store.lists)[l].(tags := old(store.lists)[l].tags - removing)]
  {
    var before, todo := store.lists[l], removing;
    assert before.tags - (removing - todo) == before.tags;
    while todo != {}
      invariant todo <= removing
      invariant store.lists == old(store.lists)[l := before.(tags := before.tags - (removing - todo))]
      decreases todo
    {
      var c :| c in todo;
      assert RestingLinks(store.View(), l, c) == RestingLinks(old(store.View()), l, c);
      var refused := store.RemoveTag(l, c);
      assert before.tags - (removing - todo) - {c} == before.tags - (removing - (todo - {c}));
      todo := todo - {c};
    }
    assert removing - {} == removing;
  }

  /** Adds and removes a list's tags one by one. */
  method Retag(store: ListStore, l: ListId, controls: set<ControlId>, via: Via)
    requires l in store.lists
    requires forall c :: c in TagsToRemove(store.lists[l], controls, via) ==> RestingLinks(store.View(), l, c) == {}
    modifies store`lists
    ensures store.lists == old(store.lists)[l := Retagged(old(store.lists)[l], controls, via)]
  {
    ghost var before := store.lists[l];
    var adding, removing := TagsToAdd(store.lists[l], controls), TagsToRemove(store.lists[l], controls, via);
    AddTags(store, l, adding, via);
    assert forall c :: RestingLinks(store.View(), l, c) == RestingLinks(old(store.View()), l, c);
    RemoveTags(store, l, removing);
    assert Tagged(before.tags, adding, via) - removing == Retagged(before, controls, via).tags;
  }

  ghost function Tagged(tags: map<ControlId, Via>, more: set<ControlId>, via: Via): map<ControlId, Via> {
    map c | c in tags.Keys + more :: if c in tags then tags[c] else via
  }

  /** No evidence rests on a tag the sheet takes away. */
  ghost predicate NothingRests(s: Store, sheet: Sheet)
    requires sheet.key in s.lists
  {
    forall c :: c in TagsToRemove(s.lists[sheet.key], sheet.controls, ByImport) ==> RestingLinks(s, sheet.key, c) == {}
  }

  method WriteSheet(store: ListStore, sheet: Sheet, action: Action, changed: bool)
    requires action == Create || action == NewVersion
    requires if action == Create then sheet.key !in store.lists && changed
             else sheet.key in store.lists && changed == ContentChanged(store.lists[sheet.key], sheet)
    requires sheet.key in store.lists ==> NothingRests(store.View(), sheet)
    modifies store`lists
    ensures store.lists == old(store.lists)[sheet.key := Written(
              if sheet.key in old(store.lists) then old(store.lists)[sheet.key] else ListDef(true, [], map[]), sheet)]
  {
    if action == Create {
      store.lists := store.lists[sheet.key := ListDef(true, [], map[])];
    }
    if changed {
      var _ := store.CreateVersion(sheet.key, sheet.content, Imported);
    }
    assert TagsToRemove(store.lists[sheet.key], sheet.controls, ByImport)
        == TagsToRemove(if sheet.key in old(store.lists) then old(store.lists)[sheet.key]
            else ListDef(true, [], map[]), sheet.controls, ByImport);
    assert forall c :: RestingLinks(store.View(), sheet.key, c) == RestingLinks(old(store.View()), sheet.key, c);
    Retag(store, sheet.key, sheet.controls, ByImport);
  }

  method ApplyImport(store: ListStore, plan: seq<Sheet>, overwrite: set<EditRef>) returns (error: Option<ImportError>)
    requires DistinctKeys(plan)
    modifies store`lists
    ensures error.None? ==> Applied(old(store.View()), plan, overwrite) == Ok(store.View())
    ensures error.Some?
          ==> Applied(old(store.View()), plan, overwrite) == Err(error.value) && store.View() == old(store.View())
  {
    var begin := store.View();
    if !(overwrite <= Conflicts(begin.lists, plan)) {
      return Some(NotAConflict);
    }
    if exists sheet :: sheet in plan && Blocked(begin, sheet, overwrite) {
      return Some(EvidenceRests);
    }
    for i := 0 to |plan|
      invariant store.View() == begin.(lists := AppliedTo(begin.lists, plan[..i], overwrite))
    {
      var sheet := plan[i];
      assert plan[..i + 1][..i] == plan[..i] && sheet in plan;
      UntouchedSoFar(begin.lists, plan, overwrite, i);
      var action := Resolved(begin.lists, sheet, overwrite);
      if action == Create || action == NewVersion {
        var changed := action == Create || ContentChanged(store.lists[sheet.key], sheet);
        assert forall c :: RestingLinks(store.View(), sheet.key, c) == RestingLinks(begin, sheet.key, c);
        WriteSheet(store, sheet, action, changed);
      }
    }
    assert plan[..|plan|] == plan;
    error := None;
  }

  /** Until its own sheet comes, a list is as it was. */
  lemma UntouchedSoFar(lists: map<ListId, ListDef>, plan: seq<Sheet>, overwrite: set<EditRef>, i: nat)
    requires DistinctKeys(plan) && i < |plan|
    ensures var sofar := AppliedTo(lists, plan[..i], overwrite);
            && (plan[i].key in sofar <==> plan[i].key in lists)
            && (plan[i].key in lists ==> sofar[plan[i].key] == lists[plan[i].key])
  {
    assert forall sheet :: sheet in plan[..i] ==> sheet.key != plan[i].key;
    ApplyDoesEach(lists, plan[..i], overwrite);
  }
}
