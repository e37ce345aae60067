/** Every way lists and their links change, run together from an empty store. */
module ListRuns {
  import opened Common
  import opened Rules
  import opened EvidenceLinks
  import opened Lists
  import opened ListEvidence
  import opened ListImport
  import opened ListAdoption

  /** A step of the evidence store, an import, the copying of a template, or a copy taking a newer
      version of it. A step that is refused changes nothing. */
  datatype AnyStep =
    | Evidence(step: Step)
    | Import(plan: seq<Sheet>, overwrite: set<EditRef>)
    | Copy(l: ListId, snap: Snap)
    | Take(l: ListId, snap: Snap, edit: Option<EditRef>)

  ghost predicate MayTake(s: Store, l: ListId, snap: Snap) {
    l in s.lists && IsCopy(s.lists[l]) && WellShaped(snap.content)
  }

  ghost function After(s: Store, step: AnyStep): Store {
    match step
    case Evidence(step) => Next(s, step)
    case Import(plan, overwrite) =>
      if DistinctKeys(plan) && Applied(s, plan, overwrite).Ok? then Applied(s, plan, overwrite).value else s
    case Copy(l, snap) =>
      if Copied(s.lists, l, snap).Ok? then s.(lists := Copied(s.lists, l, snap).value) else s
    case Take(l, snap, edit) =>
      if MayTake(s, l, snap) && Updated(s, l, snap, edit).Ok? then Updated(s, l, snap, edit).value else s
  }

  ghost function Run(s: Store, steps: seq<AnyStep>): Store {
    if steps == [] then s else After(Run(s, steps[..|steps| - 1]), steps[|steps| - 1])
  }

  const EMPTY := Store(map[], map[], map[])

  // ---------------------------------------------------------------- every step keeps the invariant

  lemma CopyKeeps(s: Store, l: ListId, snap: Snap)
    requires Inv(s) && Copied(s.lists, l, snap).Ok?
    ensures Inv(s.(lists := Copied(s.lists, l, snap).value))
  {
    VersionsStayNumbered(ListDef(false, [], map[]), snap.content, Adopted(snap.number));
    ListChangeKeeps(s, l, Adopting(ListDef(false, [], map[]), snap, snap.content));
  }

  lemma AfterKeeps(s: Store, step: AnyStep)
    requires Inv(s)
    ensures Inv(After(s, step))
  {
    if After(s, step) != s {
      match step
      case Evidence(step) => NextKeeps(s, step);
      case Import(plan, overwrite) => ImportKeepsConfinement(s, plan, overwrite);
      case Copy(l, snap) => CopyKeeps(s, l, snap);
      case Take(l, snap, edit) => UpdateKeepsConfinement(s, l, snap, edit);
    }
  }

  lemma {:induction false} RunKeeps(s: Store, steps: seq<AnyStep>)
    requires Inv(s)
    ensures Inv(Run(s, steps))
  {
    if steps != [] {
      RunKeeps(s, steps[..|steps| - 1]);
      AfterKeeps(Run(s, steps[..|steps| - 1]), steps[|steps| - 1]);
    }
  }

  lemma EmptyHolds()
    ensures Inv(EMPTY)
  {
  }

  /** Tag confinement. Whatever is linked, moved forward, unlinked, detached, tagged, untagged, saved,
      imported, copied or updated, and whatever products leave and return: each live list link sits on
      a practice its list is tagged with, at a populated version; there is one for a list and an
      objective; and none carries a product. */
  lemma ConfinedOverRuns(steps: seq<AnyStep>)
    ensures var s := Run(EMPTY, steps);
            Inv(s) && Confined(s) && OneLivePerList(s) && NoListLinkNamesAProduct(s)
  {
    EmptyHolds();
    RunKeeps(EMPTY, steps);
  }

  /** So wherever a run has come to, an import applied and read again proposes no list and no version: only
      the edits left alone are still there to be named. */
  lemma ReimportProposesNothing(steps: seq<AnyStep>, plan: seq<Sheet>, overwrite: set<EditRef>, sheet: Sheet)
    requires DistinctKeys(plan) && sheet in plan && Applied(Run(EMPTY, steps), plan, overwrite).Ok?
    ensures var again := Proposed(Run(EMPTY, steps + [Import(plan, overwrite)]).lists, sheet);
            if Resolved(Run(EMPTY, steps).lists, sheet, overwrite).Conflict? then again.Conflict? else again.Unchanged?
  {
    assert (steps + [Import(plan, overwrite)])[..|steps|] == steps;
    ConfinedOverRuns(steps);
    ImportIsIdempotent(Run(EMPTY, steps), plan, overwrite, sheet);
  }

  // ---------------------------------------------------------------- versions are forever

  lemma ImportKeepsVersions(s: Store, plan: seq<Sheet>, overwrite: set<EditRef>, l: ListId)
    requires Inv(s) && DistinctKeys(plan) && Applied(s, plan, overwrite).Ok? && l in s.lists
    ensures var after := Applied(s, plan, overwrite).value;
            l in after.lists && s.lists[l].versions <= after.lists[l].versions
  {
    ImportRespectsPeople(s, plan, overwrite, l);
  }

  lemma AfterKeepsVersions(s: Store, step: AnyStep, l: ListId)
    requires Inv(s) && l in s.lists
    ensures l in After(s, step).lists && s.lists[l].versions <= After(s, step).lists[l].versions
  {
    if After(s, step) != s {
      match step
      case Evidence(step) => NextKeepsVersions(s, step, l);
      case Import(plan, overwrite) => ImportKeepsVersions(s, plan, overwrite, l);
      case Copy(_, _) =>
      case Take(copy, snap, edit) => UpdateKeepsConfinement(s, copy, snap, edit);
    }
  }

  /** Once written, a list version is never lost or changed by anything that happens later. */
  lemma {:induction false} VersionsAreForever(steps: seq<AnyStep>, n: nat, l: ListId)
    requires n <= |steps| && l in Run(EMPTY, steps[..n]).lists
    ensures l in Run(EMPTY, steps).lists
    ensures Run(EMPTY, steps[..n]).lists[l].versions <= Run(EMPTY, steps).lists[l].versions
  {
    if n == |steps| {
      assert steps[..n] == steps;
    } else {
      var before := steps[..|steps| - 1];
      assert before[..n] == steps[..n];
      VersionsAreForever(before, n, l);
      ConfinedOverRuns(before);
      AfterKeepsVersions(Run(EMPTY, before), steps[|steps| - 1], l);
    }
  }

  // ---------------------------------------------------------------- only a person ends a list link

  ghost predicate TakesOff(step: AnyStep, s: Store, o: Objective, l: ListId) {
    step.Evidence? && ((step.step.Unlink? && step.step.o == o && step.step.l == l)
                       || (step.step.Detach? && step.step.k in LiveLinks(s, o, l)))
  }

  /** No import, copy or update touches a link, so the last live one of a list on an objective ends
      only when a person unlinks or detaches it. */
  lemma LastLinkEndsByAPerson(s: Store, step: AnyStep, o: Objective, l: ListId)
    requires Inv(s) && LiveLinks(s, o, l) != {} && LiveLinks(After(s, step), o, l) == {}
    ensures TakesOff(step, s, o, l)
  {
    OthersLeaveLinks(s, step, o, l);
    if step.Evidence? {
      OnlyAPersonEndsAListLink(s, step.step, o, l);
    }
  }

  lemma OthersLeaveLinks(s: Store, step: AnyStep, o: Objective, l: ListId)
    ensures !step.Evidence? ==> LiveLinks(After(s, step), o, l) == LiveLinks(s, o, l)
  {
    if !step.Evidence? {
      assert After(s, step).links == s.links && After(s, step).sources == s.sources;
    }
  }

  ghost predicate TakenOffWithin(steps: seq<AnyStep>, n: nat, o: Objective, l: ListId) {
    exists k :: n <= k < |steps| && TakesOff(steps[k], Run(EMPTY, steps[..k]), o, l)
  }

  /** Over any run: what was linked and is no longer was taken off by a person on the way. */
  lemma {:induction false} OnlyAPersonEndsAListLinkOverRuns(steps: seq<AnyStep>, n: nat, o: Objective, l: ListId)
    requires n <= |steps| && LiveLinks(Run(EMPTY, steps[..n]), o, l) != {} && LiveLinks(Run(EMPTY, steps), o, l) == {}
    ensures TakenOffWithin(steps, n, o, l)
  {
    PrefixDiffers(steps, n, o, l);
    var before := steps[..|steps| - 1];
    if LiveLinks(Run(EMPTY, before), o, l) == {} {
      assert before[..n] == steps[..n];
      OnlyAPersonEndsAListLinkOverRuns(before, n, o, l);
      StillWithin(steps, n, o, l);
    } else {
      EndedByLast(steps, n, o, l);
    }
  }

  lemma PrefixDiffers(steps: seq<AnyStep>, n: nat, o: Objective, l: ListId)
    requires n <= |steps| && LiveLinks(Run(EMPTY, steps[..n]), o, l) != LiveLinks(Run(EMPTY, steps), o, l)
    ensures n < |steps|
  {
    assert steps[..|steps|] == steps;
  }

  lemma EndedByLast(steps: seq<AnyStep>, n: nat, o: Objective, l: ListId)
    requires n < |steps| && LiveLinks(Run(EMPTY, steps[..|steps| - 1]), o, l) != {}
    requires LiveLinks(Run(EMPTY, steps), o, l) == {}
    ensures TakenOffWithin(steps, n, o, l)
  {
    ConfinedOverRuns(steps[..|steps| - 1]);
    LastLinkEndsByAPerson(Run(EMPTY, steps[..|steps| - 1]), steps[|steps| - 1], o, l);
    WithinNow(steps, n, o, l);
  }

  lemma WithinNow(steps: seq<AnyStep>, n: nat, o: Objective, l: ListId)
    requires n < |steps| && TakesOff(steps[|steps| - 1], Run(EMPTY, steps[..|steps| - 1]), o, l)
    ensures TakenOffWithin(steps, n, o, l)
  {
  }

  lemma StillWithin(steps: seq<AnyStep>, n: nat, o: Objective, l: ListId)
    requires steps != [] && TakenOffWithin(steps[..|steps| - 1], n, o, l)
    ensures TakenOffWithin(steps, n, o, l)
  {
    var before := steps[..|steps| - 1];
    var k :| n <= k < |before| && TakesOff(before[k], Run(EMPTY, before[..k]), o, l);
    assert before[..k] == steps[..k];
  }

  // ---------------------------------------------------------------- the steps are the operations

  ghost predicate MayImport(s: Store, plan: seq<Sheet>, overwrite: set<EditRef>) {
    DistinctKeys(plan) && Applied(s, plan, overwrite).Ok?
  }

  ghost predicate MayUpdate(s: Store, l: ListId, snap: Snap, edit: Option<EditRef>) {
    l in s.lists && IsCopy(s.lists[l]) && WellShaped(snap.content) && Updated(s, l, snap, edit).Ok?
  }

  /** A step of a run is one of the store's, an import, a copying or an update; refused, it is nothing. */
  lemma StepsAreOperations(s: Store, step: AnyStep)
    ensures match step
            case Evidence(one) => After(s, step) == Next(s, one)
            case Import(plan, overwrite) =>
              After(s, step) == if MayImport(s, plan, overwrite) then Applied(s, plan, overwrite).value else s
            case Copy(l, snap) =>
              After(s, step) == if l in s.lists then s else s.(lists := Copied(s.lists, l, snap).value)
            case Take(l, snap, edit) =>
              After(s, step) == if MayUpdate(s, l, snap, edit) then Updated(s, l, snap, edit).value else s
  {
  }
}
