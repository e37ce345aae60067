/** What each operation on a list, its links and its versions does, read off the rows alone. */
module ListEffects {
  import opened Common
  import opened Rules
  import opened EvidenceLinks
  import opened Lists
  import opened ListEvidence
  import opened ListImport

  // ---------------------------------------------------------------- tags

  /** The tags a source puts on a list: its own follow what it names, everybody else's stay. */
  ghost predicate TagsFollow(before: map<ControlId, Via>, controls: set<ControlId>, via: Via,
                             after: map<ControlId, Via>) {
    forall c ::
      && (c in after <==> c in controls || (c in before && before[c] != via))
      && (c in after ==> after[c] == if c in before then before[c] else via)
  }

  lemma RetaggedFollow(d: ListDef, controls: set<ControlId>, via: Via)
    ensures TagsFollow(d.tags, controls, via, Retagged(d, controls, via).tags)
    ensures Retagged(d, controls, via) == d.(tags := Retagged(d, controls, via).tags)
  {
  }

  // ---------------------------------------------------------------- an import

  ghost function Last(d: ListDef): Version
    requires d.versions != []
  {
    d.versions[|d.versions| - 1]
  }

  /** The list the sheet names holds something a person wrote, and not what the sheet says. */
  ghost predicate IsEdit(lists: map<ListId, ListDef>, sheet: Sheet)
    requires HasContent(lists)
  {
    && sheet.key in lists && Last(lists[sheet.key]).provenance != Imported
    && Last(lists[sheet.key]).content != sheet.content
  }

  ghost predicate NamedBy(lists: map<ListId, ListDef>, sheet: Sheet, overwrite: set<EditRef>)
    requires HasContent(lists) && sheet.key in lists
  {
    EditRef(sheet.key, Last(lists[sheet.key]).number) in overwrite
  }

  ghost predicate LeftAlone(lists: map<ListId, ListDef>, sheet: Sheet, overwrite: set<EditRef>)
    requires HasContent(lists)
  {
    IsEdit(lists, sheet) && !NamedBy(lists, sheet, overwrite)
  }

  lemma ConflictIsEdit(lists: map<ListId, ListDef>, sheet: Sheet, overwrite: set<EditRef>)
    requires HasContent(lists)
    ensures Proposed(lists, sheet).Conflict? <==> IsEdit(lists, sheet)
    ensures Resolved(lists, sheet, overwrite).Conflict? <==> LeftAlone(lists, sheet, overwrite)
  {
  }

  /** The list after it was written: what the sheet says, by a further version if it was not said already. */
  ghost predicate SaysSo(lists: map<ListId, ListDef>, sheet: Sheet, after: ListDef)
    requires HasContent(lists)
  {
    if sheet.key !in lists then
      && after.isTemplate && after.versions == [Version(1, sheet.content, Imported)]
      && TagsFollow(map[], sheet.controls, ByImport, after.tags)
    else
      var d := lists[sheet.key];
      && after.isTemplate == d.isTemplate && TagsFollow(d.tags, sheet.controls, ByImport, after.tags)
      && if Last(d).content == sheet.content then after.versions == d.versions
         else after.versions == d.versions + [Version(|d.versions| + 1, sheet.content, Imported)]
  }

  /** An import makes each list it names say what its sheet says, save one holding a person's edit that was
      not named, which is exactly as it was. */
  lemma ImportEffect(s: Store, plan: seq<Sheet>, overwrite: set<EditRef>, sheet: Sheet)
    requires HasContent(s.lists) && (sheet.key in s.lists ==> s.lists[sheet.key].Numbered())
    requires DistinctKeys(plan) && sheet in plan && Applied(s, plan, overwrite).Ok?
    ensures var after := Applied(s, plan, overwrite).value.lists;
            && sheet.key in after
            && if LeftAlone(s.lists, sheet, overwrite) then after[sheet.key] == s.lists[sheet.key]
               else SaysSo(s.lists, sheet, after[sheet.key])
  {
    ApplyDoesEach(s.lists, plan, overwrite);
    ConflictIsEdit(s.lists, sheet, overwrite);
    if !LeftAlone(s.lists, sheet, overwrite) {
      OutcomeSaysSo(s.lists, sheet, overwrite);
    }
  }

  lemma OutcomeSaysSo(lists: map<ListId, ListDef>, sheet: Sheet, overwrite: set<EditRef>)
    requires HasContent(lists) && (sheet.key in lists ==> lists[sheet.key].Numbered())
    requires !LeftAlone(lists, sheet, overwrite)
    ensures SaysSo(lists, sheet, Outcome(lists, sheet, overwrite))
  {
    ConflictIsEdit(lists, sheet, overwrite);
    var d := if sheet.key in lists then lists[sheet.key] else ListDef(true, [], map[]);
    var written := if ContentChanged(d, sheet) then WithVersion(d, sheet.content, Imported) else d;
    MaxOfNumbered(d);
    RetaggedFollow(written, sheet.controls, ByImport);
    if sheet.key in lists && Resolved(lists, sheet, overwrite).Unchanged? {
      UnchangedFollows(d, sheet);
    }
  }

  lemma UnchangedFollows(d: ListDef, sheet: Sheet)
    requires !TagsChanged(d, sheet)
    ensures TagsFollow(d.tags, sheet.controls, ByImport, d.tags)
  {
    assert TagsToAdd(d, sheet.controls) == {} && TagsToRemove(d, sheet.controls, ByImport) == {};
    forall c | c in d.tags && d.tags[c] == ByImport
      ensures c in sheet.controls
    {
      assert c !in TagsToRemove(d, sheet.controls, ByImport);
    }
    forall c | c in sheet.controls
      ensures c in d.tags
    {
      assert c !in TagsToAdd(d, sheet.controls);
    }
  }

  /** Lists the plan does not name, and everything but lists, stay. */
  lemma ImportLeaves(s: Store, plan: seq<Sheet>, overwrite: set<EditRef>, l: ListId)
    requires DistinctKeys(plan) && Applied(s, plan, overwrite).Ok? && forall sheet :: sheet in plan ==> sheet.key != l
    ensures var after := Applied(s, plan, overwrite).value;
            && after.links == s.links && after.sources == s.sources && (l in after.lists <==> l in s.lists)
            && (l in s.lists ==> after.lists[l] == s.lists[l])
  {
    ApplyDoesEach(s.lists, plan, overwrite);
  }

  ghost predicate NamesAnEdit(lists: map<ListId, ListDef>, plan: seq<Sheet>, ref: EditRef)
    requires HasContent(lists)
  {
    exists sheet :: sheet in plan && IsEdit(lists, sheet) && ref == EditRef(sheet.key, Last(lists[sheet.key]).number)
  }

  /** The sheet would be written, and no longer names a practice it put on the list and evidence rests on. */
  ghost predicate TakesSupport(s: Store, sheet: Sheet, overwrite: set<EditRef>)
    requires HasContent(s.lists)
  {
    && sheet.key in s.lists && !LeftAlone(s.lists, sheet, overwrite)
    && exists c :: c in s.lists[sheet.key].tags && s.lists[sheet.key].tags[c] == ByImport && c !in sheet.controls
         && RestsOn(s, sheet.key, c)
  }

  /** A live link, on an objective of the practice, to a version of the list. */
  ghost predicate RestsOn(s: Store, l: ListId, c: ControlId) {
    exists k, n :: k in s.links && !s.links[k].archived && k.objective.control == c
      && k.evidence in s.sources && s.sources[k.evidence] == FromList(l, n)
  }

  lemma RestingAre(s: Store, l: ListId, c: ControlId)
    ensures RestingLinks(s, l, c) != {} <==> RestsOn(s, l, c)
  {
    if RestsOn(s, l, c) {
      var k, n :| k in s.links && !s.links[k].archived && k.objective.control == c
          && k.evidence in s.sources && s.sources[k.evidence] == FromList(l, n);
      assert k in RestingLinks(s, l, c);
    }
    if RestingLinks(s, l, c) != {} {
      var k :| k in RestingLinks(s, l, c);
      assert s.sources[k.evidence] == FromList(l, s.sources[k.evidence].number);
    }
  }

  lemma BlockedIs(s: Store, sheet: Sheet, overwrite: set<EditRef>)
    requires HasContent(s.lists)
    ensures Blocked(s, sheet, overwrite) <==> TakesSupport(s, sheet, overwrite)
  {
    ConflictIsEdit(s.lists, sheet, overwrite);
    if TakesSupport(s, sheet, overwrite) {
      var c :| c in s.lists[sheet.key].tags && s.lists[sheet.key].tags[c] == ByImport && c !in sheet.controls
          && RestsOn(s, sheet.key, c);
      RestingAre(s, sheet.key, c);
      assert c in TagsToRemove(s.lists[sheet.key], sheet.controls, ByImport);
    }
    if Blocked(s, sheet, overwrite) {
      var c :| c in TagsToRemove(s.lists[sheet.key], sheet.controls, ByImport) && RestingLinks(s, sheet.key, c) != {};
      RestingAre(s, sheet.key, c);
    }
  }

  /** An import is refused exactly so: a name that is no edit the plan would replace, or evidence resting on a
      tag it would take. */
  lemma ImportRefusals(s: Store, plan: seq<Sheet>, overwrite: set<EditRef>)
    requires HasContent(s.lists)
    ensures var r := Applied(s, plan, overwrite);
            if exists ref :: ref in overwrite && !NamesAnEdit(s.lists, plan, ref) then r == Err(NotAConflict)
            else if exists sheet :: sheet in plan && TakesSupport(s, sheet, overwrite) then r == Err(EvidenceRests)
            else r.Ok?
  {
    forall ref
      ensures ref in Conflicts(s.lists, plan) <==> NamesAnEdit(s.lists, plan, ref)
    {
      ConflictsAre(s.lists, plan, ref);
    }
    forall sheet
      ensures Blocked(s, sheet, overwrite) <==> TakesSupport(s, sheet, overwrite)
    {
      BlockedIs(s, sheet, overwrite);
    }
  }

  lemma ConflictsAre(lists: map<ListId, ListDef>, plan: seq<Sheet>, ref: EditRef)
    requires HasContent(lists)
    ensures ref in Conflicts(lists, plan) <==> NamesAnEdit(lists, plan, ref)
  {
    forall sheet
      ensures Proposed(lists, sheet).Conflict? <==> IsEdit(lists, sheet)
    {
      ConflictIsEdit(lists, sheet, {});
    }
    if NamesAnEdit(lists, plan, ref) {
      var sheet :| sheet in plan && IsEdit(lists, sheet) && ref == EditRef(sheet.key, Last(lists[sheet.key]).number);
      assert RefFor(lists, sheet.key) == ref;
    }
  }

  // ---------------------------------------------------------------- linking

  /** A live link of a version of the list on the objective. */
  ghost predicate LiveAt(s: Store, k: LinkKey, o: Objective, l: ListId, n: nat) {
    && k in s.links && !s.links[k].archived && k.objective == o
    && k.evidence in s.sources && s.sources[k.evidence] == FromList(l, n)
  }

  ghost predicate LinkedAt(s: Store, o: Objective, l: ListId, n: nat) {
    exists k :: LiveAt(s, k, o, l, n)
  }

  ghost predicate IsLinked(s: Store, o: Objective, l: ListId) {
    exists n :: LinkedAt(s, o, l, n)
  }

  lemma LiveAre(s: Store, o: Objective, l: ListId, k: LinkKey)
    ensures k in LiveLinks(s, o, l) <==> exists n :: LiveAt(s, k, o, l, n)
    ensures forall n :: k in LiveLinks(s, o, l) && s.sources[k.evidence].number == n <==> LiveAt(s, k, o, l, n)
  {
    if k in LiveLinks(s, o, l) {
      assert LiveAt(s, k, o, l, s.sources[k.evidence].number);
    }
  }

  lemma LinkedIs(s: Store, o: Objective, l: ListId, n: nat)
    ensures LiveLinks(s, o, l) != {} <==> IsLinked(s, o, l)
    ensures (exists k :: k in LiveLinks(s, o, l) && s.sources[k.evidence].number == n) <==> LinkedAt(s, o, l, n)
  {
    forall k
      ensures k in LiveLinks(s, o, l) <==> exists m :: LiveAt(s, k, o, l, m)
      ensures forall m :: k in LiveLinks(s, o, l) && s.sources[k.evidence].number == m <==> LiveAt(s, k, o, l, m)
    {
      LiveAre(s, o, l, k);
    }
    if IsLinked(s, o, l) {
      var m :| LinkedAt(s, o, l, m);
      var k :| LiveAt(s, k, o, l, m);
      assert k in LiveLinks(s, o, l);
    }
    if LiveLinks(s, o, l) != {} {
      var k :| k in LiveLinks(s, o, l);
      assert LinkedAt(s, o, l, s.sources[k.evidence].number);
    }
  }

  /** Why a list cannot be linked on the objective at all, if it cannot. */
  ghost function NotOfferedFor(s: Store, o: Objective, l: ListId): Option<ListError>
    requires HasContent(s.lists)
  {
    if l !in s.lists then Some(ListNotFound)
    else if o.control !in s.lists[l].tags then Some(NotTagged)
    else if s.lists[l].isTemplate || !IsPopulated(Last(s.lists[l]).content) then Some(NotOffered)
    else None
  }

  /** One more live link, of the one artifact for that version of the list. */
  ghost predicate LinkMade(s: Store, o: Objective, l: ListId, n: nat, id: EvidenceId, links: Links, after: Store) {
    && after.lists == s.lists
    && exists e ::
         && (if exists d :: d in s.sources && s.sources[d] == FromList(l, n)
             then e in s.sources && s.sources[e] == FromList(l, n) else e == id)
         && after.sources == s.sources[e := FromList(l, n)]
         && after.links == links[LinkKey(e, o) := Link(false, None, None, None, None, None)]
  }

  lemma MadeLiveIs(s: Store, o: Objective, l: ListId, n: nat, id: EvidenceId, links: Links)
    ensures LinkMade(s, o, l, n, id, links, MadeLive(s.(links := links), o, l, n, id))
  {
    var e := EvidenceFor(s.(links := links), l, n, id);
    forall d: EvidenceId
      ensures IsEvidenceFor(s.(links := links), d, l, n) <==> d in s.sources && s.sources[d] == FromList(l, n)
    {
    }
    assert MadeLive(s.(links := links), o, l, n, id).links
        == links[LinkKey(e, o) := Link(false, None, None, None, None, None)];
  }

  /** Linking a list: at its current version, one live link, or exactly these refusals. */
  lemma LinkEffect(s: Store, o: Objective, l: ListId, id: EvidenceId)
    requires Inv(s)
    ensures var r, why := Linked(s, o, l, id), NotOfferedFor(s, o, l);
            if why.Some? then r == Err(why.value)
            else
              var n := |s.lists[l].versions|;
              if LinkedAt(s, o, l, n) then r == Err(AlreadyLinkedAt(n))
              else if IsLinked(s, o, l) then r == Err(MoveForwardInstead(n))
              else r.Ok? && LinkMade(s, o, l, n, id, s.links, r.value)
  {
    OfferedIs(s, o, l);
    if NotOfferedFor(s, o, l).None? {
      var n := |s.lists[l].versions|;
      LinkedIs(s, o, l, n);
      MadeLiveIs(s, o, l, n, id, s.links);
    }
  }

  lemma OfferedIs(s: Store, o: Objective, l: ListId)
    requires Inv(s)
    ensures var r, why := Offered(s, o, l), NotOfferedFor(s, o, l);
            r == if why.Some? then Err(why.value) else Ok(|s.lists[l].versions|)
  {
    if l in s.lists {
      assert s.lists[l].Numbered() && s.lists[l].versions != [];
    }
  }

  /** The list's live links on the objective archived for that cause, by nobody's departure, and no other. */
  ghost predicate Ended(s: Store, o: Objective, l: ListId, cause: Cause, now: int, who: Option<string>, links: Links) {
    && links.Keys == s.links.Keys
    && forall k :: k in s.links ==>
         links[k] == if exists n :: LiveAt(s, k, o, l, n)
                     then Link(true, Some(now), Some(cause), None, if cause == Detached then who else None,
                               if cause == Detached then Some(now) else None)
                     else s.links[k]
  }

  lemma ArchivedEach(s: Store, o: Objective, l: ListId, cause: Cause, now: int, who: Option<string>)
    requires AllWellFormed(s.links) && (cause == MovedForward || cause == Detached)
    ensures Ended(s, o, l, cause, now, who, ArchiveEach(s.links, LiveLinks(s, o, l), cause, now, who))
  {
    forall k
      ensures k in LiveLinks(s, o, l) <==> exists n :: LiveAt(s, k, o, l, n)
    {
      LiveAre(s, o, l, k);
    }
  }

  /** Moving a link forward: the old one ended, the current version's live, or exactly these refusals. */
  lemma MoveForwardEffect(s: Store, o: Objective, l: ListId, id: EvidenceId, now: int)
    requires Inv(s)
    ensures var r, why := MovedForwardTo(s, o, l, id, now), NotOfferedFor(s, o, l);
            if why.Some? then r == Err(why.value)
            else
              var n := |s.lists[l].versions|;
              if !IsLinked(s, o, l) then r == Err(NotLinkedHere)
              else if LinkedAt(s, o, l, n) then r == Err(AlreadyAt(n))
              else r.Ok? && exists links ::
                Ended(s, o, l, MovedForward, now, None, links) && LinkMade(s, o, l, n, id, links, r.value)
  {
    OfferedIs(s, o, l);
    if NotOfferedFor(s, o, l).None? {
      var n := |s.lists[l].versions|;
      LinkedIs(s, o, l, n);
      var links := ArchiveEach(s.links, LiveLinks(s, o, l), MovedForward, now, None);
      ArchivedEach(s, o, l, MovedForward, now, None);
      MadeLiveIs(s, o, l, n, id, links);
    }
  }

  /** Unlinking: the list's live link on the objective ended by a person, or exactly these refusals. */
  lemma UnlinkEffect(s: Store, o: Objective, l: ListId, now: int, who: Option<string>)
    requires Inv(s)
    ensures var r := Unlinked(s, o, l, now, who);
            if l !in s.lists then r == Err(ListNotFound)
            else if !IsLinked(s, o, l) then r == Err(NotLinkedHere)
            else r.Ok? && r.value == s.(links := r.value.links) && Ended(s, o, l, Detached, now, who, r.value.links)
  {
    LinkedIs(s, o, l, 0);
    ArchivedEach(s, o, l, Detached, now, who);
  }

  // ---------------------------------------------------------------- tags and versions, by hand

  /** Removing a tag is refused exactly while live evidence rests on it, and takes that tag alone. */
  lemma RemoveTagEffect(s: Store, l: ListId, c: ControlId)
    ensures var r := TagRemoved(s, l, c);
            if l !in s.lists then r == Err(ListNotFound)
            else if c in s.lists[l].tags && RestsOn(s, l, c) then r == Err(EvidenceRestsOnIt)
            else r == Ok(s.(lists := s.lists[l := s.lists[l].(tags := s.lists[l].tags - {c})]))
  {
    RestingAre(s, l, c);
  }

  /** Adding one changes nothing if it is there, whoever put it there. */
  lemma AddTagEffect(s: Store, l: ListId, c: ControlId, via: Via)
    ensures var r := TagAdded(s, l, c, via);
            if l !in s.lists then r == Err(ListNotFound)
            else
              && r.Ok? && r.value == s.(lists := s.lists[l := s.lists[l].(tags := r.value.lists[l].tags)])
              && r.value.lists[l].tags.Keys == s.lists[l].tags.Keys + {c}
              && (forall d :: d in s.lists[l].tags ==> r.value.lists[l].tags[d] == s.lists[l].tags[d])
              && (c !in s.lists[l].tags ==> r.value.lists[l].tags[c] == via)
  {
  }

  /** Saving writes one further version and nothing else. */
  lemma SaveEffect(s: Store, l: ListId, content: Content, provenance: Provenance)
    requires l in s.lists ==> s.lists[l].Numbered()
    ensures var r := Saved(s, l, content, provenance);
            if l !in s.lists then r == Err(ListNotFound)
            else
              var versions := s.lists[l].versions;
              var more := versions + [Version(|versions| + 1, content, provenance)];
              r == Ok(s.(lists := s.lists[l := s.lists[l].(versions := more)]))
  {
    if l in s.lists {
      MaxOfNumbered(s.lists[l]);
    }
  }

  /** A list built by hand holds its content at version 1, with its tags the person's. */
  lemma CreateEffect(s: Store, l: ListId, isTemplate: bool, content: Content, controls: set<ControlId>)
    ensures var r := Created(s, l, Built(isTemplate, content, controls));
            if l in s.lists then r == Err(KeyTaken)
            else
              && r.Ok? && l in r.value.lists && TagsFollow(map[], controls, ByPerson, r.value.lists[l].tags)
              && r.value.lists[l] == ListDef(isTemplate, [Version(1, content, ByHand)], r.value.lists[l].tags)
              && r.value == s.(lists := s.lists[l := r.value.lists[l]])
  {
    assert Built(isTemplate, content, controls).versions == [Version(1, content, ByHand)];
  }

  /** Detaching one link by hand: archived by that person, or refused where there is none or it is off for good. */
  lemma DetachLinkEffect(s: Store, k: LinkKey, now: int, who: Option<string>)
    ensures var r := DetachedLink(s, k, now, who);
            if k !in s.links then r == Err(BadLink(NotLinked))
            else if s.links[k].archived && s.links[k].product == None then r == Err(BadLink(AlreadyDetached))
            else
              var was := s.links[k];
              r == Ok(s.(links := s.links[k := Link(true, if was.archived then was.archivedAt else Some(now),
                                                    Some(Detached), None, who, Some(now))]))
  {
  }

  /** Attaching a new artifact: one live link. */
  lemma AttachArtifactEffect(s: Store, e: EvidenceId, o: Objective)
    ensures var r := ArtifactAttached(s, e, o);
            if e in s.sources then r == Err(BadLink(AlreadyLinked))
            else r == Ok(s.(sources := s.sources[e := Artifact],
                            links := s.links[LinkKey(e, o) := Link(false, None, None, None, None, None)]))
  {
  }

  /** A product's departure takes its live links to artifacts on what it covered, in its name, and none to a
      list; its return brings back those it took. */
  lemma ProductStepsEffect(s: Store, p: ProductId, covered: set<Objective>, now: int, k: LinkKey)
    requires k in s.links
    ensures var was, left := s.links[k], Next(s, ProductLeaves(p, covered, now)).links;
            k in left && left[k] ==
            if !was.archived && k.objective in covered && k.evidence in s.sources && s.sources[k.evidence] == Artifact
            then was.(archived := true, archivedAt := Some(now), cause := Some(Deactivation), product := Some(p))
            else was
    ensures var was, back := s.links[k], Next(s, ProductReturns(p)).links;
            k in back && back[k] == if was.archived && was.product == Some(p)
                                    then Link(false, None, None, None, None, None) else was
  {
  }

  /** A step of the store is its operation; an id for a new artifact is not one in use. */
  lemma StepsAreOperations(s: Store, step: Step)
    ensures match step
            case LinkList(o, l, id) => id !in s.sources ==> Attempt(s, step) == Linked(s, o, l, id)
            case MoveForward(o, l, id, now) => id !in s.sources ==> Attempt(s, step) == MovedForwardTo(s, o, l, id, now)
            case Unlink(o, l, now, who) => Attempt(s, step) == Unlinked(s, o, l, now, who)
            case Detach(k, now, who) => Attempt(s, step) == DetachedLink(s, k, now, who)
            case AttachArtifact(e, o) => Attempt(s, step) == ArtifactAttached(s, e, o)
            case AddTag(l, control, via) => Attempt(s, step) == TagAdded(s, l, control, via)
            case RemoveTag(l, control) => Attempt(s, step) == TagRemoved(s, l, control)
            case SaveVersion(l, content, provenance) => Attempt(s, step) == Saved(s, l, content, provenance)
            case CreateList(l, isTemplate, content, controls) =>
              Attempt(s, step) == Created(s, l, Built(isTemplate, content, controls))
            case ProductLeaves(_, _, _) => Attempt(s, step).Ok?
            case ProductReturns(_) => Attempt(s, step).Ok?
    ensures Next(s, step) == if Attempt(s, step).Ok? then Attempt(s, step).value else s
  {
  }
}
