/** A list version linked as evidence, and the rules that keep it to the practices its list is
    tagged with, across linking, tagging, new versions, and products coming and going. */
module ListEvidence {
  import opened Common
  import opened Rules
  import opened EvidenceLinks
  import opened Lists

  datatype Store = Store(lists: map<ListId, ListDef>, sources: map<EvidenceId, Source>, links: Links)

  datatype ListError = ListNotFound | NotTagged | NotOffered | AlreadyLinkedAt(number: nat)
      | MoveForwardInstead(number: nat)
                     | NotLinkedHere | AlreadyAt(number: nat) | EvidenceRestsOnIt | KeyTaken | BadLink(e: LinkError)

  predicate OfList(s: Store, k: LinkKey, l: ListId) {
    k.evidence in s.sources && s.sources[k.evidence].FromList? && s.sources[k.evidence].list == l
  }

  /** The live links of one list on one objective. */
  function LiveLinks(s: Store, o: Objective, l: ListId): set<LinkKey> {
    set k | k in s.links && s.links[k].Live() && k.objective == o && OfList(s, k, l)
  }

  /** The live links that rest on the list serving one practice: what stops its tag being removed. */
  function RestingLinks(s: Store, l: ListId, control: ControlId): set<LinkKey> {
    set k | k in s.links && s.links[k].Live() && k.objective.control == control && OfList(s, k, l)
  }

  /** The version a list would be linked at, or why it is not offered for this objective. */
  function Offered(s: Store, o: Objective, l: ListId): Result<nat, ListError> {
    if l !in s.lists then Err(ListNotFound)
    else if o.control !in s.lists[l].tags then Err(NotTagged)
    else
      var current := s.lists[l].Current();
      if s.lists[l].isTemplate || current.None? || !IsPopulated(current.value.content) then Err(NotOffered)
      else Ok(current.value.number)
  }

  // ---------------------------------------------------------------- what each operation does

  ghost predicate IsEvidenceFor(s: Store, e: EvidenceId, l: ListId, n: nat) {
    e in s.sources && s.sources[e] == FromList(l, n)
  }

  /** The one artifact for a list version: the one there is, else a new one. */
  ghost function EvidenceFor(s: Store, l: ListId, n: nat, id: EvidenceId): EvidenceId {
    if exists e: EvidenceId :: IsEvidenceFor(s, e, l, n) then (var e: EvidenceId :| IsEvidenceFor(s, e, l, n); e)
    else id
  }

  ghost function MadeLive(s: Store, o: Objective, l: ListId, n: nat, id: EvidenceId): Store {
    var e := EvidenceFor(s, l, n, id);
    s.(sources := s.sources[e := FromList(l, n)], links := s.links[LinkKey(e, o) := LIVE])
  }

  function ArchiveEach(links: Links, keys: set<LinkKey>, cause: Cause, now: int, who: Option<string>): Links
    requires !cause.Deactivation?
  {
    map k | k in links :: if k in keys then Archived(links[k], cause, now, None, who).value else links[k]
  }

  ghost function Linked(s: Store, o: Objective, l: ListId, id: EvidenceId): Result<Store, ListError> {
    var offered := Offered(s, o, l);
    if offered.Err? then Err(offered.error)
    else if LiveLinks(s, o, l) != {} then
      if exists k :: k in LiveLinks(s, o, l) && s.sources[k.evidence].number == offered.value
      then Err(AlreadyLinkedAt(offered.value))
      else Err(MoveForwardInstead(offered.value))
    else Ok(MadeLive(s, o, l, offered.value, id))
  }

  ghost function MovedForwardTo(s: Store, o: Objective, l: ListId, id: EvidenceId, now: int): Result<Store, ListError> {
    var offered := Offered(s, o, l);
    var live := LiveLinks(s, o, l);
    if offered.Err? then Err(offered.error)
    else if live == {} then Err(NotLinkedHere)
    else if exists k :: k in live && s.sources[k.evidence].number == offered.value then Err(AlreadyAt(offered.value))
    else Ok(MadeLive(s.(links := ArchiveEach(s.links, live, MovedForward, now, None)), o, l, offered.value, id))
  }

  function Unlinked(s: Store, o: Objective, l: ListId, now: int, who: Option<string>): Result<Store, ListError> {
    if l !in s.lists then Err(ListNotFound)
    else if LiveLinks(s, o, l) == {} then Err(NotLinkedHere)
    else Ok(s.(links := ArchiveEach(s.links, LiveLinks(s, o, l), Detached, now, who)))
  }

  function TagRemoved(s: Store, l: ListId, control: ControlId): Result<Store, ListError> {
    if l !in s.lists then Err(ListNotFound)
    else if control in s.lists[l].tags && RestingLinks(s, l, control) != {} then Err(EvidenceRestsOnIt)
    else Ok(s.(lists := s.lists[l := WithoutTag(s.lists[l], control)]))
  }

  function TagAdded(s: Store, l: ListId, control: ControlId, via: Via): Result<Store, ListError> {
    if l !in s.lists then Err(ListNotFound) else Ok(s.(lists := s.lists[l := WithTag(s.lists[l], control, via)]))
  }

  function Saved(s: Store, l: ListId, content: Content, provenance: Provenance): Result<Store, ListError> {
    if l !in s.lists then Err(ListNotFound)
    else Ok(s.(lists := s.lists[l := WithVersion(s.lists[l], content, provenance)]))
  }

  /** A list a person builds: definition, first version and tags at once. */
  function Built(isTemplate: bool, content: Content, controls: set<ControlId>): ListDef {
    WithVersion(ListDef(isTemplate, [], map c | c in controls :: ByPerson), content, ByHand)
  }

  function Created(s: Store, l: ListId, built: ListDef): Result<Store, ListError> {
    if l in s.lists then Err(KeyTaken) else Ok(s.(lists := s.lists[l := built]))
  }

  function DetachedLink(s: Store, k: LinkKey, now: int, who: Option<string>): Result<Store, ListError> {
    match DetachIn(s.links, k, Detached, now, who)
    case Ok(links) => Ok(s.(links := links))
    case Err(e) => Err(BadLink(e))
  }

  /** An artifact that is not a list: always new, so always a new row. */
  function ArtifactAttached(s: Store, e: EvidenceId, o: Objective): Result<Store, ListError> {
    if e in s.sources then Err(BadLink(AlreadyLinked))
    else Ok(s.(sources := s.sources[e := Artifact], links := s.links[LinkKey(e, o) := LIVE]))
  }

  datatype Step =
    | LinkList(o: Objective, l: ListId, id: EvidenceId)
    | MoveForward(o: Objective, l: ListId, id: EvidenceId, now: int)
    | Unlink(o: Objective, l: ListId, now: int, who: Option<string>)
    | Detach(k: LinkKey, now: int, who: Option<string>)
    | AttachArtifact(e: EvidenceId, o: Objective)
    | AddTag(l: ListId, control: ControlId, via: Via)
    | RemoveTag(l: ListId, control: ControlId)
    | SaveVersion(l: ListId, content: Content, provenance: Provenance)
    | CreateList(l: ListId, isTemplate: bool, content: Content, controls: set<ControlId>)
    | ProductLeaves(p: ProductId, covered: set<Objective>, now: int)
    | ProductReturns(p: ProductId)

  ghost function Attempt(s: Store, step: Step): Result<Store, ListError> {
    match step
    case LinkList(o, l, id) => if id in s.sources then Err(BadLink(AlreadyLinked)) else Linked(s, o, l, id)
    case MoveForward(o, l, id, now) => if id in s.sources then Err(BadLink(AlreadyLinked))
        else MovedForwardTo(s, o, l, id, now)
    case Unlink(o, l, now, who) => Unlinked(s, o, l, now, who)
    case Detach(k, now, who) => DetachedLink(s, k, now, who)
    case AttachArtifact(e, o) => ArtifactAttached(s, e, o)
    case AddTag(l, control, via) => TagAdded(s, l, control, via)
    case RemoveTag(l, control) => TagRemoved(s, l, control)
    case SaveVersion(l, content, provenance) => Saved(s, l, content, provenance)
    case CreateList(l, isTemplate, content, controls) => Created(s, l, Built(isTemplate, content, controls))
    case ProductLeaves(p, covered, now) => Ok(s.(links := RetireLinks(s.links, s.sources, covered, p, now)))
    case ProductReturns(p) => Ok(s.(links := RestoreLinks(s.links, p)))
  }

  ghost function Next(s: Store, step: Step): Store {
    var r := Attempt(s, step);
    if r.Ok? then r.value else s
  }

  // ---------------------------------------------------------------- the joint invariant

  ghost predicate Supported(s: Store, k: LinkKey, l: ListId, n: nat) {
    && l in s.lists && k.objective.control in s.lists[l].tags && !s.lists[l].isTemplate
    && 1 <= n <= |s.lists[l].versions| && IsPopulated(s.lists[l].versions[n - 1].content)
  }

  /** Each live list link sits on a practice its list is tagged with and names a populated version. */
  ghost predicate Confined(s: Store) {
    forall k :: k in s.links && s.links[k].Live() && k.evidence in s.sources && s.sources[k.evidence].FromList?
      ==> Supported(s, k, s.sources[k.evidence].list, s.sources[k.evidence].number)
  }

  ghost predicate OneLivePerList(s: Store) {
    forall o, l, j, k :: j in LiveLinks(s, o, l) && k in LiveLinks(s, o, l) ==> j == k
  }

  ghost predicate OneArtifactPerVersion(s: Store) {
    forall d, e :: d in s.sources && e in s.sources && s.sources[d].FromList? && s.sources[d] == s.sources[e] ==> d == e
  }

  /** A list link was attached by a person, so no product's departure ever archives one. */
  ghost predicate NoListLinkNamesAProduct(s: Store) {
    forall k :: k in s.links && k.evidence in s.sources && s.sources[k.evidence].FromList? ==> s.links[k].product.None?
  }

  /** Every list was given its first version together with its definition. */
  ghost predicate HasContent(lists: map<ListId, ListDef>) {
    forall l :: l in lists ==> lists[l].versions != []
  }

  ghost predicate Inv(s: Store) {
    && AllWellFormed(s.links)
    && (forall k :: k in s.links ==> k.evidence in s.sources)
    && (forall l :: l in s.lists ==> s.lists[l].Numbered())
    && HasContent(s.lists)
    && Confined(s) && OneLivePerList(s) && OneArtifactPerVersion(s) && NoListLinkNamesAProduct(s)
  }

  // ---------------------------------------------------------------- every step keeps it

  /** Archiving links, and restoring only links that are not a list's, takes nothing from a list. */
  ghost predicate OnlyRetires(s: Store, links: Links) {
    && links.Keys == s.links.Keys && AllWellFormed(links)
    && forall k :: k in links && k.evidence in s.sources && s.sources[k.evidence].FromList?
         ==> links[k].product.None? && (links[k].Live() ==> s.links[k].Live())
  }

  lemma RetiringKeeps(s: Store, links: Links)
    requires Inv(s) && OnlyRetires(s, links)
    ensures Inv(s.(links := links))
  {
    var after := s.(links := links);
    forall o, l
      ensures LiveLinks(after, o, l) <= LiveLinks(s, o, l)
    {
    }
  }

  lemma OfferedIsSupported(s: Store, o: Objective, l: ListId, e: EvidenceId)
    requires Inv(s) && Offered(s, o, l).Ok?
    ensures Supported(s, LinkKey(e, o), l, Offered(s, o, l).value)
  {
    assert s.lists[l].Numbered();
  }

  /** Making a link live where its list has none keeps everything. */
  lemma MadeLiveKeeps(s: Store, o: Objective, l: ListId, id: EvidenceId)
    requires Inv(s) && Offered(s, o, l).Ok? && id !in s.sources && LiveLinks(s, o, l) == {}
    ensures Inv(MadeLive(s, o, l, Offered(s, o, l).value, id))
  {
    var n := Offered(s, o, l).value;
    var e := EvidenceFor(s, l, n, id);
    var after := MadeLive(s, o, l, n, id);
    OfferedIsSupported(s, o, l, e);
    assert e in s.sources ==> s.sources[e] == FromList(l, n);
    MadeLiveConfined(s, o, l, n, e, after);
    MadeLiveUnique(s, o, l, n, e, after);
    MadeLiveOneArtifact(s, l, n, id);
  }

  lemma MadeLiveConfined(s: Store, o: Objective, l: ListId, n: nat, e: EvidenceId, after: Store)
    requires Confined(s) && NoListLinkNamesAProduct(s) && Supported(s, LinkKey(e, o), l, n)
    requires forall k :: k in s.links ==> k.evidence in s.sources
    requires e in s.sources ==> s.sources[e] == FromList(l, n)
    requires after == s.(sources := s.sources[e := FromList(l, n)], links := s.links[LinkKey(e, o) := LIVE])
    ensures Confined(after) && NoListLinkNamesAProduct(after)
  {
  }

  lemma MadeLiveUnique(s: Store, o: Objective, l: ListId, n: nat, e: EvidenceId, after: Store)
    requires OneLivePerList(s) && LiveLinks(s, o, l) == {}
    requires e in s.sources ==> s.sources[e] == FromList(l, n)
    requires forall k :: k in s.links ==> k.evidence in s.sources
    requires after == s.(sources := s.sources[e := FromList(l, n)], links := s.links[LinkKey(e, o) := LIVE])
    ensures OneLivePerList(after)
  {
    forall x, m, j, k | j in LiveLinks(after, x, m) && k in LiveLinks(after, x, m)
      ensures j == k
    {
      if j == LinkKey(e, o) || k == LinkKey(e, o) {
        assert x == o && m == l;
        assert j != LinkKey(e, o) ==> j in LiveLinks(s, o, l);
        assert k != LinkKey(e, o) ==> k in LiveLinks(s, o, l);
      } else {
        assert j in LiveLinks(s, x, m) && k in LiveLinks(s, x, m);
      }
    }
  }

  lemma MadeLiveOneArtifact(s: Store, l: ListId, n: nat, id: EvidenceId)
    requires OneArtifactPerVersion(s) && id !in s.sources
    ensures OneArtifactPerVersion(s.(sources := s.sources[EvidenceFor(s, l, n, id) := FromList(l, n)]))
  {
    if exists e: EvidenceId :: IsEvidenceFor(s, e, l, n) {
      var e := EvidenceFor(s, l, n, id);
      assert s.sources[e := FromList(l, n)] == s.sources;
    } else {
      assert forall d :: d in s.sources ==> !IsEvidenceFor(s, d, l, n);
    }
  }

  lemma ArchiveEachRetires(s: Store, keys: set<LinkKey>, cause: Cause, now: int, who: Option<string>)
    requires Inv(s) && (cause.MovedForward? || cause.Detached?)
    requires forall k :: k in keys ==> k in s.links && s.links[k].Live()
    ensures OnlyRetires(s, ArchiveEach(s.links, keys, cause, now, who))
  {
  }

  lemma MoveForwardKeeps(s: Store, o: Objective, l: ListId, id: EvidenceId, now: int)
    requires Inv(s) && id !in s.sources && MovedForwardTo(s, o, l, id, now).Ok?
    ensures Inv(MovedForwardTo(s, o, l, id, now).value)
  {
    var live := LiveLinks(s, o, l);
    var links := ArchiveEach(s.links, live, MovedForward, now, None);
    var between := s.(links := links);
    ArchiveEachRetires(s, live, MovedForward, now, None);
    RetiringKeeps(s, links);
    assert forall k :: k in links && k.objective == o && OfList(s, k, l) && links[k].Live() ==> k in live;
    assert LiveLinks(between, o, l) == {};
    MadeLiveKeeps(between, o, l, id);
  }

  /** A list changed so that no live link loses its support keeps everything. */
  lemma ListChangeKeeps(s: Store, l: ListId, d: ListDef)
    requires Inv(s) && d.Numbered()
    requires l in s.lists ==> !d.isTemplate || s.lists[l].isTemplate
    requires if l in s.lists then s.lists[l].versions <= d.versions else d.versions != []
    requires l in s.lists ==> forall c :: c in s.lists[l].tags && c !in d.tags ==> RestingLinks(s, l, c) == {}
    ensures Inv(s.(lists := s.lists[l := d]))
  {
    var after := s.(lists := s.lists[l := d]);
    forall k | k in s.links && s.links[k].Live() && k.evidence in s.sources && s.sources[k.evidence].FromList?
      ensures Supported(after, k, s.sources[k.evidence].list, s.sources[k.evidence].number)
    {
      assert Supported(s, k, s.sources[k.evidence].list, s.sources[k.evidence].number);
      if s.sources[k.evidence].list == l {
        assert k in RestingLinks(s, l, k.objective.control);
      }
    }
    assert forall o, m :: LiveLinks(after, o, m) == LiveLinks(s, o, m);
  }

  lemma ListStepKeeps(s: Store, step: Step)
    requires Inv(s) && (step.AddTag? || step.RemoveTag? || step.SaveVersion? || step.CreateList?)
    ensures Inv(Next(s, step))
  {
    if Attempt(s, step).Ok? {
      match step
      case AddTag(l, control, via) => ListChangeKeeps(s, l, WithTag(s.lists[l], control, via));
      case RemoveTag(l, control) => ListChangeKeeps(s, l, WithoutTag(s.lists[l], control));
      case SaveVersion(l, content, provenance) =>
        VersionsStayNumbered(s.lists[l], content, provenance);
        ListChangeKeeps(s, l, WithVersion(s.lists[l], content, provenance));
      case CreateList(l, isTemplate, content, controls) => ListChangeKeeps(s, l, Built(isTemplate, content, controls));
    }
  }

  lemma ArtifactKeeps(s: Store, e: EvidenceId, o: Objective)
    requires Inv(s) && ArtifactAttached(s, e, o).Ok?
    ensures Inv(ArtifactAttached(s, e, o).value)
  {
    var after := ArtifactAttached(s, e, o).value;
    assert forall x, l :: LiveLinks(after, x, l) == LiveLinks(s, x, l) by {
      forall x, l
        ensures LiveLinks(after, x, l) == LiveLinks(s, x, l)
      {
        forall k | k in LiveLinks(after, x, l)
          ensures k in LiveLinks(s, x, l)
        {
          assert k.evidence != e;
        }
      }
    }
    forall k | k in after.links && after.links[k].Live() && k.evidence in after.sources
        && after.sources[k.evidence].FromList?
      ensures Supported(after, k, after.sources[k.evidence].list, after.sources[k.evidence].number)
    {
      assert k in s.links && Supported(s, k, s.sources[k.evidence].list, s.sources[k.evidence].number);
    }
  }

  lemma RetireStepRetires(s: Store, p: ProductId, covered: set<Objective>, now: int)
    requires Inv(s)
    ensures OnlyRetires(s, RetireLinks(s.links, s.sources, covered, p, now))
    ensures OnlyRetires(s, RestoreLinks(s.links, p))
  {
  }

  lemma DetachRetires(s: Store, k: LinkKey, now: int, who: Option<string>)
    requires Inv(s) && DetachedLink(s, k, now, who).Ok?
    ensures OnlyRetires(s, DetachedLink(s, k, now, who).value.links)
  {
  }

  lemma NextKeeps(s: Store, step: Step)
    requires Inv(s)
    ensures Inv(Next(s, step))
  {
    if Attempt(s, step).Ok? {
      match step
      case LinkList(o, l, id) => MadeLiveKeeps(s, o, l, id);
      case MoveForward(o, l, id, now) => MoveForwardKeeps(s, o, l, id, now);
      case Unlink(o, l, now, who) =>
        ArchiveEachRetires(s, LiveLinks(s, o, l), Detached, now, who);
        RetiringKeeps(s, ArchiveEach(s.links, LiveLinks(s, o, l), Detached, now, who));
      case Detach(k, now, who) =>
        DetachRetires(s, k, now, who);
        RetiringKeeps(s, DetachedLink(s, k, now, who).value.links);
      case AttachArtifact(e, o) => ArtifactKeeps(s, e, o);
      case ProductLeaves(p, covered, now) =>
        RetireStepRetires(s, p, covered, now);
        RetiringKeeps(s, RetireLinks(s.links, s.sources, covered, p, now));
      case ProductReturns(p) =>
        RetireStepRetires(s, p, {}, 0);
        RetiringKeeps(s, RestoreLinks(s.links, p));
      case _ => ListStepKeeps(s, step);
    }
  }

  lemma NextKeepsVersions(s: Store, step: Step, l: ListId)
    requires l in s.lists
    ensures l in Next(s, step).lists && s.lists[l].versions <= Next(s, step).lists[l].versions
  {
  }

  lemma MovingForwardLeavesOne(s: Store, o: Objective, l: ListId, id: EvidenceId, now: int)
    requires MovedForwardTo(s, o, l, id, now).Ok?
    ensures LiveLinks(MovedForwardTo(s, o, l, id, now).value, o, l) != {}
  {
    var n := Offered(s, o, l).value;
    var between := s.(links := ArchiveEach(s.links, LiveLinks(s, o, l), MovedForward, now, None));
    assert LinkKey(EvidenceFor(between, l, n, id), o) in LiveLinks(MovedForwardTo(s, o, l, id, now).value, o, l);
  }

  /** What a step other than a person's taking it off does to a live list link: nothing. */
  lemma StaysLive(s: Store, step: Step, k: LinkKey, l: ListId)
    requires Inv(s) && k in LiveLinks(s, k.objective, l)
    requires step.Unlink? || step.MoveForward? ==> step.o != k.objective || step.l != l
    requires step.Detach? ==> step.k != k
    ensures k in LiveLinks(Next(s, step), k.objective, l)
  {
    if step.LinkList? || step.MoveForward? {
      LinkingLeavesOthers(s, step, k, l);
    } else if step.ProductLeaves? || step.ProductReturns? || step.Unlink? || step.Detach? {
      RetiringLeavesOthers(s, step, k, l);
    }
  }

  lemma LinkingLeavesOthers(s: Store, step: Step, k: LinkKey, l: ListId)
    requires k in LiveLinks(s, k.objective, l) && (step.LinkList? || step.MoveForward?)
    requires step.MoveForward? ==> step.o != k.objective || step.l != l
    ensures k in LiveLinks(Next(s, step), k.objective, l)
  {
    if Attempt(s, step).Ok? {
      SourcesOnlyGrow(s, step, k);
    }
  }

  lemma RetiringLeavesOthers(s: Store, step: Step, k: LinkKey, l: ListId)
    requires Inv(s) && k in LiveLinks(s, k.objective, l)
    requires step.ProductLeaves? || step.ProductReturns? || step.Unlink? || step.Detach?
    requires step.Unlink? ==> step.o != k.objective || step.l != l
    requires step.Detach? ==> step.k != k
    ensures k in LiveLinks(Next(s, step), k.objective, l)
  {
  }

  lemma SourcesOnlyGrow(s: Store, step: Step, k: LinkKey)
    requires step.LinkList? || step.MoveForward?
    requires Attempt(s, step).Ok? && k.evidence in s.sources
    ensures k.evidence in Next(s, step).sources && Next(s, step).sources[k.evidence] == s.sources[k.evidence]
  {
  }

  /** A live list link is ended only by a person: by unlinking or detaching it, or by moving it
      forward, which leaves a live link of the same list in its place. */
  lemma OnlyAPersonEndsAListLink(s: Store, step: Step, o: Objective, l: ListId)
    requires Inv(s) && LiveLinks(s, o, l) != {} && LiveLinks(Next(s, step), o, l) == {}
    ensures (step.Unlink? && step.o == o && step.l == l) || (step.Detach? && step.k in LiveLinks(s, o, l))
  {
    var k :| k in LiveLinks(s, o, l);
    if step.MoveForward? && Attempt(s, step).Ok? && step.o == o && step.l == l {
      MovingForwardLeavesOne(s, o, l, step.id, step.now);
    } else if !(step.Unlink? && step.o == o && step.l == l) && !(step.Detach? && step.k == k) && Attempt(s, step).Ok? {
      StaysLive(s, step, k, l);
    }
  }

  // ---------------------------------------------------------------- the operations as they run

  lemma TheArtifact(s: Store, l: ListId, n: nat, e: EvidenceId, id: EvidenceId)
    requires OneArtifactPerVersion(s) && IsEvidenceFor(s, e, l, n)
    ensures EvidenceFor(s, l, n, id) == e
  {
  }

  class ListStore {
    var lists: map<ListId, ListDef>
    var sources: map<EvidenceId, Source>
    var links: Links

    function View(): Store
      reads this
    {
      Store(lists, sources, links)
    }

    /** The artifact naming this list version, if anything was ever linked at it. */
    method FindArtifact(l: ListId, n: nat) returns (found: Option<EvidenceId>)
      ensures found.Some? ==> IsEvidenceFor(View(), found.value, l, n)
      ensures found.None? ==> forall e: EvidenceId :: !IsEvidenceFor(View(), e, l, n)
    {
      found := None;
      var todo := sources.Keys;
      while todo != {} && found.None?
        invariant todo <= sources.Keys
        invariant found.None? ==> forall e: EvidenceId :: IsEvidenceFor(View(), e, l, n) ==> e in todo
        invariant found.Some? ==> IsEvidenceFor(View(), found.value, l, n)
        decreases todo
      {
        var e :| e in todo;
        if sources[e] == FromList(l, n) {
          found := Some(e);
        }
        todo := todo - {e};
      }
    }

    /** Captures the version once, and returns its row on this objective to live or makes one. */
    method MakeLive(o: Objective, l: ListId, n: nat, id: EvidenceId)
      requires OneArtifactPerVersion(View()) && id !in sources
      modifies this`sources, this`links
      ensures View() == MadeLive(old(View()), o, l, n, id)
    {
      var found := FindArtifact(l, n);
      var e := id;
      if found.Some? {
        e := found.value;
        TheArtifact(View(), l, n, e, id);
        assert sources[e := FromList(l, n)] == sources;
      } else {
        sources := sources[id := FromList(l, n)];
      }
      links := links[LinkKey(e, o) := LIVE];
    }

    method ArchiveAll(keys: set<LinkKey>, cause: Cause, now: int, who: Option<string>)
      requires keys <= links.Keys && !cause.Deactivation?
      modifies this`links
      ensures links == ArchiveEach(old(links), keys, cause, now, who)
    {
      var before, todo := links, keys;
      while todo != {}
        invariant todo <= keys && links.Keys == before.Keys
        invariant forall k :: k in links ==> links[k] == if k in keys && k !in todo
              then Archived(before[k], cause, now, None, who).value else before[k]
        decreases todo
      {
        var k :| k in todo;
        links := links[k := Archived(links[k], cause, now, None, who).value];
        todo := todo - {k};
      }
    }

    method LinkCurrent(o: Objective, l: ListId, id: EvidenceId) returns (error: Option<ListError>)
      requires OneArtifactPerVersion(View()) && id !in sources
      modifies this`sources, this`links
      ensures error.None? ==> Linked(old(View()), o, l, id) == Ok(View())
      ensures error.Some? ==> Linked(old(View()), o, l, id) == Err(error.value) && View() == old(View())
    {
      var offered := Offered(View(), o, l);
      if offered.Err? {
        return Some(offered.error);
      }
      var live := LiveLinks(View(), o, l);
      if live != {} {
        if exists k :: k in live && sources[k.evidence].number == offered.value {
          return Some(AlreadyLinkedAt(offered.value));
        }
        return Some(MoveForwardInstead(offered.value));
      }
      MakeLive(o, l, offered.value, id);
      error := None;
    }

    method MoveLinkForward(o: Objective, l: ListId, id: EvidenceId, now: int) returns (error: Option<ListError>)
      requires OneArtifactPerVersion(View()) && id !in sources
      modifies this`sources, this`links
      ensures error.None? ==> MovedForwardTo(old(View()), o, l, id, now) == Ok(View())
      ensures error.Some? ==> MovedForwardTo(old(View()), o, l, id, now) == Err(error.value) && View() == old(View())
    {
      var offered := Offered(View(), o, l);
      if offered.Err? {
        return Some(offered.error);
      }
      var live := LiveLinks(View(), o, l);
      if live == {} {
        return Some(NotLinkedHere);
      }
      if exists k :: k in live && sources[k.evidence].number == offered.value {
        return Some(AlreadyAt(offered.value));
      }
      ArchiveAll(live, MovedForward, now, None);
      MakeLive(o, l, offered.value, id);
      error := None;
    }

    method UnlinkList(o: Objective, l: ListId, now: int, who: Option<string>) returns (error: Option<ListError>)
      modifies this`links
      ensures error.None? ==> Unlinked(old(View()), o, l, now, who) == Ok(View())
      ensures error.Some? ==> Unlinked(old(View()), o, l, now, who) == Err(error.value) && View() == old(View())
    {
      if l !in lists {
        return Some(ListNotFound);
      }
      var live := LiveLinks(View(), o, l);
      if live == {} {
        return Some(NotLinkedHere);
      }
      ArchiveAll(live, Detached, now, who);
      error := None;
    }

    // -------------------------------------------------------------- the list library's writers

    method AddTag(l: ListId, control: ControlId, via: Via)
      requires l in lists
      modifies this`lists
      ensures lists == old(lists)[l := WithTag(old(lists)[l], control, via)]
    {
      if control !in lists[l].tags {
        lists := lists[l := lists[l].(tags := lists[l].tags[control := via])];
      }
      assert lists == old(lists)[l := WithTag(old(lists)[l], control, via)];
    }

    method RemoveTag(l: ListId, control: ControlId) returns (error: Option<ListError>)
      modifies this`lists
      ensures error.None? ==> TagRemoved(old(View()), l, control) == Ok(View())
      ensures error.Some? ==> TagRemoved(old(View()), l, control) == Err(error.value) && View() == old(View())
    {
      if l !in lists {
        return Some(ListNotFound);
      }
      if control in lists[l].tags && RestingLinks(View(), l, control) != {} {
        return Some(EvidenceRestsOnIt);
      }
      lists := lists[l := WithoutTag(lists[l], control)];
      error := None;
    }

    /** Numbers the new version one above the highest there is. */
    method CreateVersion(l: ListId, content: Content, provenance: Provenance) returns (number: nat)
      requires l in lists
      modifies this`lists
      ensures lists == old(lists)[l := WithVersion(old(lists)[l], content, provenance)]
      ensures number == MaxNumber(old(lists)[l].versions) + 1
    {
      var d := lists[l];
      number := 0;
      for i := 0 to |d.versions|
        invariant number == MaxNumber(d.versions[..i])
      {
        assert d.versions[..i + 1][..i] == d.versions[..i];
        if d.versions[i].number > number {
          number := d.versions[i].number;
        }
      }
      assert d.versions[..|d.versions|] == d.versions;
      number := number + 1;
      lists := lists[l := d.(versions := d.versions + [Version(number, content, provenance)])];
    }
  }
}
