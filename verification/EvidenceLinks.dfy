/** Archiving and restoring an evidence link: the one path every caller uses. */
module EvidenceLinks {
  import opened Common
  import opened Rules

  type EvidenceId = nat

  datatype Cause = Deactivation | Detached | MovedForward | AttestationDetach

  /** One artifact may be linked to one objective only once, so the pair names the link. */
  datatype LinkKey = LinkKey(evidence: EvidenceId, objective: Objective)

  /** What an artifact was captured from. A list or document version was attached by a person. */
  datatype Source = Artifact | FromList(list: string, number: nat) | FromDocument(version: nat)

  datatype Link = Link(archived: bool, archivedAt: Option<int>, cause: Option<Cause>,
                       product: Option<ProductId>, detachedBy: Option<string>, detachedAt: Option<int>)
  {
    predicate Live() { !archived }

    /** Archived because this product was deactivated: what its reactivation looks for. */
    predicate ArchivedBy(p: ProductId) { archived && product == Some(p) }

    /** What holds of every row: a live one carries nothing of an archive, an archived one says
        why, and only a deactivation names a product. */
    predicate WellFormed() {
      && (!archived ==> this == LIVE)
      && (archived ==> cause.Some? && archivedAt.Some?)
      && (product.Some? <==> cause == Some(Deactivation))
      && (detachedAt.Some? <==> cause == Some(Detached) || cause == Some(AttestationDetach))
    }
  }

  const LIVE := Link(false, None, None, None, None, None)

  datatype LinkError = OnlyADeactivationNamesAProduct | AlreadyDetached | AlreadyLinked | NotLinked

  function Archived(l: Link, cause: Cause, now: int, product: Option<ProductId>, who: Option<string>)
    : (r: Result<Link, LinkError>)
    ensures r.Ok? <==> (product.Some? <==> cause.Deactivation?)
    ensures r.Ok? && l.archived ==> r.value.archivedAt == l.archivedAt
    ensures r.Ok? ==> r.value.archived
  {
    if product.Some? != cause.Deactivation? then Err(OnlyADeactivationNamesAProduct)
    else
      var l1 := if l.archived then l else l.(archived := true, archivedAt := Some(now));
      var l2 := l1.(cause := Some(cause), product := product);
      Ok(if cause.Detached? || cause.AttestationDetach? then l2.(detachedBy := who, detachedAt := Some(now)) else l2)
  }

  /** A person takes the artifact off the objective. Refused when the link is already archived
      and no product's return would bring it back. */
  function TakenOff(l: Link, cause: Cause, now: int, who: Option<string>): (r: Result<Link, LinkError>)
    requires cause.Detached? || cause.AttestationDetach?
    ensures r.Err? <==> l.archived && l.product.None?
    ensures r.Ok? ==> forall p :: !r.value.ArchivedBy(p)
  {
    if l.archived && l.product.None? then Err(AlreadyDetached) else Archived(l, cause, now, None, who)
  }

  /** An archived row is well formed, unless a link a person had detached is archived again for
      another cause, which leaves the detach on it. */
  lemma ArchivedIsWellFormed(l: Link, cause: Cause, now: int, product: Option<ProductId>, who: Option<string>)
    requires l.WellFormed() && Archived(l, cause, now, product, who).Ok?
    ensures var after := Archived(l, cause, now, product, who).value;
            && after.cause == Some(cause) && after.product == product
            && after.archivedAt == (if l.archived then l.archivedAt else Some(now))
            && (after.WellFormed() <==> l.detachedAt.None? || cause.Detached? || cause.AttestationDetach?)
  {
  }

  /** Taken off, live or archived by a product: the date it first stopped counting is kept, the
      product is cleared, and the row is well formed. */
  lemma TakenOffKeepsTheDate(l: Link, cause: Cause, now: int, who: Option<string>)
    requires (cause.Detached? || cause.AttestationDetach?) && l.WellFormed() && TakenOff(l, cause, now, who).Ok?
    ensures var after := TakenOff(l, cause, now, who).value;
            && after.WellFormed() && after.archived && after.product.None?
            && after.archivedAt == (if l.archived then l.archivedAt else Some(now))
            && after.detachedBy == who && after.detachedAt == Some(now)
  {
    ArchivedIsWellFormed(l, cause, now, None, who);
  }

  /** A link taken off by a person is archived again only by being taken off again. */
  predicate KeepsDetach(l: Link, cause: Cause) {
    l.detachedAt.None? || cause.Detached? || cause.AttestationDetach?
  }

  /** The row as the database holds it. The methods change it in place. */
  class EvidenceStateLink {
    var isArchived: bool
    var archivedAt: Option<int>
    var archiveCause: Option<Cause>
    var archivedByProduct: Option<ProductId>
    var detachedBy: Option<string>
    var detachedAt: Option<int>

    function Row(): Link
      reads this
    {
      Link(isArchived, archivedAt, archiveCause, archivedByProduct, detachedBy, detachedAt)
    }

    constructor ()
      ensures Row() == LIVE
    {
      isArchived, archivedAt, archiveCause, archivedByProduct, detachedBy, detachedAt :=
        false, None, None, None, None, None;
    }

    method Archive(cause: Cause, now: int, product: Option<ProductId>,
                   who: Option<string>) returns (e: Option<LinkError>)
      modifies this
      ensures e.None? <==> Archived(old(Row()), cause, now, product, who).Ok?
      ensures e.Some? ==> Row() == old(Row())
      ensures e.None? ==> Ok(Row()) == Archived(old(Row()), cause, now, product, who)
      ensures e.None? && old(Row()).WellFormed() && KeepsDetach(old(Row()), cause) ==> Row().WellFormed()
    {
      if product.Some? != cause.Deactivation? {
        return Some(OnlyADeactivationNamesAProduct);
      }
      if !isArchived {
        isArchived := true;
        archivedAt := Some(now);
      }
      archiveCause := Some(cause);
      archivedByProduct := product;
      if cause.Detached? || cause.AttestationDetach? {
        detachedBy := who;
        detachedAt := Some(now);
      }
      e := None;
    }

    method Restore()
      modifies this
      ensures Row() == LIVE
    {
      isArchived := false;
      archivedAt := None;
      archiveCause := None;
      archivedByProduct := None;
      detachedBy := None;
      detachedAt := None;
    }

    method Detach(cause: Cause, now: int, who: Option<string>) returns (e: Option<LinkError>)
      requires cause.Detached? || cause.AttestationDetach?
      modifies this
      ensures e.None? <==> TakenOff(old(Row()), cause, now, who).Ok?
      ensures e.Some? ==> Row() == old(Row())
      ensures e.None? ==> Ok(Row()) == TakenOff(old(Row()), cause, now, who)
      ensures old(Row()).WellFormed() ==> Row().WellFormed()
    {
      if isArchived && archivedByProduct.None? {
        return Some(AlreadyDetached);
      }
      e := Archive(cause, now, None, who);
    }
  }

  // ---------------------------------------------------------------- all the links of an assessment

  type Links = map<LinkKey, Link>

  predicate AllWellFormed(links: Links) {
    forall k :: k in links ==> links[k].WellFormed()
  }

  function DetachIn(links: Links, k: LinkKey, cause: Cause, now: int, who: Option<string>): Result<Links, LinkError>
    requires cause.Detached? || cause.AttestationDetach?
  {
    if k !in links then Err(NotLinked)
    else match TakenOff(links[k], cause, now, who)
      case Ok(l) => Ok(links[k := l])
      case Err(e) => Err(e)
  }

  /** The links a product's deactivation archives: live ones on the objectives it covered,
      unless a person attached them as a list or document version. */
  predicate Retires(k: LinkKey, l: Link, sources: map<EvidenceId, Source>, objectives: set<Objective>) {
    l.Live() && k.objective in objectives && k.evidence in sources && sources[k.evidence].Artifact?
  }

  function ToRetire(links: Links, sources: map<EvidenceId, Source>, objectives: set<Objective>): set<LinkKey> {
    set k | k in links && Retires(k, links[k], sources, objectives)
  }

  function Retired(l: Link, now: int, p: ProductId): Link {
    Archived(l, Deactivation, now, Some(p), None).value
  }

  function RetireLinks(links: Links, sources: map<EvidenceId, Source>, objectives: set<Objective>, p: ProductId,
                       now: int): Links {
    map k | k in links :: if Retires(k, links[k], sources, objectives) then Retired(links[k], now, p) else links[k]
  }

  /** What a reactivation brings back: the links this product's deactivation archived. */
  function RestoreLinks(links: Links, p: ProductId): Links {
    map k | k in links :: if links[k].ArchivedBy(p) then LIVE else links[k]
  }

  function RestoredObjectives(links: Links, p: ProductId): set<Objective> {
    set k | k in links && links[k].ArchivedBy(p) :: k.objective
  }

  /** A deactivation followed by the same product's reactivation leaves every link as it was. */
  lemma RetireThenRestore(links: Links, sources: map<EvidenceId, Source>, objectives: set<Objective>, p: ProductId,
                          now: int)
    requires AllWellFormed(links)
    requires forall k :: k in links ==> !links[k].ArchivedBy(p)
    ensures RestoreLinks(RetireLinks(links, sources, objectives, p, now), p) == links
  {
  }
}
