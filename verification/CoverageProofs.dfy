/** What holds of an assessment in every state it can reach. */
module CoverageProofs {
  import opened Common
  import opened Rules
  import opened Baseline
  import opened EvidenceLinks
  import opened EvidenceTasks
  import opened Coverage

  // ---------------------------------------------------------------- the invariant

  /** Each product covering the objective is active, its pinned version claims the objective, and
      it is counted with that version's classification: the row itself may be an older version's.
      Whoever covers it, the responsibility is what all of them together resolve to. */
  ghost predicate CellFits(library: Library, products: map<ProductId, OrgProduct>, o: Objective, cs: ControlState) {
    && (forall p :: p in cs.contributors ==> ContributorFits(library, products, o, p, cs.contributors[p]))
    && (cs.contributors != map[] ==> cs.responsibility == ResolveResponsibility(Classes(cs.contributors)))
  }

  ghost predicate ContributorFits(library: Library, products: map<ProductId, OrgProduct>, o: Objective, p: ProductId,
                                  row: BaselineRow) {
    && p in products && products[p].status.Active? && products[p].pin.Some?
    && var claim := Claim(library.RowsOf(products[p].pin.value), o);
       claim.Some? && claim.value.classification == row.classification
  }

  ghost predicate StatesFit(library: Library, products: map<ProductId, OrgProduct>, states: States) {
    forall o :: o in states ==> CellFits(library, products, o, states[o])
  }

  /** Only a product that has left names archived links, so nothing live waits to come back. */
  ghost predicate LinksFit(products: map<ProductId, OrgProduct>, links: Links) {
    && AllWellFormed(links)
    && forall k :: k in links && links[k].product.Some?
         ==> links[k].product.value in products && products[links[k].product.value].status.Decommissioned?
  }

  /** A product is pinned to a version of its own. */
  ghost predicate PinsFit(library: Library, products: map<ProductId, OrgProduct>) {
    forall p :: p in products && products[p].pin.Some? ==> IsVersionOf(library, products[p].pin.value, p)
  }

  predicate IsVersionOf(library: Library, v: VersionId, p: ProductId) {
    v in library.versions && library.versions[v].product == p
  }

  ghost predicate Inv(s: State) {
    && s.library.Valid()
    && s.states.Keys <= s.catalog.objectives
    && (forall o :: o in s.catalog.objectives ==> o.control in s.catalog.weights)
    && PinsFit(s.library, s.products)
    && StatesFit(s.library, s.products, s.states)
    && LinksFit(s.products, s.links)
    && s.score == ScoreOf(s.states, s.catalog)
  }

  // ---------------------------------------------------------------- one objective

  lemma ClassesAdd(m: map<ProductId, BaselineRow>, p: ProductId, row: BaselineRow)
    requires p !in m
    ensures Classes(m[p := row]) == Classes(m) + {row.classification}
  {
    var n := m[p := row];
    assert forall q :: q in m ==> n[q] == m[q];
    assert n[p] == row;
    forall c | c in Classes(m) + {row.classification}
      ensures c in Classes(n)
    {
      if c in Classes(m) {
        var q :| q in m && m[q].classification == c;
        assert q in n && n[q].classification == c;
      }
    }
  }

  lemma JoinedFits(library: Library, products: map<ProductId, OrgProduct>, o: Objective, cs: ControlState, p: ProductId,
                   row: BaselineRow, choice: Option<Choice>)
    requires CellFits(library, products, o, cs)
    requires ContributorFits(library, products, o, p, row)
    ensures CellFits(library, products, o, Joined(cs, p, row, choice))
  {
    if p !in cs.contributors {
      ClassesAdd(cs.contributors, p, row);
    }
  }

  lemma LeftFits(library: Library, products: map<ProductId, OrgProduct>, o: Objective, cs: ControlState, p: ProductId)
    requires CellFits(library, products, o, cs)
    ensures CellFits(library, products, o, Left(cs, p)) && p !in Left(cs, p).contributors
  {
  }

  /** A cell none of whose products changed does not notice the change of another's. */
  lemma OthersUnmoved(library: Library, products: map<ProductId, OrgProduct>, after: map<ProductId, OrgProduct>,
                      p: ProductId,
                      o: Objective, cs: ControlState)
    requires CellFits(library, products, o, cs) && p !in cs.contributors
    requires forall q :: q in products && q != p ==> q in after && after[q] == products[q]
    ensures CellFits(library, after, o, cs)
  {
  }

  lemma MovedFits(library: Library, products: map<ProductId, OrgProduct>, after: map<ProductId, OrgProduct>,
                  p: ProductId,
                  from: seq<BaselineRow>, o: Objective, cs: ControlState)
    requires CellFits(library, products, o, cs)
    requires p in products && p in after && after[p].status.Active? && after[p].pin.Some?
    requires from == if products[p].pin.Some? then library.RowsOf(products[p].pin.value) else []
    requires forall q :: q in products && q != p ==> q in after && after[q] == products[q]
    ensures CellFits(library, after, o, Moved(cs, p, Claim(from, o), Claim(library.RowsOf(after[p].pin.value), o)))
  {
    var was, claim := Claim(from, o), Claim(library.RowsOf(after[p].pin.value), o);
    if p !in cs.contributors {
      OthersUnmoved(library, products, after, p, o, cs);
      if was.None? && claim.Some? {
        JoinedFits(library, after, o, cs, p, claim.value, None);
      }
    } else {
      assert ContributorFits(library, products, o, p, cs.contributors[p]);
      if claim.None? {
        LeftFits(library, products, o, cs, p);
        OthersUnmoved(library, products, after, p, o, Left(cs, p));
      } else {
        StayedFits(library, products, after, p, o, cs, was.value, claim.value);
      }
    }
  }

  lemma StayedFits(library: Library, products: map<ProductId, OrgProduct>, after: map<ProductId, OrgProduct>,
                   p: ProductId,
                   o: Objective, cs: ControlState, was: BaselineRow, row: BaselineRow)
    requires CellFits(library, products, o, cs) && p in cs.contributors
    requires was.classification == cs.contributors[p].classification
    requires ContributorFits(library, after, o, p, row)
    requires forall q :: q in products && q != p ==> q in after && after[q] == products[q]
    ensures CellFits(library, after, o, Moved(cs, p, Some(was), Some(row)))
  {
    forall q | q in cs.contributors && q != p
      ensures ContributorFits(library, after, o, q, cs.contributors[q])
    {
      assert ContributorFits(library, products, o, q, cs.contributors[q]);
    }
  }

  // ---------------------------------------------------------------- every operation keeps it

  lemma RecheckedFits(library: Library, products: map<ProductId, OrgProduct>, states: States, restored: set<Objective>)
    requires StatesFit(library, products, states)
    ensures StatesFit(library, products, Rechecked(states, restored))
  {
  }

  lemma JoinAllFits(library: Library, products: map<ProductId, OrgProduct>, states: States, p: ProductId,
                    decisions: Option<Decisions>)
    requires StatesFit(library, products, states)
    requires p in products && products[p].status.Active? && products[p].pin.Some?
    ensures StatesFit(library, products, JoinAll(states, p, library.RowsOf(products[p].pin.value), decisions))
  {
    var rows := library.RowsOf(products[p].pin.value);
    forall o | o in states && Claim(rows, o).Some?
      ensures CellFits(library, products, o, Joined(states[o], p, Claim(rows, o).value, ChoiceFor(decisions, o)))
    {
      JoinedFits(library, products, o, states[o], p, Claim(rows, o).value, ChoiceFor(decisions, o));
    }
  }

  /** Pinning the version a product already covers by changes nothing for the cells it covers. */
  lemma PinnedFits(s: State, p: ProductId)
    requires StatesFit(s.library, s.products, s.states) && Target(s, p).Ok?
    ensures StatesFit(s.library, s.products[p := OrgProduct(Active, true, Some(Target(s, p).value))], s.states)
  {
    var products := s.products[p := OrgProduct(Active, true, Some(Target(s, p).value))];
    forall o, q | o in s.states && q in s.states[o].contributors
      ensures ContributorFits(s.library, products, o, q, s.states[o].contributors[q])
    {
      assert CellFits(s.library, s.products, o, s.states[o]);
      assert ContributorFits(s.library, s.products, o, q, s.states[o].contributors[q]);
    }
  }

  lemma RestoreFits(products: map<ProductId, OrgProduct>, links: Links, p: ProductId, op: OrgProduct)
    requires LinksFit(products, links)
    ensures LinksFit(products[p := op], RestoreLinks(links, p))
  {
  }

  lemma ActivatedKeeps(s: State, p: ProductId, decisions: Option<Decisions>)
    requires Inv(s) && Activated(s, p, decisions).Ok?
    ensures Inv(Activated(s, p, decisions).value)
  {
    var target := Target(s, p).value;
    var products := s.products[p := OrgProduct(Active, true, Some(target))];
    PinnedFits(s, p);
    JoinAllFits(s.library, products, s.states, p, decisions);
    RestoreFits(s.products, s.links, p, OrgProduct(Active, true, Some(target)));
    var rows := s.library.RowsOf(target);
    var states := if Resolvable(rows, s.catalog) then JoinAll(s.states, p, rows, decisions) else s.states;
    RecheckedFits(s.library, products, states, RestoredObjectives(s.links, p));
    assert target in s.library.versions;
    assert Activated(s, p, decisions).value.states == Rechecked(states, RestoredObjectives(s.links, p));
  }

  lemma LeaveAllFits(library: Library, products: map<ProductId, OrgProduct>, after: map<ProductId, OrgProduct>,
                     states: States, p: ProductId)
    requires StatesFit(library, products, states)
    requires forall q :: q in products && q != p ==> q in after && after[q] == products[q]
    ensures StatesFit(library, after, LeaveAll(states, p))
  {
    forall o | o in states
      ensures CellFits(library, after, o, Left(states[o], p))
    {
      LeftFits(library, products, o, states[o], p);
      OthersUnmoved(library, products, after, p, o, Left(states[o], p));
    }
  }

  lemma RetireFits(products: map<ProductId, OrgProduct>, links: Links, sources: map<EvidenceId, Source>,
                   objectives: set<Objective>,
                   p: ProductId, now: int)
    requires LinksFit(products, links) && p in products
    ensures LinksFit(products[p := products[p].(status := Decommissioned)],
          RetireLinks(links, sources, objectives, p, now))
  {
  }

  lemma DeactivatedKeeps(s: State, p: ProductId, replacedBy: Option<ProductId>, now: int)
    requires Inv(s) && Deactivated(s, p, replacedBy, now).Ok?
    ensures Inv(Deactivated(s, p, replacedBy, now).value)
  {
    LeaveAllFits(s.library, s.products, s.products[p := s.products[p].(status := Decommissioned)], s.states, p);
    RetireFits(s.products, s.links, s.sources, Covered(s.states, p), p, now);
  }

  lemma MoveAllFits(library: Library, products: map<ProductId, OrgProduct>, states: States, p: ProductId,
                    from: seq<BaselineRow>, v: VersionId)
    requires StatesFit(library, products, states) && p in products && products[p].status.Active?
    requires from == if products[p].pin.Some? then library.RowsOf(products[p].pin.value) else []
    ensures StatesFit(library, products[p := products[p].(pin := Some(v))], MoveAll(states, p, from, library.RowsOf(v)))
  {
    forall o | o in states
      ensures CellFits(library, products[p := products[p].(pin := Some(v))], o,
            Moved(states[o], p, Claim(from, o), Claim(library.RowsOf(v), o)))
    {
      MovedFits(library, products, products[p := products[p].(pin := Some(v))], p, from, o, states[o]);
    }
  }

  lemma MovedToKeeps(s: State, p: ProductId, v: VersionId)
    requires Inv(s) && MovedTo(s, p, v).Ok?
    ensures Inv(MovedTo(s, p, v).value)
  {
    MoveAllFits(s.library, s.products, s.states, p, PinnedRows(s, p), v);
  }

  lemma ScoreUnderGrowth(states: States, before: Catalog, after: Catalog)
    requires CatalogGrows(before, after)
    requires forall o :: o in states ==> o.control in before.weights
    ensures ScoreOf(states, before) == ScoreOf(states, after)
  {
    TotalWeightAgree(Deducting(StatusMap(states)), before.weights, after.weights);
  }

  lemma GrowthKeeps(s: State, step: Step)
    requires Inv(s) && (step.GrowLibrary? || step.GrowCatalog?)
    ensures Inv(Next(s, step))
  {
    if step.GrowCatalog? && CatalogGrows(s.catalog, step.catalog) {
      ScoreUnderGrowth(s.states, s.catalog, step.catalog);
    }
    if step.GrowLibrary? && Grows(s.library, step.library) {
      forall o | o in s.states
        ensures CellFits(step.library, s.products, o, s.states[o])
      {
        forall p | p in s.states[o].contributors
          ensures ContributorFits(step.library, s.products, o, p, s.states[o].contributors[p])
        {
          assert ContributorFits(s.library, s.products, o, p, s.states[o].contributors[p]);
        }
      }
    }
  }

  lemma LinksKeep(s: State, links: Links, after: State)
    requires Inv(s) && LinksFit(s.products, links) && after == s.(links := links, sources := after.sources)
    ensures Inv(after)
  {
  }

  lemma AttachFits(s: State, k: LinkKey, source: Source)
    requires LinksFit(s.products, s.links)
    ensures Attached(s, k, source).Ok? ==> LinksFit(s.products, Attached(s, k, source).value.links)
  {
  }

  lemma DetachFits(s: State, k: LinkKey, now: int, who: Option<string>)
    requires LinksFit(s.products, s.links)
    ensures var detached := DetachedFrom(s, k, Detached, now, who);
            detached.Ok? ==> LinksFit(s.products, detached.value.links)
  {
  }

  lemma AttachKeeps(s: State, k: LinkKey, source: Source, after: State)
    requires Inv(s) && Attached(s, k, source) == Ok(after)
    ensures Inv(after)
  {
    AttachFits(s, k, source);
    LinksKeep(s, after.links, after);
  }

  lemma DetachKeeps(s: State, k: LinkKey, now: int, who: Option<string>, after: State)
    requires Inv(s) && DetachedFrom(s, k, Detached, now, who) == Ok(after)
    ensures Inv(after)
  {
    DetachFits(s, k, now, who);
    LinksKeep(s, after.links, after);
  }

  lemma SeedingFits(library: Library, products: map<ProductId, OrgProduct>, states: States, objectives: set<Objective>)
    requires StatesFit(library, products, states)
    ensures StatesFit(library, products, SeedMissing(states, objectives))
  {
  }

  lemma EditingFits(library: Library, products: map<ProductId, OrgProduct>, states: States, o: Objective,
                    status: Status)
    requires StatesFit(library, products, states) && o in states
    ensures StatesFit(library, products, states[o := states[o].(status := status)])
  {
  }

  lemma BackfillKeeps(s: State)
    requires Inv(s)
    ensures Inv(Backfilled(s))
  {
    SeedingFits(s.library, s.products, s.states, s.catalog.objectives);
  }

  lemma EditKeeps(s: State, o: Objective, status: Status)
    requires Inv(s) && Edited(s, o, status).Ok?
    ensures Inv(Edited(s, o, status).value)
  {
    EditingFits(s.library, s.products, s.states, o, status);
  }

  /** One step of any kind, refused or not, keeps the invariant. */
  lemma NextKeeps(s: State, step: Step)
    requires Inv(s)
    ensures Inv(Next(s, step))
  {
    var after := Next(s, step);
    match step {
      case Activate(p, decisions) => if Activated(s, p, decisions).Ok? { ActivatedKeeps(s, p, decisions); }
      case Deactivate(p, r, now) => if Deactivated(s, p, r, now).Ok? { DeactivatedKeeps(s, p, r, now); }
      case Move(p, v) => if MovedTo(s, p, v).Ok? { MovedToKeeps(s, p, v); }
      case Backfill => BackfillKeeps(s);
      case Edit(o, status) => if Edited(s, o, status).Ok? { EditKeeps(s, o, status); }
      case Attach(k, source) => if Attached(s, k, source).Ok? { AttachKeeps(s, k, source, after); }
      case Detach(k, now, who) =>
        if DetachedFrom(s, k, Detached, now, who).Ok? { DetachKeeps(s, k, now, who, after); }
      case GrowLibrary(_) => GrowthKeeps(s, step);
      case GrowCatalog(_) => GrowthKeeps(s, step);
    }
  }

  lemma {:induction false} RunKeeps(s: State, steps: seq<Step>)
    requires Inv(s)
    ensures Inv(Run(s, steps))
  {
    if steps != [] {
      RunKeeps(s, steps[..|steps| - 1]);
      NextKeeps(Run(s, steps[..|steps| - 1]), steps[|steps| - 1]);
    }
  }

  // ---------------------------------------------------------------- an activation, objective by objective

  /** What a successful activation makes of one objective, whether or not the loop had to run. */
  lemma ActivationAt(s: State, p: ProductId, decisions: Option<Decisions>, o: Objective)
    requires Activated(s, p, decisions).Ok? && s.states.Keys <= s.catalog.objectives && o in s.states
    ensures var claim := Claim(s.library.RowsOf(Target(s, p).value), o);
            var was, choice := s.states[o], ChoiceFor(decisions, o);
            var joined := if claim.Some? then Joined(was, p, claim.value, choice) else was;
            var after := Activated(s, p, decisions).value;
            o in after.states && after.states[o] == RecheckedCell(joined, o in RestoredObjectives(s.links, p))
  {
    var rows := s.library.RowsOf(Target(s, p).value);
    assert Claim(rows, o).Some? ==> Resolvable(rows, s.catalog);
  }

  /** The rest of what a successful activation leaves. */
  lemma ActivationElsewhere(s: State, p: ProductId, decisions: Option<Decisions>)
    requires Activated(s, p, decisions).Ok?
    ensures var after := Activated(s, p, decisions).value;
            var rows := s.library.RowsOf(Target(s, p).value);
            var board := s.board.(tasks := RestoreTasks(s.board.tasks, SpecIds(rows)));
            && after.states.Keys == s.states.Keys
            && after.links == RestoreLinks(s.links, p)
            && after.board == (if Resolvable(rows, s.catalog) then FanOut(board, s.states.Keys, rows) else board)
            && after.score == ScoreOf(after.states, s.catalog)
  {
  }

  lemma DeactivationElsewhere(s: State, p: ProductId, replacedBy: Option<ProductId>, now: int)
    requires Deactivated(s, p, replacedBy, now).Ok?
    ensures var after := Deactivated(s, p, replacedBy, now).value;
            && after.library == s.library && after.catalog == s.catalog && p in s.library.products
            && after.states == LeaveAll(s.states, p)
            && p in s.products && p in after.products && after.products[p].pin == s.products[p].pin
            && after.links == RetireLinks(s.links, s.sources, Covered(s.states, p), p, now)
            && after.board.tasks == ArchiveTasks(s.board.tasks, s.library.SpecsOfProduct(p))
  {
  }
}
