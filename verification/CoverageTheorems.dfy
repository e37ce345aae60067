/** The main results about runs of the coverage engine. */
module CoverageTheorems {
  import opened Common
  import opened Rules
  import opened Baseline
  import opened EvidenceLinks
  import opened EvidenceTasks
  import opened Coverage
  import opened CoverageProofs

  // ---------------------------------------------------------------- which objectives a product covers

  /** What a product ought to cover: everything its pinned version claims, while it is active. */
  predicate Ought(s: State, p: ProductId, o: Objective) {
    p in s.products && s.products[p].status.Active? && s.products[p].pin.Some? && Claim(PinnedRows(s, p), o).Some?
  }

  /** Coverage is exact up to the pairs in missed: an active product covers exactly what its pinned
      version claims, except those. */
  ghost predicate Exact(s: State, missed: set<(Objective, ProductId)>) {
    forall o, p :: o in s.states ==> (p in s.states[o].contributors <==> Ought(s, p, o) && (o, p) !in missed)
  }

  /** The one way to miss a claim: an objective backfilled after the product was activated. It is
      missed until the product is activated again or moved off and back onto the claim. */
  ghost function MissedAfter(s: State, step: Step, missed: set<(Objective, ProductId)>): set<(Objective, ProductId)> {
    if Attempt(s, step).Err? then missed
    else match step
      case Activate(p, _) => set m | m in missed && m.1 != p
      case Deactivate(p, _, _) => set m | m in missed && m.1 != p
      case Move(p, v) => set m | m in missed && (m.1 == p
          ==> Claim(PinnedRows(s, p), m.0).Some? && Claim(s.library.RowsOf(v), m.0).Some?)
      case Backfill => missed + set o, p | o in s.catalog.objectives && o !in s.states && p in s.products
          && Ought(s, p, o) :: (o, p)
      case _ => missed
  }

  ghost function MissedBy(s: State, steps: seq<Step>, missed: set<(Objective, ProductId)>): set<(Objective,
                          ProductId)> {
    if steps == [] then missed
    else
      var before := steps[..|steps| - 1];
      MissedAfter(Run(s, before), steps[|steps| - 1], MissedBy(s, before, missed))
  }

  lemma CoveredIsOught(s: State, o: Objective, p: ProductId)
    requires Inv(s) && o in s.states && p in s.states[o].contributors
    ensures Ought(s, p, o)
  {
    assert CellFits(s.library, s.products, o, s.states[o]);
    assert ContributorFits(s.library, s.products, o, p, s.states[o].contributors[p]);
  }

  lemma ActivationPins(s: State, p: ProductId, decisions: Option<Decisions>)
    requires Activated(s, p, decisions).Ok?
    ensures var after := Activated(s, p, decisions).value;
            && Target(s, p).Ok? && after.library == s.library
            && after.products == s.products[p := OrgProduct(Active, true, Some(Target(s, p).value))]
  {
  }

  lemma ActivationMisses(s: State, p: ProductId, decisions: Option<Decisions>, missed: set<(Objective, ProductId)>)
    requires Activated(s, p, decisions).Ok?
    ensures MissedAfter(s, Activate(p, decisions), missed) == set m | m in missed && m.1 != p
  {
  }

  lemma JoinedExactAt(s: State, after: State, p: ProductId, target: VersionId, missed: set<(Objective, ProductId)>,
                      o: Objective, q: ProductId)
    requires o in s.states && o in after.states
    requires q in s.states[o].contributors <==> Ought(s, q, o) && (o, q) !in missed
    requires after.library == s.library && after.products == s.products[p := OrgProduct(Active, true, Some(target))]
    requires q in after.states[o].contributors
          <==> q in s.states[o].contributors || (q == p && Claim(s.library.RowsOf(target), o).Some?)
    requires p in s.states[o].contributors ==> Claim(s.library.RowsOf(target), o).Some?
    ensures q in after.states[o].contributors <==> Ought(after, q, o) && !((o, q) in missed && q != p)
  {
  }

  lemma ActivateExact(s: State, p: ProductId, decisions: Option<Decisions>, missed: set<(Objective, ProductId)>)
    requires Inv(s) && Exact(s, missed) && Activated(s, p, decisions).Ok?
    ensures Exact(Activated(s, p, decisions).value, MissedAfter(s, Activate(p, decisions), missed))
  {
    var after := Activated(s, p, decisions).value;
    ActivationPins(s, p, decisions);
    ActivationElsewhere(s, p, decisions);
    ActivationMisses(s, p, decisions, missed);
    forall o, q | o in after.states
      ensures q in after.states[o].contributors <==> Ought(after, q, o) && !((o, q) in missed && q != p)
    {
      ActivationAt(s, p, decisions, o);
      if p in s.states[o].contributors {
        CoveredIsOught(s, o, p);
      }
      JoinedExactAt(s, after, p, Target(s, p).value, missed, o, q);
    }
  }

  lemma LeftExactAt(s: State, after: State, p: ProductId, missed: set<(Objective, ProductId)>, o: Objective,
                    q: ProductId)
    requires o in s.states && o in after.states && p in s.products
    requires q in s.states[o].contributors <==> Ought(s, q, o) && (o, q) !in missed
    requires after.library == s.library && after.products == s.products[p := s.products[p].(status := Decommissioned)]
    requires after.states[o].contributors == s.states[o].contributors - {p}
    ensures q in after.states[o].contributors <==> Ought(after, q, o) && !((o, q) in missed && q != p)
  {
  }

  lemma DeactivationMisses(s: State, p: ProductId, r: Option<ProductId>, now: int, missed: set<(Objective, ProductId)>)
    requires Deactivated(s, p, r, now).Ok?
    ensures MissedAfter(s, Deactivate(p, r, now), missed) == set m | m in missed && m.1 != p
    ensures p in s.products
    ensures Deactivated(s, p, r, now).value.products == s.products[p := s.products[p].(status := Decommissioned)]
  {
  }

  lemma LeftContributors(states: States, p: ProductId, o: Objective)
    requires o in states
    ensures o in LeaveAll(states, p) && LeaveAll(states, p)[o].contributors == states[o].contributors - {p}
  {
  }

  lemma DeactivateExact(s: State, p: ProductId, r: Option<ProductId>, now: int, missed: set<(Objective, ProductId)>)
    requires Exact(s, missed) && Deactivated(s, p, r, now).Ok?
    ensures Exact(Deactivated(s, p, r, now).value, MissedAfter(s, Deactivate(p, r, now), missed))
  {
    var after := Deactivated(s, p, r, now).value;
    DeactivationElsewhere(s, p, r, now);
    DeactivationMisses(s, p, r, now, missed);
    forall o, q | o in after.states
      ensures q in after.states[o].contributors <==> Ought(after, q, o) && !((o, q) in missed && q != p)
    {
      LeftContributors(s.states, p, o);
      LeftExactAt(s, after, p, missed, o, q);
    }
  }

  lemma MoveExact(s: State, p: ProductId, v: VersionId, missed: set<(Objective, ProductId)>)
    requires Inv(s) && Exact(s, missed) && MovedTo(s, p, v).Ok?
    ensures Exact(MovedTo(s, p, v).value, MissedAfter(s, Move(p, v), missed))
  {
    var after := MovedTo(s, p, v).value;
    var still := MissedAfter(s, Move(p, v), missed);
    forall o, q | o in after.states
      ensures q in after.states[o].contributors <==> Ought(after, q, o) && (o, q) !in still
    {
      MoveExactAt(s, p, v, missed, o, q);
    }
  }

  lemma WhoCoversAfterMove(cs: ControlState, p: ProductId, from: Option<BaselineRow>, to: Option<BaselineRow>,
                           q: ProductId)
    requires p in cs.contributors ==> from.Some?
    ensures q in Moved(cs, p, from, to).contributors
            <==> if q == p then to.Some? && (from.Some? ==> p in cs.contributors) else q in cs.contributors
  {
  }

  ghost predicate ClaimedByBoth(s: State, p: ProductId, v: VersionId, o: Objective) {
    Claim(PinnedRows(s, p), o).Some? && Claim(s.library.RowsOf(v), o).Some?
  }

  lemma MissedAfterMove(s: State, p: ProductId, v: VersionId, missed: set<(Objective, ProductId)>,
                        m: (Objective, ProductId))
    requires MovedTo(s, p, v).Ok?
    ensures m in MissedAfter(s, Move(p, v), missed)
            <==> m in missed && (m.1 == p ==> ClaimedByBoth(s, p, v, m.0))
  {
  }

  lemma MovePins(s: State, p: ProductId, v: VersionId)
    requires MovedTo(s, p, v).Ok?
    ensures var after := MovedTo(s, p, v).value;
            && p in s.products && s.products[p].status.Active? && after.library == s.library
            && after.products == s.products[p := s.products[p].(pin := Some(v))]
            && after.states == MoveAll(s.states, p, PinnedRows(s, p), s.library.RowsOf(v))
  {
  }

  lemma MovedExactAt(s: State, after: State, p: ProductId, v: VersionId, missed: set<(Objective, ProductId)>,
                     o: Objective, q: ProductId)
    requires o in s.states && p in s.products && s.products[p].status.Active?
    requires q in s.states[o].contributors <==> Ought(s, q, o) && (o, q) !in missed
    requires p in s.states[o].contributors <==> Ought(s, p, o) && (o, p) !in missed
    requires after.library == s.library && after.products == s.products[p := s.products[p].(pin := Some(v))]
    ensures var from, to := Claim(PinnedRows(s, p), o), Claim(s.library.RowsOf(v), o);
            q in Moved(s.states[o], p, from, to).contributors
            <==> Ought(after, q, o) && !((o, q) in missed && (q == p ==> from.Some? && to.Some?))
  {
    var from, to := Claim(PinnedRows(s, p), o), Claim(s.library.RowsOf(v), o);
    WhoCoversAfterMove(s.states[o], p, from, to, q);
    assert Ought(after, q, o) <==> if q == p then to.Some? else Ought(s, q, o);
  }

  lemma MoveExactAt(s: State, p: ProductId, v: VersionId, missed: set<(Objective, ProductId)>, o: Objective,
                    q: ProductId)
    requires Exact(s, missed) && MovedTo(s, p, v).Ok? && o in s.states
    ensures var after := MovedTo(s, p, v).value;
            q in after.states[o].contributors <==> Ought(after, q, o) && (o, q) !in MissedAfter(s, Move(p, v), missed)
  {
    MissedAfterMove(s, p, v, missed, (o, q));
    MovePins(s, p, v);
    MovedExactAt(s, MovedTo(s, p, v).value, p, v, missed, o, q);
  }

  /** The steps that leave every pin and every contributor where it was. */
  lemma QuietExact(s: State, after: State, missed: set<(Objective, ProductId)>)
    requires Exact(s, missed) && Quiet(s, after)
    ensures Exact(after, missed)
  {
    forall o, q | o in after.states
      ensures q in after.states[o].contributors <==> Ought(after, q, o) && (o, q) !in missed
    {
      assert q in s.states[o].contributors <==> Ought(s, q, o) && (o, q) !in missed;
    }
  }

  /** The pair of states agrees on who covers what and on what is pinned. */
  ghost predicate Quiet(s: State, after: State) {
    && after.products == s.products && after.states.Keys == s.states.Keys
    && (forall o :: o in s.states ==> after.states[o].contributors == s.states[o].contributors)
    && (forall p :: p in s.products ==> PinnedRows(after, p) == PinnedRows(s, p))
  }

  lemma GrownLibraryIsQuiet(s: State, library: Library)
    requires Grows(s.library, library)
    requires PinsFit(s.library, s.products)
    ensures Quiet(s, s.(library := library))
  {
  }

  lemma GrowthIsQuiet(s: State, library: Library)
    requires Inv(s)
    ensures Quiet(s, Next(s, GrowLibrary(library)))
  {
    if Grows(s.library, library) {
      GrownLibraryIsQuiet(s, library);
    }
  }

  lemma EditedIsQuiet(s: State, o: Objective, status: Status)
    requires Edited(s, o, status).Ok?
    ensures Quiet(s, Edited(s, o, status).value)
  {
  }

  lemma EditIsQuiet(s: State, step: Step)
    requires step.Edit? || step.GrowCatalog?
    ensures Quiet(s, Next(s, step))
  {
    if step.Edit? && Edited(s, step.o, step.status).Ok? {
      EditedIsQuiet(s, step.o, step.status);
    }
  }

  lemma LinkingIsQuiet(s: State, step: Step)
    requires step.Attach? || step.Detach?
    ensures Quiet(s, Next(s, step))
  {
    assert Next(s, step).library == s.library && Next(s, step).products == s.products
        && Next(s, step).states == s.states;
  }

  lemma BackfillParts(s: State)
    ensures Backfilled(s).library == s.library && Backfilled(s).products == s.products
    ensures Backfilled(s).states == SeedMissing(s.states, s.catalog.objectives)
  {
    if s.catalog.objectives <= s.states.Keys {
      assert SeedMissing(s.states, s.catalog.objectives) == s.states;
    }
  }

  lemma BackfillMissesAt(s: State, missed: set<(Objective, ProductId)>, o: Objective, q: ProductId)
    ensures (o, q) in MissedAfter(s, Backfill, missed)
            <==> (o, q) in missed || (o in s.catalog.objectives && o !in s.states && Ought(s, q, o))
  {
  }

  lemma BackfillExactAt(s: State, after: State, missed: set<(Objective, ProductId)>, o: Objective, q: ProductId)
    requires after.library == s.library && after.products == s.products
    requires after.states == SeedMissing(s.states, s.catalog.objectives) && o in after.states
    requires o in s.states ==> (q in s.states[o].contributors <==> Ought(s, q, o) && (o, q) !in missed)
    ensures q in after.states[o].contributors <==>
            Ought(after, q, o) && !((o, q) in missed || (o in s.catalog.objectives && o !in s.states && Ought(s, q, o)))
  {
    assert Ought(after, q, o) <==> Ought(s, q, o);
  }

  lemma BackfillExact(s: State, missed: set<(Objective, ProductId)>)
    requires Exact(s, missed)
    ensures Exact(Backfilled(s), MissedAfter(s, Backfill, missed))
  {
    BackfillParts(s);
    var after := Backfilled(s);
    forall o, q | o in after.states
      ensures q in after.states[o].contributors <==> Ought(after, q, o) && (o, q) !in MissedAfter(s, Backfill, missed)
    {
      BackfillMissesAt(s, missed, o, q);
      BackfillExactAt(s, after, missed, o, q);
    }
  }

  lemma OtherIsQuiet(s: State, step: Step)
    requires Inv(s) && !step.Activate? && !step.Deactivate? && !step.Move? && !step.Backfill?
    ensures Quiet(s, Next(s, step))
  {
    if step.GrowLibrary? {
      GrowthIsQuiet(s, step.library);
    } else if step.Edit? || step.GrowCatalog? {
      EditIsQuiet(s, step);
    } else {
      LinkingIsQuiet(s, step);
    }
  }

  lemma OtherExact(s: State, step: Step, missed: set<(Objective, ProductId)>)
    requires Inv(s) && Exact(s, missed)
    requires !step.Activate? && !step.Deactivate? && !step.Move?
    ensures Exact(Next(s, step), MissedAfter(s, step, missed))
  {
    if step.Backfill? {
      BackfillExact(s, missed);
    } else {
      OtherIsQuiet(s, step);
      assert MissedAfter(s, step, missed) == missed;
      QuietExact(s, Next(s, step), missed);
    }
  }

  lemma NextExact(s: State, step: Step, missed: set<(Objective, ProductId)>)
    requires Inv(s) && Exact(s, missed)
    ensures Exact(Next(s, step), MissedAfter(s, step, missed))
  {
    if Attempt(s, step).Ok? {
      match step
      case Activate(p, d) => ActivateExact(s, p, d, missed);
      case Deactivate(p, r, now) => DeactivateExact(s, p, r, now, missed);
      case Move(p, v) => MoveExact(s, p, v, missed);
      case _ => OtherExact(s, step, missed);
    }
  }

  /** Over every run: who covers what is decided by the pinned versions alone, however they were
      reached, except for the pairs a backfill left behind. */
  lemma {:induction false} CoverageOverRuns(s: State, steps: seq<Step>, missed: set<(Objective, ProductId)>)
    requires Inv(s) && Exact(s, missed)
    ensures Exact(Run(s, steps), MissedBy(s, steps, missed))
  {
    if steps != [] {
      var before := steps[..|steps| - 1];
      CoverageOverRuns(s, before, missed);
      RunKeeps(s, before);
      NextExact(Run(s, before), steps[|steps| - 1], MissedBy(s, before, missed));
    }
  }

  lemma {:induction false} NothingMissed(s: State, steps: seq<Step>)
    requires forall i :: 0 <= i < |steps| ==> !steps[i].Backfill?
    ensures MissedBy(s, steps, {}) == {}
  {
    if steps != [] {
      NothingMissed(s, steps[..|steps| - 1]);
    }
  }

  /** In a run with no backfill, coverage is exactly what the pins claim. */
  lemma CoverageWithoutBackfill(s: State, steps: seq<Step>)
    requires Inv(s) && Exact(s, {})
    requires forall i :: 0 <= i < |steps| ==> !steps[i].Backfill?
    ensures Exact(Run(s, steps), {})
  {
    CoverageOverRuns(s, steps, {});
    NothingMissed(s, steps);
  }

  // ---------------------------------------------------------------- agreement with starting afresh

  /** What a new assessment's loops have built after some of the products. */
  ghost predicate BuiltFor(library: Library, catalog: Catalog, products: map<ProductId, OrgProduct>,
                           done: set<ProductId>, states: States) {
    && states.Keys == catalog.objectives
    && StatesFit(library, products, states)
    && forall o, p :: o in states ==>
         (p in states[o].contributors <==>
            p in done && Adoptable(products, p) && Claim(library.RowsOf(products[p].pin.value), o).Some?)
  }

  ghost function Done(order: seq<ProductId>): set<ProductId> {
    set p | p in order
  }

  lemma {:induction false} StartBuilds(library: Library, catalog: Catalog, products: map<ProductId, OrgProduct>,
                                       order: seq<ProductId>)
    ensures BuiltFor(library, catalog, products, Done(order), StartLoop(library, catalog, products, order).0)
  {
    if order != [] {
      var before, p := order[..|order| - 1], order[|order| - 1];
      assert order == before + [p];
      StartBuilds(library, catalog, products, before);
      assert Done(order) == Done(before) + {p};
      if Adoptable(products, p) {
        BuildsOneMore(library, catalog, products, Done(before), StartLoop(library, catalog, products, before).0, p);
        LoopIsJoinAll(StartLoop(library, catalog, products, before), catalog, p, library.RowsOf(products[p].pin.value));
      }
    }
  }

  lemma LoopIsJoinAll(sofar: (States, Board), catalog: Catalog, p: ProductId, rows: seq<BaselineRow>)
    requires sofar.0.Keys <= catalog.objectives
    ensures Loop(sofar.0, sofar.1, catalog, p, rows, None).value.0 == JoinAll(sofar.0, p, rows, None)
  {
    if !Resolvable(rows, catalog) {
      assert forall o :: o in sofar.0 ==> Claim(rows, o).None?;
      assert JoinAll(sofar.0, p, rows, None) == sofar.0;
    }
  }

  lemma BuildsOneMore(library: Library, catalog: Catalog, products: map<ProductId, OrgProduct>, done: set<ProductId>,
                      states: States, p: ProductId)
    requires BuiltFor(library, catalog, products, done, states) && Adoptable(products, p)
    ensures BuiltFor(library, catalog, products, done
          + {p}, JoinAll(states, p, library.RowsOf(products[p].pin.value), None))
  {
    JoinAllFits(library, products, states, p, None);
  }

  /** Every active product with a pinned version is among those a new assessment runs. */
  ghost predicate AllStarted(products: map<ProductId, OrgProduct>, order: seq<ProductId>) {
    forall p :: p in products && products[p].status.Active? && products[p].pin.Some? ==> Runs(products, order, p)
  }

  ghost predicate Runs(products: map<ProductId, OrgProduct>, order: seq<ProductId>, p: ProductId)
    requires p in products
  {
    products[p].configured && p in order
  }

  /** A new assessment satisfies the invariant, misses nothing, and claims nothing is met. */
  lemma StartedIsGood(library: Library, catalog: Catalog, products: map<ProductId, OrgProduct>,
                      sources: map<EvidenceId, Source>,
                      order: seq<ProductId>)
    requires library.Valid()
    requires forall o :: o in catalog.objectives ==> o.control in catalog.weights
    requires PinsFit(library, products)
    ensures var s := Started(library, catalog, products, sources, order);
            && Inv(s)
            && NothingMet(s.states)
            && (AllStarted(products, order) ==> Exact(s, {}))
  {
    StartBuilds(library, catalog, products, order);
    StartMeetsNothing(library, catalog, products, order);
    var s := Started(library, catalog, products, sources, order);
    assert s.states == StartLoop(library, catalog, products, order).0;
  }

  ghost predicate NothingMet(states: States) {
    forall o :: o in states ==> !Satisfied(states[o].status)
  }

  lemma LoopMeetsNothing(states: States, board: Board, catalog: Catalog, p: ProductId, rows: seq<BaselineRow>)
    requires NothingMet(states)
    ensures NothingMet(Loop(states, board, catalog, p, rows, None).value.0)
  {
  }

  lemma {:induction false} StartMeetsNothing(library: Library, catalog: Catalog, products: map<ProductId, OrgProduct>,
                                             order: seq<ProductId>)
    ensures NothingMet(StartLoop(library, catalog, products, order).0)
  {
    if order != [] {
      var before, p := order[..|order| - 1], order[|order| - 1];
      StartMeetsNothing(library, catalog, products, before);
      if Adoptable(products, p) {
        var (states, board) := StartLoop(library, catalog, products, before);
        LoopMeetsNothing(states, board, catalog, p, library.RowsOf(products[p].pin.value));
      }
    }
  }

  /** The same products cover an objective, each with the same classification. */
  ghost predicate SameCoverage(a: ControlState, b: ControlState) {
    && a.contributors.Keys == b.contributors.Keys
    && forall p :: p in a.contributors ==> a.contributors[p].classification == b.contributors[p].classification
  }

  lemma SameCoverageSameClasses(a: ControlState, b: ControlState)
    requires SameCoverage(a, b)
    ensures Classes(a.contributors) == Classes(b.contributors)
  {
    forall c | c in Classes(a.contributors)
      ensures c in Classes(b.contributors)
    {
      var p :| p in a.contributors && a.contributors[p].classification == c;
      assert p in b.contributors;
    }
    forall c | c in Classes(b.contributors)
      ensures c in Classes(a.contributors)
    {
      var p :| p in b.contributors && b.contributors[p].classification == c;
      assert p in a.contributors;
    }
  }

  /** The same coverage everywhere and, where anything covers an objective, the same responsibility. */
  ghost predicate Agree(states: States, afresh: States) {
    forall o :: o in states ==> o in afresh && AgreeAt(states[o], afresh[o])
  }

  ghost predicate AgreeAt(a: ControlState, b: ControlState) {
    SameCoverage(a, b) && (a.contributors != map[] ==> a.responsibility == b.responsibility)
  }

  /** Two states over the same pins, both exact, agree where they both fit them. */
  lemma ExactAgreeAt(s: State, afresh: State, o: Objective)
    requires o in s.states && o in afresh.states && s.library == afresh.library && s.products == afresh.products
    requires CellFits(s.library, s.products, o, s.states[o]) && CellFits(s.library, s.products, o, afresh.states[o])
    requires s.states[o].contributors.Keys == afresh.states[o].contributors.Keys
    ensures AgreeAt(s.states[o], afresh.states[o])
  {
    forall p | p in s.states[o].contributors
      ensures s.states[o].contributors[p].classification == afresh.states[o].contributors[p].classification
    {
      assert ContributorFits(s.library, s.products, o, p, s.states[o].contributors[p]);
      assert ContributorFits(s.library, s.products, o, p, afresh.states[o].contributors[p]);
    }
    SameCoverageSameClasses(s.states[o], afresh.states[o]);
  }

  lemma SamePinsOughtSame(s: State, afresh: State, o: Objective)
    requires Exact(s, {}) && Exact(afresh, {}) && o in s.states && o in afresh.states
    requires s.library == afresh.library && s.products == afresh.products
    ensures s.states[o].contributors.Keys == afresh.states[o].contributors.Keys
  {
    forall p
      ensures p in s.states[o].contributors <==> p in afresh.states[o].contributors
    {
      assert Ought(s, p, o) <==> Ought(afresh, p, o);
    }
  }

  /** Incremental maintenance agrees with rebuilding: in any state that misses no claim, throwing the
      assessment away and starting a new one over the same pins, in whatever order, gives every objective
      the same products, the same classifications and, where anything covers it, the same responsibility. */
  lemma AgreesWithFreshStart(s: State, order: seq<ProductId>)
    requires Inv(s) && Exact(s, {})
    requires AllStarted(s.products, order)
    ensures Agree(s.states, Started(s.library, s.catalog, s.products, s.sources, order).states)
  {
    var afresh := Started(s.library, s.catalog, s.products, s.sources, order);
    StartedIsGood(s.library, s.catalog, s.products, s.sources, order);
    StartBuilds(s.library, s.catalog, s.products, order);
    forall o | o in s.states
      ensures o in afresh.states && AgreeAt(s.states[o], afresh.states[o])
    {
      SamePinsOughtSame(s, afresh, o);
      ExactAgreeAt(s, afresh, o);
    }
  }

  ghost predicate AllConfigured(products: map<ProductId, OrgProduct>) {
    forall p :: p in products && products[p].status.Active? ==> products[p].configured
  }

  ghost predicate NamesActive(products: map<ProductId, OrgProduct>, order: seq<ProductId>) {
    forall p :: p in products && products[p].status.Active? ==> p in order
  }

  lemma OthersKeepProducts(s: State, step: Step)
    requires !step.Activate? && !step.Deactivate? && !step.Move?
    ensures Next(s, step).products == s.products
  {
  }

  lemma NextKeepsConfigured(s: State, step: Step)
    requires AllConfigured(s.products)
    ensures AllConfigured(Next(s, step).products)
  {
    match step
    case Activate(p, decisions) => if Activated(s, p, decisions).Ok? { ActivationPins(s, p, decisions); }
    case Deactivate(_, _, _) =>
    case Move(_, _) =>
    case _ => OthersKeepProducts(s, step);
  }

  lemma {:induction false} ConfiguredOverRuns(s: State, steps: seq<Step>)
    requires AllConfigured(s.products)
    ensures AllConfigured(Run(s, steps).products)
  {
    if steps != [] {
      var before := steps[..|steps| - 1];
      ConfiguredOverRuns(s, before);
      NextKeepsConfigured(Run(s, before), steps[|steps| - 1]);
    }
  }

  /** So at the end of every run of a new assessment that has missed no claim, whatever has been activated,
      deactivated, moved, edited or imported on the way. */
  lemma RunsAgreeWithFreshStart(s: State, first: seq<ProductId>, steps: seq<Step>, order: seq<ProductId>)
    requires s.library.Valid() && (forall o :: o in s.catalog.objectives ==> o.control in s.catalog.weights)
    requires s == Started(s.library, s.catalog, s.products, s.sources, first) && PinsFit(s.library, s.products)
    requires AllConfigured(s.products) && NamesActive(s.products, first)
    requires MissedBy(s, steps, {}) == {} && NamesActive(Run(s, steps).products, order)
    ensures var after := Run(s, steps);
            Agree(after.states, Started(after.library, after.catalog, after.products, after.sources, order).states)
  {
    StartedIsGood(s.library, s.catalog, s.products, s.sources, first);
    RunKeeps(s, steps);
    CoverageOverRuns(s, steps, {});
    ConfiguredOverRuns(s, steps);
    AgreesWithFreshStart(Run(s, steps), order);
  }

  // ---------------------------------------------------------------- the backfill gap is real

  const ROW := BaselineRow("AC", ["a"], Classification.ProviderSatisfies, CustomerSystem, [])

  /** One active product claiming the one objective of the catalog, which has no state yet. */
  const GAP := State(Library(map[1 := Product(true, Some(1))], map[1 := BaselineVersion(1, 1, [ROW])]),
                     Catalog({Objective("AC", "a")}, map["AC" := 5]),
                     map[1 := OrgProduct(Active, true, Some(1))], map[], Board([], {}), map[], map[], 110)

  /** A backfill leaves an active product not covering an objective its pinned version claims. */
  lemma BackfillMisses()
    ensures Inv(GAP) && Exact(GAP, {}) && !Exact(Run(GAP, [Backfill]), {})
  {
    GapIsGood();
    assert [Backfill][..0] == [];
    assert Run(GAP, [Backfill]) == Backfilled(GAP);
    GapIsMissed();
  }

  lemma GapIsGood()
    ensures Inv(GAP) && Exact(GAP, {})
  {
    assert StatusMap(GAP.states) == map[];
    assert Deducting(StatusMap(GAP.states)) == {};
  }

  lemma GapIsMissed()
    ensures !Exact(Backfilled(GAP), {})
  {
    var o := Objective("AC", "a");
    var after := Backfilled(GAP);
    assert o in GAP.catalog.objectives && o !in GAP.states;
    assert o in after.states && 1 !in after.states[o].contributors;
    assert after.products == GAP.products && after.library == GAP.library;
    assert Ought(after, 1, o);
  }

  // ---------------------------------------------------------------- nothing is met by itself

  ghost predicate SetByAPerson(o: Objective, status: Status, steps: seq<Step>) {
    exists i :: 0 <= i < |steps| && steps[i] == Edit(o, status)
  }

  /** Whatever is satisfied was so before, with the same status. */
  ghost predicate SatisfiesNothingNew(before: States, after: States) {
    forall o :: o in after && Satisfied(after[o].status) ==> o in before && before[o].status == after[o].status
  }

  lemma ActivationSatisfiesNothing(s: State, p: ProductId, decisions: Option<Decisions>)
    requires Activated(s, p, decisions).Ok?
    ensures SatisfiesNothingNew(s.states, Activated(s, p, decisions).value.states)
  {
  }

  lemma LeavingSatisfiesNothing(states: States, p: ProductId, from: seq<BaselineRow>, to: seq<BaselineRow>)
    ensures SatisfiesNothingNew(states, LeaveAll(states, p))
    ensures SatisfiesNothingNew(states, MoveAll(states, p, from, to))
  {
  }

  lemma BackfillSatisfiesNothing(s: State)
    ensures SatisfiesNothingNew(s.states, Backfilled(s).states)
  {
  }

  lemma OthersLeaveStates(s: State, step: Step)
    requires step.Attach? || step.Detach? || step.GrowLibrary? || step.GrowCatalog?
    ensures Next(s, step).states == s.states
  {
  }

  lemma StepSatisfiesNothing(s: State, step: Step)
    requires !step.Edit? && Attempt(s, step).Ok?
    ensures SatisfiesNothingNew(s.states, Next(s, step).states)
  {
    match step
    case Activate(p, decisions) => ActivationSatisfiesNothing(s, p, decisions);
    case Deactivate(p, r, now) =>
      DeactivationElsewhere(s, p, r, now);
      LeavingSatisfiesNothing(s.states, p, [], []);
    case Move(p, v) =>
      MovePins(s, p, v);
      LeavingSatisfiesNothing(s.states, p, PinnedRows(s, p), s.library.RowsOf(v));
    case Backfill => BackfillSatisfiesNothing(s);
    case _ => OthersLeaveStates(s, step);
  }

  lemma EditSatisfiesOnlyIt(s: State, o: Objective, status: Status)
    requires Edited(s, o, status).Ok?
    ensures var after := Edited(s, o, status).value;
            forall x :: x in after.states && x != o ==> x in s.states && after.states[x] == s.states[x]
    ensures o in s.states && Edited(s, o, status).value.states[o].status == status
  {
  }

  lemma NextNeverSatisfies(s: State, step: Step, o: Objective)
    requires o in Next(s, step).states && Satisfied(Next(s, step).states[o].status)
    ensures step == Edit(o, Next(s, step).states[o].status)
            || (o in s.states && s.states[o].status == Next(s, step).states[o].status)
  {
    if Attempt(s, step).Ok? {
      if step.Edit? {
        EditSatisfiesOnlyIt(s, step.o, step.status);
      } else {
        StepSatisfiesNothing(s, step);
      }
    }
  }

  /** An objective is met or inherited only because it was so at the start or a person said so. */
  lemma {:induction false} NeverAutoMet(s: State, steps: seq<Step>, o: Objective)
    requires o in Run(s, steps).states && Satisfied(Run(s, steps).states[o].status)
    ensures SetByAPerson(o, Run(s, steps).states[o].status, steps)
            || (o in s.states && s.states[o].status == Run(s, steps).states[o].status)
  {
    if steps != [] {
      var before, last := steps[..|steps| - 1], steps[|steps| - 1];
      NextNeverSatisfies(Run(s, before), last, o);
      if last != Edit(o, Run(s, steps).states[o].status) {
        NeverAutoMet(s, before, o);
        if SetByAPerson(o, Run(s, before).states[o].status, before) {
          var i :| 0 <= i < |before| && before[i] == Edit(o, Run(s, before).states[o].status);
          assert steps[i] == before[i];
        }
      }
    }
  }

  lemma ObjectivesStay(s: State, step: Step)
    ensures s.states.Keys <= Next(s, step).states.Keys
    ensures Next(s, step).catalog == s.catalog || CatalogGrows(s.catalog, Next(s, step).catalog)
  {
  }

  lemma ScoreNeverRaised(s: State, after: State)
    requires Inv(s) && Inv(after) && SatisfiesNothingNew(s.states, after.states) && s.states.Keys <= after.states.Keys
    requires after.catalog == s.catalog || CatalogGrows(s.catalog, after.catalog)
    ensures after.score <= s.score
  {
    ScoreDrop(StatusMap(s.states), StatusMap(after.states), after.catalog.weights);
    if s.catalog != after.catalog {
      ScoreUnderGrowth(s.states, s.catalog, after.catalog);
    }
  }

  lemma NextNeverRaises(s: State, step: Step)
    requires Inv(s) && !step.Edit?
    ensures Next(s, step).score <= s.score
  {
    if Attempt(s, step).Ok? {
      NextKeeps(s, step);
      ObjectivesStay(s, step);
      StepSatisfiesNothing(s, step);
      ScoreNeverRaised(s, Next(s, step));
    }
  }

  /** Without a person's edit the score never rises, and it is always the score of the states:
      from 110 down to 110 less every practice's weight. */
  lemma {:induction false} ScoreOverRuns(s: State, steps: seq<Step>)
    requires Inv(s)
    ensures var after := Run(s, steps);
            && after.score == ScoreOf(after.states, after.catalog)
            && SPRS_MAX - TotalWeight(after.catalog.weights.Keys, after.catalog.weights) <= after.score <= SPRS_MAX
            && ((forall i :: 0 <= i < |steps| ==> !steps[i].Edit?) ==> after.score <= s.score)
  {
    var after := Run(s, steps);
    RunKeeps(s, steps);
    ScoreBounds(StatusMap(after.states), after.catalog.weights);
    if steps != [] && forall i :: 0 <= i < |steps| ==> !steps[i].Edit? {
      ScoreOverRuns(s, steps[..|steps| - 1]);
      RunKeeps(s, steps[..|steps| - 1]);
      NextNeverRaises(Run(s, steps[..|steps| - 1]), steps[|steps| - 1]);
    }
  }
}
