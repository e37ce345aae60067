/** Leaving and coming back: what a deactivation and a reactivation undo, and what they never do. */
module Reactivation {
  import opened Common
  import opened Rules
  import opened Baseline
  import opened EvidenceLinks
  import opened EvidenceTasks
  import opened Coverage
  import opened CoverageProofs
  import opened CoverageTheorems

  lemma ClassesSplit(m: map<ProductId, BaselineRow>, p: ProductId)
    requires p in m
    ensures Classes(m) == Classes(m - {p}) + {m[p].classification}
  {
    forall c | c in Classes(m)
      ensures c in Classes(m - {p}) + {m[p].classification}
    {
      var q :| q in m && m[q].classification == c;
      if q != p {
        assert q in m - {p};
      }
    }
    assert forall q :: q in m - {p} ==> q in m && (m - {p})[q] == m[q];
  }

  /** One objective: leaving and rejoining with the same classification restores who covers it and
      who is responsible, and leaves it to be looked at again. */
  lemma CellRoundTrip(cs: ControlState, p: ProductId, row: BaselineRow, choice: Option<Choice>)
    requires p in cs.contributors && cs.contributors[p].classification == row.classification
    requires cs.responsibility == ResolveResponsibility(Classes(cs.contributors))
    ensures var back := Joined(Left(cs, p), p, row, choice);
            SameCoverage(cs, back) && back.responsibility == cs.responsibility && back.status == NeedsReview
  {
    ClassesSplit(cs.contributors, p);
  }

  /** The state a product's leaving and return gives. */
  ghost function ThereAndBack(s: State, p: ProductId, replacedBy: Option<ProductId>, now: int): State {
    Run(s, [Deactivate(p, replacedBy, now), Activate(p, None)])
  }

  lemma RunTwo(s: State, a: Step, b: Step)
    ensures Run(s, [a, b]) == Next(Next(s, a), b)
  {
    assert [a, b][..1] == [a] && [a][..0] == [];
    assert Run(s, [a]) == Next(Run(s, [a][..0]), a);
  }

  /** One objective after a product that missed no claim has left and returned. */
  ghost predicate CellReturns(was: ControlState, back: ControlState, p: ProductId) {
    && SameCoverage(was, back)
    && back.responsibility == was.responsibility
    && (if p in was.contributors then back.status == NeedsReview else back == was)
  }

  /** A task of the pinned version comes back: collected if it was, open otherwise. One that another
      version of the product seeded stays archived, and nobody else's changes. */
  ghost predicate TaskReturns(was: Task, back: Task, ofProduct: set<SpecId>, ofPin: set<SpecId>) {
    if FromSpecs(was, ofPin)
    then back == was.(archived := false, status := if was.status.Collected? then Collected else TaskStatus.Open)
    else if FromSpecs(was, ofProduct) && !was.archived
    then back == was.(archived := true, status := if was.status.Collected? then Collected else TaskStatus.NotApplicable)
    else back == was
  }

  ghost predicate TasksReturn(s: State, back: State, p: ProductId) {
    && |s.board.tasks| <= |back.board.tasks|
    && forall i :: 0 <= i < |s.board.tasks| ==>
         TaskReturns(s.board.tasks[i], back.board.tasks[i], s.library.SpecsOfProduct(p), SpecIds(PinnedRows(s, p)))
  }

  lemma OneTaskReturns(was: Task, ofProduct: set<SpecId>, ofPin: set<SpecId>)
    requires ofPin <= ofProduct
    ensures TaskReturns(was, RestoredTask(ArchivedTask(was, ofProduct), ofPin), ofProduct, ofPin)
  {
  }

  /** The specs of the version a product is pinned to are specs of the product. */
  lemma PinnedSpecsAreItsOwn(s: State, p: ProductId)
    requires Inv(s)
    ensures SpecIds(PinnedRows(s, p)) <= s.library.SpecsOfProduct(p)
  {
    if p in s.products && s.products[p].pin.Some? {
      assert IsVersionOf(s.library, s.products[p].pin.value, p);
    }
  }

  lemma LinksReturn(s: State, p: ProductId, now: int)
    requires Inv(s) && p in s.products && s.products[p].status.Active?
    ensures RestoreLinks(RetireLinks(s.links, s.sources, Covered(s.states, p), p, now), p) == s.links
    ensures RestoredObjectives(RetireLinks(s.links, s.sources, Covered(s.states, p), p, now), p) <= Covered(s.states, p)
  {
    assert forall k :: k in s.links ==> !s.links[k].ArchivedBy(p);
    RetireThenRestore(s.links, s.sources, Covered(s.states, p), p, now);
  }

  /** What was covered is claimed, so the return joins it again; what was not is not. */
  lemma CellReturn(s: State, p: ProductId, o: Objective, restored: bool)
    requires Inv(s) && o in s.states
    requires Ought(s, p, o) ==> p in s.states[o].contributors
    requires p in s.products && s.products[p].status.Active? && s.products[p].pin.Some?
    requires restored ==> p in s.states[o].contributors
    ensures var claim, left := Claim(PinnedRows(s, p), o), Left(s.states[o], p);
            var joined := if claim.Some? then Joined(left, p, claim.value, None) else left;
            CellReturns(s.states[o], RecheckedCell(joined, restored), p)
  {
    var claim := Claim(PinnedRows(s, p), o);
    if p in s.states[o].contributors {
      assert CellFits(s.library, s.products, o, s.states[o]);
      assert ContributorFits(s.library, s.products, o, p, s.states[o].contributors[p]);
      CellRoundTrip(s.states[o], p, claim.value, None);
    } else {
      assert claim.None?;
    }
  }

  lemma BoardReturns(s: State, gone: State, p: ProductId)
    requires SpecIds(PinnedRows(s, p)) <= s.library.SpecsOfProduct(p)
    requires gone.board.tasks == ArchiveTasks(s.board.tasks, s.library.SpecsOfProduct(p))
    ensures var rows := PinnedRows(s, p);
            var board := gone.board.(tasks := RestoreTasks(gone.board.tasks, SpecIds(rows)));
            TasksReturn(s, s.(board := board), p) && board.tasks <= FanOut(board, s.states.Keys, rows).tasks
  {
    var rows := PinnedRows(s, p);
    forall i | 0 <= i < |s.board.tasks|
      ensures TaskReturns(s.board.tasks[i], RestoreTasks(gone.board.tasks, SpecIds(rows))[i],
            s.library.SpecsOfProduct(p), SpecIds(rows))
    {
      OneTaskReturns(s.board.tasks[i], s.library.SpecsOfProduct(p), SpecIds(rows));
    }
    FanOutIsMinimal(gone.board.(tasks := RestoreTasks(gone.board.tasks, SpecIds(rows))), s.states.Keys, rows);
  }

  /** What the deactivation leaves, as far as the return looks at it. */
  ghost predicate HasLeft(s: State, gone: State, p: ProductId) {
    && gone.library == s.library && gone.catalog == s.catalog
    && p in s.products && p in gone.products && gone.products[p].pin == s.products[p].pin
    && gone.states == LeaveAll(s.states, p)
    && RestoredObjectives(gone.links, p) <= Covered(s.states, p)
  }

  lemma ReturnIsAccepted(s: State, gone: State, p: ProductId)
    requires gone.library == s.library && p in s.library.products
    requires p in s.products && s.products[p].pin.Some? && p in gone.products
    requires gone.products[p].pin == s.products[p].pin
    ensures Target(gone, p) == Ok(s.products[p].pin.value) && Activated(gone, p, None).Ok?
  {
  }

  lemma StatesReturn(s: State, gone: State, back: State, p: ProductId)
    requires Inv(s) && HasLeft(s, gone, p) && p in s.library.products
    requires s.products[p].status.Active? && s.products[p].pin.Some?
    requires forall o :: o in s.states && Ought(s, p, o) ==> p in s.states[o].contributors
    requires Activated(gone, p, None) == Ok(back)
    ensures forall o :: o in s.states ==> o in back.states && CellReturns(s.states[o], back.states[o], p)
  {
    forall o | o in s.states
      ensures o in back.states && CellReturns(s.states[o], back.states[o], p)
    {
      ActivationAt(gone, p, None, o);
      CellReturn(s, p, o, o in RestoredObjectives(gone.links, p));
    }
  }

  /** A product that missed no claim leaves and returns: every evidence link is as it was, who
      covers each objective and who is responsible are as they were, each objective it covers is
      to be looked at again and no other changed; of its tasks those collected stay so and the others
      come back open, an `na` one too. */
  lemma LeaveAndReturn(s: State, p: ProductId, replacedBy: Option<ProductId>, now: int)
    requires Inv(s)
    requires p in s.products && s.products[p].status.Active? && s.products[p].pin.Some?
    requires forall o :: o in s.states && Ought(s, p, o) ==> p in s.states[o].contributors
    requires Deactivated(s, p, replacedBy, now).Ok?
    ensures AllReturns(s, ThereAndBack(s, p, replacedBy, now), p)
  {
    var gone := Deactivated(s, p, replacedBy, now).value;
    DeactivationElsewhere(s, p, replacedBy, now);
    ReturnIsAccepted(s, gone, p);
    LinksReturn(s, p, now);
    ReturnsFrom(s, gone, Activated(gone, p, None).value, p);
    RunTwo(s, Deactivate(p, replacedBy, now), Activate(p, None));
    NextTwo(s, p, replacedBy, now);
  }

  ghost predicate AllReturns(s: State, back: State, p: ProductId) {
    && back.links == s.links
    && back.states.Keys == s.states.Keys
    && (forall o :: o in s.states ==> CellReturns(s.states[o], back.states[o], p))
    && TasksReturn(s, back, p)
  }

  lemma ReturnsFrom(s: State, gone: State, back: State, p: ProductId)
    requires Inv(s) && HasLeft(s, gone, p) && p in s.library.products && Activated(gone, p, None) == Ok(back)
    requires s.products[p].status.Active? && s.products[p].pin.Some? && Target(gone, p) == Ok(s.products[p].pin.value)
    requires forall o :: o in s.states && Ought(s, p, o) ==> p in s.states[o].contributors
    requires RestoreLinks(gone.links, p) == s.links
    requires gone.board.tasks == ArchiveTasks(s.board.tasks, s.library.SpecsOfProduct(p))
    ensures AllReturns(s, back, p)
  {
    PinnedSpecsAreItsOwn(s, p);
    StatesReturn(s, gone, back, p);
    BoardComesBack(s, gone, back, p);
    PartsReturn(s, gone, back, p);
  }

  /** The links, the objectives and the tasks of the state that came back, put together. */
  lemma PartsReturn(s: State, gone: State, back: State, p: ProductId)
    requires SpecIds(PinnedRows(s, p)) <= s.library.SpecsOfProduct(p)
    requires back.links == s.links && gone.states == LeaveAll(s.states, p) && back.states.Keys == gone.states.Keys
    requires forall o :: o in s.states ==> o in back.states && CellReturns(s.states[o], back.states[o], p)
    requires gone.board.tasks == ArchiveTasks(s.board.tasks, s.library.SpecsOfProduct(p))
    requires BoardCameBack(s, gone, back, p)
    ensures AllReturns(s, back, p)
  {
    TasksBack(s, gone, back, p);
  }

  lemma BoardComesBack(s: State, gone: State, back: State, p: ProductId)
    requires gone.library == s.library && gone.states == LeaveAll(s.states, p) && RestoreLinks(gone.links, p) == s.links
    requires p in s.products && s.products[p].pin.Some? && Target(gone, p) == Ok(s.products[p].pin.value)
    requires Activated(gone, p, None) == Ok(back)
    ensures back.links == s.links && back.states.Keys == gone.states.Keys && BoardCameBack(s, gone, back, p)
  {
    ActivationElsewhere(gone, p, None);
    assert gone.states.Keys == s.states.Keys;
  }

  ghost predicate BoardCameBack(s: State, gone: State, back: State, p: ProductId) {
    var board := gone.board.(tasks := RestoreTasks(gone.board.tasks, SpecIds(PinnedRows(s, p))));
    back.board == board || back.board == FanOut(board, s.states.Keys, PinnedRows(s, p))
  }

  lemma NextTwo(s: State, p: ProductId, replacedBy: Option<ProductId>, now: int)
    requires Deactivated(s, p, replacedBy, now).Ok? && Activated(Deactivated(s, p, replacedBy, now).value, p, None).Ok?
    ensures Next(Next(s, Deactivate(p, replacedBy, now)), Activate(p, None))
         == Activated(Deactivated(s, p, replacedBy, now).value, p, None).value
  {
  }

  lemma TasksBack(s: State, gone: State, back: State, p: ProductId)
    requires SpecIds(PinnedRows(s, p)) <= s.library.SpecsOfProduct(p)
    requires gone.board.tasks == ArchiveTasks(s.board.tasks, s.library.SpecsOfProduct(p))
    requires BoardCameBack(s, gone, back, p)
    ensures TasksReturn(s, back, p)
  {
    var rows := PinnedRows(s, p);
    BoardReturns(s, gone, p);
    var board := gone.board.(tasks := RestoreTasks(gone.board.tasks, SpecIds(rows)));
    assert forall i :: 0 <= i < |board.tasks| ==> back.board.tasks[i] == board.tasks[i];
  }

  // ---------------------------------------------------------------- what a person detached

  ghost predicate NoReattach(steps: seq<Step>, k: LinkKey) {
    forall i :: 0 <= i < |steps| ==> !(steps[i].Attach? && steps[i].k == k)
  }

  lemma NextKeepsDetached(s: State, step: Step, k: LinkKey)
    requires k in s.links && s.links[k].archived && s.links[k].product.None?
    requires !(step.Attach? && step.k == k)
    ensures k in Next(s, step).links && Next(s, step).links[k] == s.links[k]
  {
  }

  /** Once a link is archived and names no product, no run brings it back or changes the row,
      whatever products come and go, unless a person attaches that artifact there again. */
  lemma {:induction false} DetachedStays(s: State, steps: seq<Step>, k: LinkKey)
    requires k in s.links && s.links[k].archived && s.links[k].product.None?
    requires NoReattach(steps, k)
    ensures k in Run(s, steps).links && Run(s, steps).links[k] == s.links[k]
  {
    if steps != [] {
      var before := steps[..|steps| - 1];
      assert forall i :: 0 <= i < |before| ==> before[i] == steps[i];
      DetachedStays(s, before, k);
      NextKeepsDetached(Run(s, before), steps[|steps| - 1], k);
    }
  }

  /** A person detaches a link, live or already archived by a product's deactivation: no product's
      reactivation brings it back, and the date it first stopped counting is kept. */
  lemma DetachIsFinal(s: State, k: LinkKey, now: int, who: Option<string>, steps: seq<Step>)
    requires DetachedFrom(s, k, Detached, now, who).Ok? && NoReattach(steps, k)
    ensures var after := Run(Next(s, Detach(k, now, who)), steps);
            && k in after.links && after.links[k].archived
            && after.links[k].cause == Some(Detached) && after.links[k].detachedBy == who
                && after.links[k].detachedAt == Some(now)
            && after.links[k].archivedAt == if s.links[k].archived then s.links[k].archivedAt else Some(now)
  {
    DetachedStays(Next(s, Detach(k, now, who)), steps, k);
  }
}
