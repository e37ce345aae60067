/** What each operation of the coverage engine does, read off the rows alone: statuses, products, links and
    tasks before and after, with none of the engine's own rules named. */
module CoverageEffects {
  import opened Common
  import opened Text
  import opened Rules
  import opened Baseline
  import opened EvidenceLinks
  import opened EvidenceTasks
  import opened Coverage
  import opened CoverageProofs
  import opened CoverageTheorems

  // ---------------------------------------------------------------- claims

  /** The row claims the objective: it covers it, the vendor does not disclaim it, and it is not about the
      vendor's own platform alone. */
  ghost predicate Covers(r: BaselineRow, o: Objective) {
    && r.control == o.control && o.key in r.objectives
    && (r.classification == Classification.Shared || r.classification == Classification.ProviderSatisfies)
    && (r.basis == CustomerSystem || r.basis == Assists)
  }

  ghost predicate VersionCovers(library: Library, v: VersionId, o: Objective) {
    v in library.versions && exists r :: r in library.versions[v].rows && Covers(r, o)
  }

  lemma ClaimMeans(rows: seq<BaselineRow>, o: Objective)
    ensures Claim(rows, o).Some? <==> exists r :: r in rows && Covers(r, o)
    ensures Claim(rows, o).Some? ==> Claim(rows, o).value in rows && Covers(Claim(rows, o).value, o)
  {
    forall r | r in rows
      ensures r.Claims(o) <==> Covers(r, o)
    {
    }
  }

  lemma VersionClaims(library: Library, v: VersionId, o: Objective)
    ensures Claim(library.RowsOf(v), o).Some? <==> VersionCovers(library, v, o)
    ensures var c := Claim(library.RowsOf(v), o);
            c.Some? ==> v in library.versions && c.value in library.versions[v].rows && Covers(c.value, o)
  {
    ClaimMeans(library.RowsOf(v), o);
  }

  // ---------------------------------------------------------------- who is responsible

  ghost predicate SomeShared(contributors: map<ProductId, BaselineRow>) {
    exists p :: p in contributors && contributors[p].classification == Classification.Shared
  }

  /** One product with a customer action keeps the objective shared. */
  ghost predicate RightlyResponsible(cs: ControlState) {
    cs.responsibility == if SomeShared(cs.contributors) then Responsibility.Shared
                         else Responsibility.ProviderSatisfies
  }

  lemma ResolvedRightly(contributors: map<ProductId, BaselineRow>)
    ensures ResolveResponsibility(Classes(contributors))
         == if SomeShared(contributors) then Responsibility.Shared else Responsibility.ProviderSatisfies
  {
    if SomeShared(contributors) {
      var p :| p in contributors && contributors[p].classification == Classification.Shared;
      assert contributors[p].classification in Classes(contributors);
    }
  }

  /** In every state of every run, whatever joined, left or moved: an objective something covers is shared
      exactly when one of the rows covering it is, and the provider's otherwise. */
  lemma ResponsibilityOverRuns(s: State, steps: seq<Step>, o: Objective)
    requires Inv(s) && o in Run(s, steps).states && Run(s, steps).states[o].contributors != map[]
    ensures RightlyResponsible(Run(s, steps).states[o])
  {
    RunKeeps(s, steps);
    var after := Run(s, steps);
    assert CellFits(after.library, after.products, o, after.states[o]);
    ResolvedRightly(after.states[o].contributors);
  }

  /** And who covers it: in a run that missed no claim, the active products whose pinned version has a row
      that covers it, and no others. */
  lemma CoveredByOverRuns(s: State, steps: seq<Step>, o: Objective, p: ProductId)
    requires Inv(s) && Exact(s, {}) && MissedBy(s, steps, {}) == {} && o in Run(s, steps).states
    ensures var after := Run(s, steps);
            p in after.states[o].contributors <==>
              && p in after.products && after.products[p].status == Active && after.products[p].pin.Some?
              && VersionCovers(after.library, after.products[p].pin.value, o)
  {
    CoverageOverRuns(s, steps, {});
    var after := Run(s, steps);
    if p in after.products && after.products[p].pin.Some? {
      VersionClaims(after.library, after.products[p].pin.value, o);
    }
    assert p in after.states[o].contributors <==> Ought(after, p, o);
  }

  // ---------------------------------------------------------------- activation

  /** The version adopted before, or the published one in force. */
  ghost predicate Adopts(s: State, p: ProductId, v: VersionId) {
    && p in s.library.products
    && if p in s.products && s.products[p].pin.Some? then s.products[p].pin == Some(v)
       else s.library.products[p].published && s.library.products[p].current == Some(v)
  }

  lemma TargetIs(s: State, p: ProductId)
    ensures Target(s, p).Ok? ==> Adopts(s, p, Target(s, p).value)
    ensures forall v: VersionId :: Adopts(s, p, v) ==> Target(s, p) == Ok(v)
    ensures Target(s, p) == Err(UnknownProduct) <==> p !in s.library.products
    ensures Target(s, p) == Err(NotPublished) <==> NeverAdopted(s, p) && !s.library.products[p].published
    ensures Target(s, p) == Err(NoVersion) <==> NeverAdopted(s, p) && HasNoVersion(s.library.products[p])
  {
  }

  ghost predicate NeverAdopted(s: State, p: ProductId) {
    p in s.library.products && (p in s.products ==> s.products[p].pin.None?)
  }

  ghost predicate HasNoVersion(p: Product) {
    p.published && p.current.None?
  }

  /** Evidence this product's departure took away. */
  ghost predicate ComesBack(s: State, p: ProductId, o: Objective) {
    exists k :: k in s.links && k.objective == o && s.links[k].archived && s.links[k].product == Some(p)
  }

  /** Nothing covered it, a person had judged it, and this product will. */
  ghost predicate InQuestion(s: State, p: ProductId, v: VersionId, o: Objective) {
    && o in s.states && VersionCovers(s.library, v, o) && s.states[o].contributors == map[]
    && SetByJudgement(s.states[o].status)
  }

  /** Not a status the engine sets by itself. */
  ghost predicate SetByJudgement(status: Status) {
    status != NotMet && status != PendingEvidence && status != NeedsReview
  }

  /** A person was shown exactly what is in question, as it is, and answered. */
  ghost predicate AnsweredAsShown(s: State, p: ProductId, v: VersionId, decisions: Decisions) {
    && (forall o :: o in decisions <==> InQuestion(s, p, v, o))
    && (forall o :: o in decisions && o in s.states ==> decisions[o].shown == s.states[o].status)
    && (forall o :: o in decisions ==> decisions[o].choice == Keep || decisions[o].choice == Recheck)
  }

  lemma QuestionsAre(s: State, p: ProductId, v: VersionId, o: Objective)
    ensures o in JudgedSet(s.states, p, s.library.RowsOf(v)) <==> InQuestion(s, p, v, o)
  {
    VersionClaims(s.library, v, o);
  }

  lemma AnswersAre(s: State, p: ProductId, v: VersionId, decisions: Decisions)
    ensures Answers(decisions, s.states, p, s.library.RowsOf(v)) <==> AnsweredAsShown(s, p, v, decisions)
  {
    forall o
      ensures o in JudgedSet(s.states, p, s.library.RowsOf(v)) <==> InQuestion(s, p, v, o)
    {
      QuestionsAre(s, p, v, o);
    }
  }

  ghost predicate SomeCovered(s: State, v: VersionId) {
    exists o :: o in s.catalog.objectives && VersionCovers(s.library, v, o)
  }

  lemma ResolvableIs(s: State, v: VersionId)
    ensures Resolvable(s.library.RowsOf(v), s.catalog) <==> SomeCovered(s, v)
  {
    forall o
      ensures Claim(s.library.RowsOf(v), o).Some? <==> VersionCovers(s.library, v, o)
    {
      VersionClaims(s.library, v, o);
    }
  }

  /** An activation is refused exactly so: the product unknown, or never adopted and not published or
      without a version, or the answers not to exactly what is in question. */
  lemma ActivationRefusals(s: State, p: ProductId, decisions: Option<Decisions>)
    ensures Target(s, p).Err? ==> Activated(s, p, decisions) == Err(Target(s, p).error)
    ensures forall v: VersionId :: Adopts(s, p, v) ==>
              if WronglyAnswered(s, p, v, decisions) then Activated(s, p, decisions) == Err(DecisionsRefused)
              else Activated(s, p, decisions).Ok?
  {
    TargetIs(s, p);
    forall v: VersionId | Adopts(s, p, v)
      ensures if WronglyAnswered(s, p, v, decisions) then Activated(s, p, decisions) == Err(DecisionsRefused)
              else Activated(s, p, decisions).Ok?
    {
      ResolvableIs(s, v);
      if decisions.Some? {
        AnswersAre(s, p, v, decisions.value);
      }
    }
  }

  ghost predicate WronglyAnswered(s: State, p: ProductId, v: VersionId, decisions: Option<Decisions>) {
    decisions.Some? && SomeCovered(s, v) && !AnsweredAsShown(s, p, v, decisions.value)
  }

  /** The status after an activation: first if nothing covered the objective and this product now does, kept
      if a person chose to keep it, back if evidence came back on it. */
  ghost predicate StatusAfter(was: Status, first: bool, kept: bool, back: bool, now: Status) {
    match was
    case NotMet => now == if first then (if back then NeedsReview else PendingEvidence) else NotMet
    case PendingEvidence => now == if back then NeedsReview else PendingEvidence
    case NeedsReview => now == NeedsReview
    case _ => now == if first && !kept then NeedsReview else was
  }

  ghost predicate KeptByAPerson(decisions: Option<Decisions>, o: Objective) {
    decisions.Some? && o in decisions.value && decisions.value[o].choice == Keep
  }

  /** One objective before and after: a product not yet covering it joins if its version covers it. */
  ghost predicate CellActivated(s: State, p: ProductId, v: VersionId, o: Objective, kept: bool, now: ControlState)
    requires o in s.states
  {
    var was := s.states[o];
    if VersionCovers(s.library, v, o) && p !in was.contributors then
      && StatusAfter(was.status, was.contributors == map[], kept, ComesBack(s, p, o), now.status)
      && now.contributors.Keys == was.contributors.Keys + {p}
      && (forall q :: q in was.contributors ==> now.contributors[q] == was.contributors[q])
      && now.contributors[p] in s.library.versions[v].rows && Covers(now.contributors[p], o)
      && RightlyResponsible(now)
    else
      && StatusAfter(was.status, false, kept, ComesBack(s, p, o), now.status)
      && now.contributors == was.contributors && now.responsibility == was.responsibility
  }

  lemma JoinedCell(was: ControlState, p: ProductId, row: BaselineRow, choice: Option<Choice>)
    requires p !in was.contributors
    ensures var now := Joined(was, p, row, choice);
            && now.contributors == was.contributors[p := row] && RightlyResponsible(now)
            && StatusAfter(was.status, was.contributors == map[], choice == Some(Keep), false, now.status)
  {
    ClassesAdd(was.contributors, p, row);
    ResolvedRightly(was.contributors[p := row]);
  }

  lemma ActivatedCell(s: State, p: ProductId, v: VersionId, o: Objective, choice: Option<Choice>, now: ControlState)
    requires o in s.states
    requires var claim, was := Claim(s.library.RowsOf(v), o), s.states[o];
             now == RecheckedCell(if claim.Some? then Joined(was, p, claim.value, choice) else was, ComesBack(s, p, o))
    ensures CellActivated(s, p, v, o, choice == Some(Keep), now)
  {
    VersionClaims(s.library, v, o);
    var claim := Claim(s.library.RowsOf(v), o);
    if claim.Some? && p !in s.states[o].contributors {
      JoinedCell(s.states[o], p, claim.value, choice);
    }
  }

  lemma RestoredAre(s: State, p: ProductId, o: Objective)
    ensures o in RestoredObjectives(s.links, p) <==> ComesBack(s, p, o)
  {
  }

  /** What an activation makes of every objective. */
  lemma ActivationEffect(s: State, p: ProductId, v: VersionId, decisions: Option<Decisions>, o: Objective)
    requires s.states.Keys <= s.catalog.objectives && o in s.states
    requires Adopts(s, p, v) && Activated(s, p, decisions).Ok?
    ensures var after := Activated(s, p, decisions).value;
            && after.states.Keys == s.states.Keys
            && CellActivated(s, p, v, o, KeptByAPerson(decisions, o), after.states[o])
  {
    TargetIs(s, p);
    ActivationElsewhere(s, p, decisions);
    ActivationAt(s, p, decisions, o);
    RestoredAre(s, p, o);
    ActivatedCell(s, p, v, o, ChoiceFor(decisions, o), Activated(s, p, decisions).value.states[o]);
  }

  /** A task asked for by a row of the version, or of the product's. */
  ghost predicate AskedByVersion(library: Library, v: VersionId, t: Task) {
    v in library.versions && exists r, spec ::
      r in library.versions[v].rows && spec in r.specs && t.spec == Some(spec.id)
  }

  lemma AskedBySpecs(library: Library, v: VersionId, t: Task)
    ensures FromSpecs(t, SpecIds(library.RowsOf(v))) <==> AskedByVersion(library, v, t)
  {
    if AskedByVersion(library, v, t) {
      var r, spec :| r in library.versions[v].rows && spec in r.specs && t.spec == Some(spec.id);
      assert spec.id in SpecIds(library.RowsOf(v));
    }
  }

  ghost predicate LinkRestored(was: Link, now: Link, p: ProductId) {
    if was.archived && was.product == Some(p) then now == Link(false, None, None, None, None, None) else now == was
  }

  ghost predicate TaskRestored(library: Library, v: VersionId, was: Task, now: Task) {
    if was.archived && AskedByVersion(library, v, was)
    then now == was.(archived := false,
                     status := if was.status == TaskStatus.NotApplicable then TaskStatus.Open else was.status)
    else now == was
  }

  /** And of the rest: the product is active at that version, the links its departure archived are live
      again, so are the version's tasks, and what was there stays. */
  lemma ActivationLeaves(s: State, p: ProductId, v: VersionId, decisions: Option<Decisions>)
    requires Adopts(s, p, v) && Activated(s, p, decisions).Ok?
    ensures var after := Activated(s, p, decisions).value;
            && after.library == s.library && after.catalog == s.catalog && after.sources == s.sources
            && after.products == s.products[p := OrgProduct(Active, true, Some(v))]
            && after.links.Keys == s.links.Keys
            && (forall k :: k in s.links ==> LinkRestored(s.links[k], after.links[k], p))
            && |s.board.tasks| <= |after.board.tasks|
            && forall i :: 0 <= i < |s.board.tasks| ==>
                 TaskRestored(s.library, v, s.board.tasks[i], after.board.tasks[i])
  {
    TargetIs(s, p);
    ActivationElsewhere(s, p, decisions);
    ActivationPins(s, p, decisions);
    var rows := s.library.RowsOf(v);
    var board := s.board.(tasks := RestoreTasks(s.board.tasks, SpecIds(rows)));
    FanOutIsMinimal(board, s.states.Keys, rows);
    var after := Activated(s, p, decisions).value;
    assert board.tasks <= after.board.tasks;
    forall i | 0 <= i < |s.board.tasks|
      ensures TaskRestored(s.library, v, s.board.tasks[i], after.board.tasks[i])
    {
      AskedBySpecs(s.library, v, s.board.tasks[i]);
      assert after.board.tasks[i] == board.tasks[i];
    }
  }

  // ---------------------------------------------------------------- the evidence asked for

  /** A counted row asks for the artifact. */
  ghost predicate Asks(rows: seq<BaselineRow>, r: BaselineRow, spec: EvidenceSpec) {
    && r in rows && spec in r.specs
    && (r.classification == Classification.Shared || r.classification == Classification.ProviderSatisfies)
    && (r.basis == CustomerSystem || r.basis == Assists)
  }

  /** It is asked for on the objective, which has a state. */
  ghost predicate AsksOn(rows: seq<BaselineRow>, scope: set<Objective>, r: BaselineRow, spec: EvidenceSpec,
                         o: Objective) {
    Asks(rows, r, spec) && o in scope && o.control == r.control && o.key in r.objectives
  }

  ghost predicate SameArtifact(t: Task, u: Task) {
    Lower(Trim(t.title)) == Lower(Trim(u.title)) && t.kind == u.kind
  }

  /** The task was made for the spec, or is for the same artifact. */
  ghost predicate For(t: Task, spec: EvidenceSpec) {
    t.spec == Some(spec.id) || (Lower(Trim(t.title)) == Lower(Trim(spec.description)) && t.kind == spec.kind)
  }

  lemma {:induction false} NeedsAre(rows: seq<BaselineRow>, n: Need)
    ensures n in NeedsOf(rows) <==> Asks(rows, n.row, n.spec)
  {
    if rows != [] {
      var init, last := rows[..|rows| - 1], rows[|rows| - 1];
      NeedsAre(init, n);
      assert rows == init + [last];
      if n.row == last && n.spec in last.specs && last.Counts() {
        var i :| 0 <= i < |last.specs| && last.specs[i] == n.spec;
        assert NeedsOfRow(last, |last.specs|)[i] == n;
      }
    }
  }

  lemma TargetsAre(rows: seq<BaselineRow>, scope: set<Objective>, n: Need, o: Objective)
    requires n in NeedsOf(rows)
    ensures o in n.Targets(scope) <==> AsksOn(rows, scope, n.row, n.spec, o)
  {
    NeedsAre(rows, n);
    if AsksOn(rows, scope, n.row, n.spec, o) {
      assert Objective(n.row.control, o.key) == o;
    }
  }

  lemma ForNeeds(t: Task, n: Need)
    ensures Serves(t, n) <==> For(t, n.spec)
  {
  }

  ghost predicate ServedOn(after: Board, spec: EvidenceSpec, o: Objective) {
    exists t :: 0 <= t < |after.tasks| && (t, o) in after.links && For(after.tasks[t], spec)
  }

  /** What is asked for is there, made or found, on every objective it is asked for on. */
  lemma RequestsAreServed(board: Board, scope: set<Objective>, rows: seq<BaselineRow>, r: BaselineRow,
                          spec: EvidenceSpec, o: Objective)
    requires AsksOn(rows, scope, r, spec, o)
    ensures ServedOn(FanOut(board, scope, rows), spec, o)
  {
    var n, after := Need(r, spec), FanOut(board, scope, rows);
    NeedsAre(rows, n);
    TargetsAre(rows, scope, n, o);
    FanOutIsMinimal(board, scope, rows);
    var t :| 0 <= t < |after.tasks| && (t, o) in after.links && Serves(after.tasks[t], n);
    ForNeeds(after.tasks[t], n);
  }

  /** A request on the objective that the task is for. */
  ghost predicate RequestedOn(rows: seq<BaselineRow>, scope: set<Objective>, t: Task, o: Objective) {
    exists r, spec :: AsksOn(rows, scope, r, spec, o) && For(t, spec)
  }

  /** And nothing else is: a link that is new is one asked for. */
  lemma OnlyRequestsAreLinked(board: Board, scope: set<Objective>, rows: seq<BaselineRow>, t: nat, o: Objective)
    requires (t, o) in FanOut(board, scope, rows).links && (t, o) !in board.links
    ensures var after := FanOut(board, scope, rows);
            t < |after.tasks| && RequestedOn(rows, scope, after.tasks[t], o)
  {
    var needs := NeedsOf(rows);
    var f := FanNeeds(board, scope, needs);
    FanOutEffect(board, scope, needs);
    assert LinkWanted(board.tasks, scope, needs, f, (t, o));
    var n :| n in needs && o in n.Targets(scope) && TaskFor(board.tasks, f.added, n) == Some(t);
    TargetsAre(rows, scope, n, o);
    TaskForServes(board.tasks, needs, f, n, t);
  }

  lemma TaskForServes(before: seq<Task>, needs: seq<Need>, f: Fan, n: Need, t: nat)
    requires TasksFit(before, needs, f) && TaskFor(before, f.added, n) == Some(t)
    ensures t < |f.board.tasks| && For(f.board.tasks[t], n.spec)
  {
    assert Existing(before, n).Some? ==> f.board.tasks[t] == before[t];
    ForNeeds(f.board.tasks[t], n);
  }

  /** Made for a request that no task there was could serve. */
  ghost predicate MadeFor(before: seq<Task>, rows: seq<BaselineRow>, t: Task) {
    exists r, spec :: Asks(rows, r, spec) && (forall u :: u in before ==> !For(u, spec))
      && t == Task(Some(spec.id), spec.description, spec.kind, TaskStatus.Open, false)
  }

  /** Tasks there were stay as they were; each new one is open, for a request none of them could serve, and
      for an artifact that no other task is for. */
  lemma NewTasksAreNeeded(board: Board, scope: set<Objective>, rows: seq<BaselineRow>)
    ensures var after := FanOut(board, scope, rows);
            && board.tasks <= after.tasks && board.links <= after.links
            && (forall i :: |board.tasks| <= i < |after.tasks| ==> MadeFor(board.tasks, rows, after.tasks[i]))
            && forall i, j :: |board.tasks| <= i < |after.tasks| && 0 <= j < |after.tasks| && i != j
                 ==> !SameArtifact(after.tasks[i], after.tasks[j])
  {
    var needs := NeedsOf(rows);
    var f := FanNeeds(board, scope, needs);
    FanOutEffect(board, scope, needs);
    FanOutIsMinimal(board, scope, rows);
    forall i | |board.tasks| <= i < |f.board.tasks|
      ensures MadeFor(board.tasks, rows, f.board.tasks[i])
    {
      assert IsSeeded(board.tasks, needs, f.board.tasks[i]);
      var n :| n in needs && Unmatched(board.tasks, n) && f.board.tasks[i] == SeededTask(n);
      UnmatchedIsUnserved(board.tasks, rows, n);
    }
    forall i, j | |board.tasks| <= i < |f.board.tasks| && 0 <= j < |f.board.tasks| && i != j
      ensures !SameArtifact(f.board.tasks[i], f.board.tasks[j])
    {
      assert TaskKey(f.board.tasks[i]) != TaskKey(f.board.tasks[j]);
    }
  }

  lemma UnmatchedIsUnserved(before: seq<Task>, rows: seq<BaselineRow>, n: Need)
    requires n in NeedsOf(rows) && Unmatched(before, n)
    ensures Asks(rows, n.row, n.spec) && forall u :: u in before ==> !For(u, n.spec)
  {
    NeedsAre(rows, n);
    forall u | u in before
      ensures !For(u, n.spec)
    {
      var i :| 0 <= i < |before| && before[i] == u;
      assert before[i].spec != Some(n.spec.id) && TaskKey(before[i]) != n.Key();
    }
  }

  /** An activation asks for all its version asks for, on every objective with a state. */
  lemma ActivationAsks(s: State, p: ProductId, v: VersionId, decisions: Option<Decisions>, r: BaselineRow,
                       spec: EvidenceSpec, o: Objective)
    requires s.states.Keys <= s.catalog.objectives && Adopts(s, p, v) && Activated(s, p, decisions).Ok?
    requires AsksOn(s.library.RowsOf(v), s.states.Keys, r, spec, o)
    ensures ServedOn(Activated(s, p, decisions).value.board, spec, o)
  {
    TargetIs(s, p);
    ActivationElsewhere(s, p, decisions);
    ResolvableIs(s, v);
    assert Covers(r, o) && VersionCovers(s.library, v, o);
    var board := s.board.(tasks := RestoreTasks(s.board.tasks, SpecIds(s.library.RowsOf(v))));
    RequestsAreServed(board, s.states.Keys, s.library.RowsOf(v), r, spec, o);
  }

  // ---------------------------------------------------------------- deactivation

  /** A deactivation is refused exactly so. */
  lemma DeactivationRefusals(s: State, p: ProductId, replacedBy: Option<ProductId>, now: int)
    ensures var r := Deactivated(s, p, replacedBy, now);
            if p !in s.library.products then r == Err(UnknownProduct)
            else if p !in s.products then r == Err(NotAdopted)
            else if replacedBy == Some(p) then r == Err(OwnReplacement)
            else if replacedBy.Some? && replacedBy.value !in s.library.products then r == Err(UnknownProduct)
            else r.Ok?
  {
  }

  /** What the product covered is to be looked at again and its survivors say who is responsible; if there
      are none, whoever was is. What it did not cover is as it was. */
  ghost predicate CellLeft(was: ControlState, p: ProductId, now: ControlState) {
    if p in was.contributors then
      && now.status == NeedsReview && now.contributors == was.contributors - {p}
      && if now.contributors == map[] then now.responsibility == was.responsibility else RightlyResponsible(now)
    else now == was
  }

  lemma LeftCell(was: ControlState, p: ProductId)
    ensures CellLeft(was, p, Left(was, p))
  {
    ResolvedRightly(was.contributors - {p});
  }

  /** A live link on what the product covered, to an artifact no person attached as a list or document. */
  ghost predicate GoesWith(s: State, p: ProductId, k: LinkKey) {
    && k in s.links && !s.links[k].archived
    && k.objective in s.states && p in s.states[k.objective].contributors
    && k.evidence in s.sources && s.sources[k.evidence] == Artifact
  }

  ghost predicate LinkAfterLeaving(s: State, p: ProductId, now: int, k: LinkKey, after: Link)
    requires k in s.links
  {
    var was := s.links[k];
    if GoesWith(s, p, k)
    then after == was.(archived := true, archivedAt := Some(now), cause := Some(Deactivation), product := Some(p))
    else after == was
  }

  ghost predicate AskedByProduct(library: Library, p: ProductId, t: Task) {
    exists v :: v in library.versions && library.versions[v].product == p && AskedByVersion(library, v, t)
  }

  lemma AskedByProducts(library: Library, p: ProductId, t: Task)
    ensures FromSpecs(t, library.SpecsOfProduct(p)) <==> AskedByProduct(library, p, t)
  {
    if AskedByProduct(library, p, t) {
      var v :| v in library.versions && library.versions[v].product == p && AskedByVersion(library, v, t);
      AskedBySpecs(library, v, t);
    }
    if FromSpecs(t, library.SpecsOfProduct(p)) {
      var v :| v in library.versions && library.versions[v].product == p
          && t.spec.value in SpecIds(library.versions[v].rows);
      AskedBySpecs(library, v, t);
    }
  }

  ghost predicate TaskAfterLeaving(library: Library, p: ProductId, was: Task, now: Task) {
    if !was.archived && AskedByProduct(library, p, was)
    then now == was.(archived := true,
                     status := if was.status == TaskStatus.Open then TaskStatus.NotApplicable else was.status)
    else now == was
  }

  /** What a deactivation makes of every objective, link and task. */
  lemma DeactivationEffect(s: State, p: ProductId, replacedBy: Option<ProductId>, now: int)
    requires Deactivated(s, p, replacedBy, now).Ok?
    ensures var after := Deactivated(s, p, replacedBy, now).value;
            && after.states.Keys == s.states.Keys
            && (forall o :: o in s.states ==> CellLeft(s.states[o], p, after.states[o]))
            && after.links.Keys == s.links.Keys
            && (forall k :: k in s.links ==> LinkAfterLeaving(s, p, now, k, after.links[k]))
            && |after.board.tasks| == |s.board.tasks|
            && forall i :: 0 <= i < |s.board.tasks| ==>
                 TaskAfterLeaving(s.library, p, s.board.tasks[i], after.board.tasks[i])
  {
    DeactivationElsewhere(s, p, replacedBy, now);
    forall o | o in s.states
      ensures CellLeft(s.states[o], p, Left(s.states[o], p))
    {
      LeftCell(s.states[o], p);
    }
    forall i | 0 <= i < |s.board.tasks|
      ensures TaskAfterLeaving(s.library, p, s.board.tasks[i],
            ArchivedTask(s.board.tasks[i], s.library.SpecsOfProduct(p)))
    {
      AskedByProducts(s.library, p, s.board.tasks[i]);
    }
  }

  /** And of the rest: the product is decommissioned, its pin and everything else kept. */
  lemma DeactivationLeaves(s: State, p: ProductId, replacedBy: Option<ProductId>, now: int)
    requires Deactivated(s, p, replacedBy, now).Ok?
    ensures var after := Deactivated(s, p, replacedBy, now).value;
            && p in s.products && after.products == s.products[p := s.products[p].(status := Decommissioned)]
            && after.library == s.library && after.catalog == s.catalog && after.sources == s.sources
            && after.board.links == s.board.links
  {
  }

  // ---------------------------------------------------------------- version move

  /** A move is refused exactly so. */
  lemma MoveRefusals(s: State, p: ProductId, v: VersionId)
    ensures var r := MovedTo(s, p, v);
            if p !in s.products || s.products[p].status != Active then r == Err(NotActive)
            else if s.products[p].pin == Some(v) then r == Err(AlreadyOnVersion)
            else if v !in s.library.versions || s.library.versions[v].product != p then r == Err(WrongVersion)
            else if p !in s.library.products then r == Err(UnknownProduct)
            else r.Ok?
  {
  }

  ghost predicate PinCovers(s: State, p: ProductId, o: Objective) {
    p in s.products && s.products[p].pin.Some? && VersionCovers(s.library, s.products[p].pin.value, o)
  }

  /** Both versions cover the objective, one as shared and the other as the provider's alone. */
  ghost predicate Reclassified(s: State, p: ProductId, v: VersionId, o: Objective)
    requires p in s.products && s.products[p].pin.Some?
  {
    var from := s.products[p].pin.value;
    && from in s.library.versions && v in s.library.versions
    && exists q, r :: q in s.library.versions[from].rows && r in s.library.versions[v].rows
         && Covers(q, o) && Covers(r, o) && q.classification != r.classification
  }

  /** The product joins the objective, leaves it, covers it in another way, or is left alone. */
  ghost predicate CellMoved(s: State, p: ProductId, v: VersionId, o: Objective, now: ControlState)
    requires o in s.states && p in s.products
  {
    var was, did, does := s.states[o], PinCovers(s, p, o), VersionCovers(s.library, v, o);
    if did && !does then CellLeft(was, p, now)
    else if does && !did && p !in was.contributors then
      && StatusAfter(was.status, was.contributors == map[], false, false, now.status)
      && Joins(s.library, v, o, was, p, now)
    else if does && did && p in was.contributors && Reclassified(s, p, v, o) then
      && now.status == NeedsReview && Joins(s.library, v, o, was, p, now)
    else now == was
  }

  /** The product covers the objective by a row of the version, everybody else as before. */
  ghost predicate Joins(library: Library, v: VersionId, o: Objective, was: ControlState, p: ProductId,
                        now: ControlState) {
    && now.contributors.Keys == was.contributors.Keys + {p}
    && (forall q :: q in was.contributors && q != p ==> now.contributors[q] == was.contributors[q])
    && v in library.versions && now.contributors[p] in library.versions[v].rows && Covers(now.contributors[p], o)
    && RightlyResponsible(now)
  }

  lemma PinnedClaims(s: State, p: ProductId, o: Objective)
    ensures Claim(PinnedRows(s, p), o).Some? <==> PinCovers(s, p, o)
    ensures var c := Claim(PinnedRows(s, p), o);
            c.Some? ==> s.products[p].pin.value in s.library.versions
                        && c.value in s.library.versions[s.products[p].pin.value].rows && Covers(c.value, o)
  {
    if p in s.products && s.products[p].pin.Some? {
      VersionClaims(s.library, s.products[p].pin.value, o);
    }
  }

  lemma ReclassifiedIs(s: State, p: ProductId, v: VersionId, o: Objective)
    requires s.library.Valid() && p in s.products && s.products[p].pin.Some?
    requires Claim(PinnedRows(s, p), o).Some? && Claim(s.library.RowsOf(v), o).Some?
    ensures Reclassified(s, p, v, o) <==>
            Claim(PinnedRows(s, p), o).value.classification != Claim(s.library.RowsOf(v), o).value.classification
  {
    PinnedClaims(s, p, o);
    VersionClaims(s.library, v, o);
    if Reclassified(s, p, v, o) {
      var from := s.products[p].pin.value;
      var q, r :| q in s.library.versions[from].rows && r in s.library.versions[v].rows
          && Covers(q, o) && Covers(r, o) && q.classification != r.classification;
      TheClaim(s.library.versions[from].rows, q, o);
      TheClaim(s.library.versions[v].rows, r, o);
    }
  }

  lemma MovedCell(s: State, p: ProductId, v: VersionId, o: Objective)
    requires s.library.Valid() && p in s.products && o in s.states
    ensures CellMoved(s, p, v, o, Moved(s.states[o], p, Claim(PinnedRows(s, p), o), Claim(s.library.RowsOf(v), o)))
  {
    var was, from, to := s.states[o], Claim(PinnedRows(s, p), o), Claim(s.library.RowsOf(v), o);
    PinnedClaims(s, p, o);
    VersionClaims(s.library, v, o);
    if from.Some? && to.None? {
      LeftCell(was, p);
    } else if from.None? && to.Some? && p !in was.contributors {
      JoinedCell(was, p, to.value, None);
    } else if from.Some? && to.Some? {
      ReclassifiedIs(s, p, v, o);
      ResolvedRightly(was.contributors[p := to.value]);
    }
  }

  /** What a move makes of every objective; links and everything but the pin are as they were. */
  lemma MoveEffect(s: State, p: ProductId, v: VersionId)
    requires s.library.Valid() && MovedTo(s, p, v).Ok?
    ensures var after := MovedTo(s, p, v).value;
            && after.states.Keys == s.states.Keys && p in s.products
            && (forall o :: o in s.states ==> CellMoved(s, p, v, o, after.states[o]))
            && after.products == s.products[p := s.products[p].(pin := Some(v))]
            && after.library == s.library && after.catalog == s.catalog
            && after.sources == s.sources && after.links == s.links
  {
    forall o | o in s.states
      ensures CellMoved(s, p, v, o, MovedTo(s, p, v).value.states[o])
    {
      MovedCell(s, p, v, o);
    }
  }

  /** The move brings the product to the objective, or brings it another way. */
  ghost predicate MoveBrings(s: State, p: ProductId, v: VersionId, o: Objective) {
    && o in s.states && p in s.products && VersionCovers(s.library, v, o)
    && if PinCovers(s, p, o) then p in s.states[o].contributors && Reclassified(s, p, v, o)
       else p !in s.states[o].contributors
  }

  lemma GainsAre(s: State, p: ProductId, v: VersionId, o: Objective)
    requires s.library.Valid() && p in s.products && o in s.states
    ensures Gains(s.states[o], p, Claim(PinnedRows(s, p), o), Claim(s.library.RowsOf(v), o)) <==> MoveBrings(s, p, v, o)
  {
    PinnedClaims(s, p, o);
    VersionClaims(s.library, v, o);
    if Claim(PinnedRows(s, p), o).Some? && Claim(s.library.RowsOf(v), o).Some? {
      ReclassifiedIs(s, p, v, o);
    }
  }

  /** A row by which the move brings the product to something. */
  ghost predicate BringsBy(s: State, p: ProductId, v: VersionId, r: BaselineRow) {
    && v in s.library.versions && r in s.library.versions[v].rows
    && exists o :: MoveBrings(s, p, v, o) && Covers(r, o)
  }

  lemma {:induction false} GainingRowsAre(s: State, p: ProductId, v: VersionId, some: seq<BaselineRow>, r: BaselineRow)
    requires s.library.Valid() && p in s.products
    ensures r in GainingRows(s.states, p, PinnedRows(s, p), s.library.RowsOf(v), some) <==>
            r in some && exists o :: MoveBrings(s, p, v, o) && Covers(r, o)
  {
    if some != [] {
      var init, last := some[..|some| - 1], some[|some| - 1];
      GainingRowsAre(s, p, v, init, r);
      assert some == init + [last];
      GainsSomewhereIs(s, p, v, last);
    }
  }

  lemma GainsSomewhereIs(s: State, p: ProductId, v: VersionId, r: BaselineRow)
    requires s.library.Valid() && p in s.products
    ensures r.Counts() && GainsSomewhere(s.states, p, PinnedRows(s, p), s.library.RowsOf(v), r)
       <==> exists o :: MoveBrings(s, p, v, o) && Covers(r, o)
  {
    var from, to := PinnedRows(s, p), s.library.RowsOf(v);
    if r.Counts() && GainsSomewhere(s.states, p, from, to, r) {
      var key :| key in r.objectives && Objective(r.control, key) in s.states
          && Gains(s.states[Objective(r.control, key)], p, Claim(from, Objective(r.control, key)),
                   Claim(to, Objective(r.control, key)));
      GainsAre(s, p, v, Objective(r.control, key));
      assert Covers(r, Objective(r.control, key));
    }
    if exists o :: MoveBrings(s, p, v, o) && Covers(r, o) {
      var o :| MoveBrings(s, p, v, o) && Covers(r, o);
      GainsAre(s, p, v, o);
      assert Objective(r.control, o.key) == o;
    }
  }

  /** A move asks for the evidence of each row that brings the product to something. */
  lemma MoveAsks(s: State, p: ProductId, v: VersionId, r: BaselineRow, spec: EvidenceSpec, o: Objective)
    requires s.library.Valid() && MovedTo(s, p, v).Ok?
    requires BringsBy(s, p, v, r) && spec in r.specs && Covers(r, o) && o in s.states
    ensures ServedOn(MovedTo(s, p, v).value.board, spec, o)
  {
    var asking := GainingRows(s.states, p, PinnedRows(s, p), s.library.RowsOf(v), s.library.RowsOf(v));
    GainingRowsAre(s, p, v, s.library.RowsOf(v), r);
    RequestsAreServed(s.board, s.states.Keys, asking, r, spec, o);
  }

  ghost predicate BroughtOn(s: State, p: ProductId, v: VersionId, t: Task, o: Objective) {
    exists r, spec :: BringsBy(s, p, v, r) && spec in r.specs && Covers(r, o) && For(t, spec)
  }

  /** And for no other. */
  lemma MoveAsksNoMore(s: State, p: ProductId, v: VersionId, t: nat, o: Objective)
    requires s.library.Valid() && MovedTo(s, p, v).Ok?
    requires (t, o) in MovedTo(s, p, v).value.board.links && (t, o) !in s.board.links
    ensures var after := MovedTo(s, p, v).value.board;
            t < |after.tasks| && BroughtOn(s, p, v, after.tasks[t], o)
  {
    var asking := GainingRows(s.states, p, PinnedRows(s, p), s.library.RowsOf(v), s.library.RowsOf(v));
    OnlyRequestsAreLinked(s.board, s.states.Keys, asking, t, o);
    var task := FanOut(s.board, s.states.Keys, asking).tasks[t];
    var r, spec :| AsksOn(asking, s.states.Keys, r, spec, o) && For(task, spec);
    GainingRowsAre(s, p, v, s.library.RowsOf(v), r);
    assert Covers(r, o);
  }

  /** Why a person is told of an objective, if they are. */
  ghost predicate ToldOf(s: State, p: ProductId, v: VersionId, o: Objective, why: Why)
    requires o in s.states && p in s.products
  {
    var was, did, does := s.states[o], PinCovers(s, p, o), VersionCovers(s.library, v, o);
    match why
    case NoLongerCovered => did && !does && p in was.contributors
    case MappingChanged => did && does && p in was.contributors && Reclassified(s, p, v, o)
    case JudgedNewlyCovered => !did && does && was.contributors == map[] && SetByJudgement(was.status)
  }

  /** What a move tells: each such objective, its status before and why, and no other. */
  lemma MoveReports(s: State, p: ProductId, v: VersionId, o: Objective, why: Why)
    requires s.library.Valid() && p in s.products && o in s.states
    ensures var told := MoveTells(s.states, p, PinnedRows(s, p), s.library.RowsOf(v));
            o in told && told[o] == Told(s.states[o].status, why) <==> ToldOf(s, p, v, o, why)
  {
    PinnedClaims(s, p, o);
    VersionClaims(s.library, v, o);
    if Claim(PinnedRows(s, p), o).Some? && Claim(s.library.RowsOf(v), o).Some? {
      ReclassifiedIs(s, p, v, o);
    }
  }

  // ---------------------------------------------------------------- the other steps

  /** A backfill gives each objective of the catalog that has none a state: not met, the customer's, covered
      by nothing. Every state there was is as it was. */
  lemma BackfillEffect(s: State)
    ensures var after := Backfilled(s);
            && after.states.Keys == s.states.Keys + s.catalog.objectives
            && (forall o :: o in s.states ==> after.states[o] == s.states[o])
            && (forall o :: o in after.states && o !in s.states
                  ==> after.states[o] == ControlState(NotMet, Responsibility.CustomerOwns, map[]))
            && after == s.(states := after.states, score := after.score)
  {
  }

  /** A person's edit changes one status, and is refused only where there is no such objective. */
  lemma EditEffect(s: State, o: Objective, status: Status)
    ensures var r := Edited(s, o, status);
            if o !in s.states then r == Err(UnknownObjective)
            else r.Ok? && r.value == s.(states := s.states[o := s.states[o].(status := status)], score := r.value.score)
  {
  }

  /** Attached before, and not as a list or document version. */
  ghost predicate AttachedAlready(s: State, k: LinkKey) {
    k in s.links && !(k.evidence in s.sources && s.sources[k.evidence] != Artifact)
  }

  /** Attaching makes one live link, of an artifact that keeps what it is from, and is refused exactly so. */
  lemma AttachEffect(s: State, k: LinkKey, source: Source)
    ensures var r := Attached(s, k, source);
            if k.objective !in s.states then r == Err(UnknownObjective)
            else if AttachedAlready(s, k) then r == Err(LinkRefused(AlreadyLinked))
            else
              && r.Ok? && r.value == s.(links := s.links[k := Link(false, None, None, None, None, None)],
                                        sources := r.value.sources)
              && r.value.sources.Keys == s.sources.Keys + {k.evidence}
              && (forall e :: e in s.sources ==> r.value.sources[e] == s.sources[e])
              && (k.evidence !in s.sources ==> r.value.sources[k.evidence] == source)
  {
  }

  /** Archived, and no product's return would bring it back. */
  ghost predicate OffForGood(l: Link) {
    l.archived && l.product.None?
  }

  /** A person takes one link off: refused exactly where there is none or it is off already. */
  lemma DetachEffect(s: State, k: LinkKey, now: int, who: Option<string>)
    ensures var r := DetachedFrom(s, k, Detached, now, who);
            if k !in s.links then r == Err(LinkRefused(NotLinked))
            else if OffForGood(s.links[k]) then r == Err(LinkRefused(AlreadyDetached))
            else
              var was := s.links[k];
              r == Ok(s.(links := s.links[k := Link(true, if was.archived then was.archivedAt else Some(now),
                                                    Some(Detached), None, who, Some(now))]))
  {
  }

  // ---------------------------------------------------------------- a new assessment

  /** A product the new assessment runs, whose pinned version covers the objective. */
  ghost predicate StartsOn(library: Library, products: map<ProductId, OrgProduct>, order: seq<ProductId>,
                           p: ProductId, o: Objective) {
    && p in order && p in products && products[p].status == Active && products[p].configured
    && products[p].pin.Some? && VersionCovers(library, products[p].pin.value, o)
  }

  ghost predicate Pends(cs: ControlState) {
    cs.status == if cs.contributors == map[] then NotMet else PendingEvidence
  }

  lemma JoinPends(cs: ControlState, p: ProductId, row: BaselineRow)
    requires Pends(cs)
    ensures Pends(Joined(cs, p, row, None))
  {
  }

  lemma {:induction false} StartPends(library: Library, catalog: Catalog, products: map<ProductId, OrgProduct>,
                                      order: seq<ProductId>, o: Objective)
    requires o in catalog.objectives
    ensures var states := StartLoop(library, catalog, products, order).0;
            o in states && Pends(states[o])
            && (states[o].contributors == map[] ==> states[o].responsibility == Responsibility.CustomerOwns)
  {
    StartBuilds(library, catalog, products, order);
    if order != [] {
      var before, p := order[..|order| - 1], order[|order| - 1];
      StartPends(library, catalog, products, before, o);
      StartBuilds(library, catalog, products, before);
      if Adoptable(products, p) {
        var rows := library.RowsOf(products[p].pin.value);
        LoopIsJoinAll(StartLoop(library, catalog, products, before), catalog, p, rows);
        var was := StartLoop(library, catalog, products, before).0[o];
        if Claim(rows, o).Some? {
          JoinPends(was, p, Claim(rows, o).value);
        }
      }
    }
  }

  /** A new assessment has a state for each objective of the catalog: pending evidence where a product it
      runs covers it, by every such product; not met and the customer's where none does. */
  lemma StartEffect(library: Library, catalog: Catalog, products: map<ProductId, OrgProduct>,
                    sources: map<EvidenceId, Source>, order: seq<ProductId>, o: Objective)
    requires o in catalog.objectives
    ensures var s := Started(library, catalog, products, sources, order);
            && s.states.Keys == catalog.objectives && s.links == map[] && s.products == products
            && (forall p :: p in s.states[o].contributors <==> StartsOn(library, products, order, p, o))
            && Pends(s.states[o])
            && if s.states[o].contributors == map[] then s.states[o].responsibility == Responsibility.CustomerOwns
               else RightlyResponsible(s.states[o])
  {
    StartBuilds(library, catalog, products, order);
    StartPends(library, catalog, products, order, o);
    var states := StartLoop(library, catalog, products, order).0;
    assert CellFits(library, products, o, states[o]);
    ResolvedRightly(states[o].contributors);
    forall p
      ensures p in states[o].contributors <==> StartsOn(library, products, order, p, o)
    {
      if Adoptable(products, p) {
        VersionClaims(library, products[p].pin.value, o);
      }
    }
  }

  lemma {:induction false} StartAsks(library: Library, catalog: Catalog, products: map<ProductId, OrgProduct>,
                                     order: seq<ProductId>, p: ProductId, r: BaselineRow, spec: EvidenceSpec,
                                     o: Objective)
    requires p in order && Adoptable(products, p) && o in catalog.objectives
    requires AsksOn(library.RowsOf(products[p].pin.value), catalog.objectives, r, spec, o)
    ensures ServedOn(StartLoop(library, catalog, products, order).1, spec, o)
  {
    var before, last := order[..|order| - 1], order[|order| - 1];
    StartBuilds(library, catalog, products, before);
    var sofar := StartLoop(library, catalog, products, before);
    assert order == before + [last];
    if p in before {
      StartAsks(library, catalog, products, before, p, r, spec, o);
    }
    if Adoptable(products, last) {
      var rows := library.RowsOf(products[last].pin.value);
      LoopAsks(sofar, catalog, last, rows, r, spec, o);
    }
  }

  /** One product's loop serves what its rows ask for, and keeps served what was. */
  lemma LoopAsks(sofar: (States, Board), catalog: Catalog, p: ProductId, rows: seq<BaselineRow>, r: BaselineRow,
                 spec: EvidenceSpec, o: Objective)
    requires sofar.0.Keys == catalog.objectives && o in catalog.objectives
    ensures var board := Loop(sofar.0, sofar.1, catalog, p, rows, None).value.1;
            ServedOn(sofar.1, spec, o) || AsksOn(rows, catalog.objectives, r, spec, o) ==> ServedOn(board, spec, o)
  {
    var board := Loop(sofar.0, sofar.1, catalog, p, rows, None).value.1;
    FanOutIsMinimal(sofar.1, sofar.0.Keys, rows);
    if ServedOn(sofar.1, spec, o) {
      var t :| 0 <= t < |sofar.1.tasks| && (t, o) in sofar.1.links && For(sofar.1.tasks[t], spec);
      assert (t, o) in board.links && t < |board.tasks| && board.tasks[t] == sofar.1.tasks[t];
    } else if AsksOn(rows, catalog.objectives, r, spec, o) {
      ClaimMeans(rows, o);
      assert Covers(r, o);
      RequestsAreServed(sofar.1, sofar.0.Keys, rows, r, spec, o);
    }
  }

  /** And every artifact the started products ask for is asked for. */
  lemma StartRequests(library: Library, catalog: Catalog, products: map<ProductId, OrgProduct>,
                      sources: map<EvidenceId, Source>, order: seq<ProductId>, p: ProductId, r: BaselineRow,
                      spec: EvidenceSpec, o: Objective)
    requires o in catalog.objectives && StartsOn(library, products, order, p, o)
    requires AsksOn(library.RowsOf(products[p].pin.value), catalog.objectives, r, spec, o)
    ensures ServedOn(Started(library, catalog, products, sources, order).board, spec, o)
  {
    StartAsks(library, catalog, products, order, p, r, spec, o);
  }

  // ---------------------------------------------------------------- the steps are the operations

  /** A step is its operation, and a library or catalog is taken where it only grew. */
  lemma StepsAreOperations(s: State, step: Step)
    ensures match step
            case Activate(p, decisions) => Attempt(s, step) == Activated(s, p, decisions)
            case Deactivate(p, replacedBy, now) => Attempt(s, step) == Deactivated(s, p, replacedBy, now)
            case Move(p, v) => Attempt(s, step) == MovedTo(s, p, v)
            case Backfill => Attempt(s, step) == Ok(Backfilled(s))
            case Edit(o, status) => Attempt(s, step) == Edited(s, o, status)
            case Attach(k, source) => Attempt(s, step) == Attached(s, k, source)
            case Detach(k, now, who) => Attempt(s, step) == DetachedFrom(s, k, Detached, now, who)
            case GrowLibrary(library) =>
              Attempt(s, step) == Ok(if OnlyAdds(s.library, library) then s.(library := library) else s)
            case GrowCatalog(catalog) =>
              Attempt(s, step) == Ok(if AddsObjectives(s.catalog, catalog) then s.(catalog := catalog) else s)
  {
  }

  ghost predicate OnlyAdds(before: Library, after: Library) {
    && after.Valid() && (forall p :: p in before.products ==> p in after.products)
    && forall v :: v in before.versions ==> v in after.versions && after.versions[v] == before.versions[v]
  }

  ghost predicate AddsObjectives(before: Catalog, after: Catalog) {
    && (forall o :: o in before.objectives ==> o in after.objectives)
    && (forall o :: o in after.objectives ==> o.control in after.weights)
    && forall c :: c in before.weights ==> c in after.weights && after.weights[c] == before.weights[c]
  }

  /** A run is its steps in turn: what is refused changes nothing. */
  lemma RunsInTurn(s: State, steps: seq<Step>, step: Step)
    ensures Run(s, []) == s
    ensures var before := Run(s, steps);
            Run(s, steps + [step]) == if Attempt(before, step).Ok? then Attempt(before, step).value else before
  {
    assert (steps + [step])[..|steps|] == steps;
  }
}
