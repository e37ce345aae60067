/** One assessment as a state machine: what each engine operation makes of the whole state.
    Every operation either gives a new state or is refused and changes nothing. */
module Coverage {
  import opened Common
  import opened Rules
  import opened Baseline
  import opened EvidenceLinks
  import opened EvidenceTasks

  // ---------------------------------------------------------------- the state

  /** One objective's state, with the products that cover it now and the row each covers it by. */
  datatype ControlState = ControlState(status: Status, responsibility: Responsibility,
                                       contributors: map<ProductId, BaselineRow>)

  type States = map<Objective, ControlState>

  datatype ProductStatus = Candidate | Active | Decommissioned

  datatype OrgProduct = OrgProduct(status: ProductStatus, configured: bool, pin: Option<VersionId>)

  datatype Catalog = Catalog(objectives: set<Objective>, weights: map<ControlId, nat>)

  datatype State = State(library: Library, catalog: Catalog, products: map<ProductId, OrgProduct>,
                         states: States, board: Board, sources: map<EvidenceId, Source>, links: Links, score: int)

  function StatusMap(states: States): map<Objective, Status> {
    map o | o in states :: states[o].status
  }

  ghost function ScoreOf(states: States, catalog: Catalog): int {
    Score(StatusMap(states), catalog.weights)
  }

  const SEEDED := ControlState(NotMet, Responsibility.CustomerOwns, map[])

  function Classes(contributors: map<ProductId, BaselineRow>): set<Classification> {
    set p | p in contributors :: contributors[p].classification
  }

  // ---------------------------------------------------------------- one objective, one change

  /** A product joins an objective. A second join by the same product is no change. */
  function Joined(cs: ControlState, p: ProductId, row: BaselineRow, choice: Option<Choice>): ControlState {
    if p in cs.contributors then cs
    else
      ControlState(ContributorAddedStatus(cs.status, cs.contributors == map[], choice),
                   ResolveResponsibility(Classes(cs.contributors) + {row.classification}),
                   cs.contributors[p := row])
  }

  /** A product leaves: the coverage is looked at again, and the survivors say who is responsible. */
  function Left(cs: ControlState, p: ProductId): ControlState {
    if p !in cs.contributors then cs
    else
      var others := cs.contributors - {p};
      ControlState(NeedsReview, if others != map[] then ResolveResponsibility(Classes(others))
          else cs.responsibility, others)
  }

  /** A product's claim on the objective goes from one version's row to another's. */
  function Moved(cs: ControlState, p: ProductId, from: Option<BaselineRow>, to: Option<BaselineRow>): ControlState {
    match (from, to)
    case (Some(_), None) => Left(cs, p)
    case (None, Some(row)) => Joined(cs, p, row, None)
    case (Some(was), Some(row)) =>
      if p in cs.contributors && was.classification != row.classification then
        var contributors := cs.contributors[p := row];
        ControlState(NeedsReview, ResolveResponsibility(Classes(contributors)), contributors)
      else cs
    case (None, None) => cs
  }

  // ---------------------------------------------------------------- activation

  /** A person's answer about a judged objective, and the status they were shown. */
  datatype Decision = Decision(shown: Status, choice: Choice)

  type Decisions = map<Objective, Decision>

  function ChoiceFor(decisions: Option<Decisions>, o: Objective): Option<Choice> {
    if decisions.Some? && o in decisions.value then Some(decisions.value[o].choice) else None
  }

  function JoinAll(states: States, p: ProductId, rows: seq<BaselineRow>, decisions: Option<Decisions>): States {
    map o | o in states ::
      var claim := Claim(rows, o);
      if claim.Some? then Joined(states[o], p, claim.value, ChoiceFor(decisions, o)) else states[o]
  }

  /** The objectives a person judged and this product would be the first to cover. */
  predicate AskedAbout(states: States, p: ProductId, rows: seq<BaselineRow>, o: Objective) {
    o in states && Claim(rows, o).Some? && p !in states[o].contributors
    && JudgementInQuestion(states[o].status, states[o].contributors == map[])
  }

  function JudgedSet(states: States, p: ProductId, rows: seq<BaselineRow>): set<Objective> {
    set o | o in states && AskedAbout(states, p, rows, o)
  }

  /** The answers are to exactly the questions this activation raises, each about the status the
      objective still has. */
  predicate Answers(decisions: Decisions, states: States, p: ProductId, rows: seq<BaselineRow>) {
    && decisions.Keys == JudgedSet(states, p, rows)
    && forall o :: o in decisions && o in states
        ==> decisions[o].shown == states[o].status && !decisions[o].choice.Unknown?
  }

  /** At least one claim of these rows names an objective of the catalog. */
  predicate Resolvable(rows: seq<BaselineRow>, catalog: Catalog) {
    exists o :: o in catalog.objectives && Claim(rows, o).Some?
  }

  datatype Refusal = UnknownProduct | NotPublished | NoVersion | DecisionsRefused | NotAdopted | OwnReplacement
                   | NotActive | AlreadyOnVersion | WrongVersion | UnknownObjective | LinkRefused(e: LinkError)

  type Outcome = Result<State, Refusal>

  function Adopted(s: State, p: ProductId): Option<OrgProduct> {
    if p in s.products then Some(s.products[p]) else None
  }

  /** The version an activation rests on: the pin, or the published current version the first time. */
  function Target(s: State, p: ProductId): Result<VersionId, Refusal> {
    if p !in s.library.products then Err(UnknownProduct)
    else if p in s.products && s.products[p].pin.Some? then Ok(s.products[p].pin.value)
    else if !s.library.products[p].published then Err(NotPublished)
    else if s.library.products[p].current.None? then Err(NoVersion)
    else Ok(s.library.products[p].current.value)
  }

  /** Objectives whose archived evidence came back are looked at again, not left pending. */
  function RecheckedCell(cs: ControlState, restored: bool): ControlState {
    if restored && cs.status.PendingEvidence? then cs.(status := NeedsReview) else cs
  }

  function Rechecked(states: States, restored: set<Objective>): States {
    map o | o in states :: RecheckedCell(states[o], o in restored)
  }

  /** The magic loop for one product over one version's rows. */
  function Loop(states: States, board: Board, catalog: Catalog, p: ProductId, rows: seq<BaselineRow>,
                decisions: Option<Decisions>): Option<(States, Board)>
  {
    if !Resolvable(rows, catalog) then Some((states, board))
    else if decisions.Some? && !Answers(decisions.value, states, p, rows) then None
    else Some((JoinAll(states, p, rows, decisions), FanOut(board, states.Keys, rows)))
  }

  ghost function Rescored(s: State): State {
    s.(score := ScoreOf(s.states, s.catalog))
  }

  ghost function Activated(s: State, p: ProductId, decisions: Option<Decisions>): Outcome {
    var target := Target(s, p);
    if target.Err? then Err(target.error)
    else
      var rows := s.library.RowsOf(target.value);
      var board := s.board.(tasks := RestoreTasks(s.board.tasks, SpecIds(rows)));
      var looped := Loop(s.states, board, s.catalog, p, rows, decisions);
      if looped.None? then Err(DecisionsRefused)
      else
        Ok(Rescored(s.(products := s.products[p := OrgProduct(Active, true, Some(target.value))],
                       states := Rechecked(looped.value.0, RestoredObjectives(s.links, p)),
                       board := looped.value.1,
                       links := RestoreLinks(s.links, p))))
  }

  // ---------------------------------------------------------------- deactivation

  function LeaveAll(states: States, p: ProductId): States {
    map o | o in states :: Left(states[o], p)
  }

  /** The objectives a product covers now. */
  function Covered(states: States, p: ProductId): set<Objective> {
    set o | o in states && p in states[o].contributors
  }

  ghost function Deactivated(s: State, p: ProductId, replacedBy: Option<ProductId>, now: int): Outcome {
    if p !in s.library.products then Err(UnknownProduct)
    else if p !in s.products then Err(NotAdopted)
    else if replacedBy == Some(p) then Err(OwnReplacement)
    else if replacedBy.Some? && replacedBy.value !in s.library.products then Err(UnknownProduct)
    else
      Ok(Rescored(s.(products := s.products[p := s.products[p].(status := Decommissioned)],
                     states := LeaveAll(s.states, p),
                     board := s.board.(tasks := ArchiveTasks(s.board.tasks, s.library.SpecsOfProduct(p))),
                     links := RetireLinks(s.links, s.sources, Covered(s.states, p), p, now))))
  }

  // ---------------------------------------------------------------- version move

  function MoveAll(states: States, p: ProductId, from: seq<BaselineRow>, to: seq<BaselineRow>): States {
    map o | o in states :: Moved(states[o], p, Claim(from, o), Claim(to, o))
  }

  function PinnedRows(s: State, p: ProductId): seq<BaselineRow> {
    if p in s.products && s.products[p].pin.Some? then s.library.RowsOf(s.products[p].pin.value) else []
  }

  /** The move changes what this product brings to the objective: it joins, or its row changes. */
  predicate Gains(cs: ControlState, p: ProductId, from: Option<BaselineRow>, to: Option<BaselineRow>) {
    to.Some? && (if from.Some? then p in cs.contributors && from.value.classification != to.value.classification
                 else p !in cs.contributors)
  }

  predicate GainsSomewhere(states: States, p: ProductId, from: seq<BaselineRow>, to: seq<BaselineRow>, r: BaselineRow) {
    exists key :: key in r.objectives && Objective(r.control, key) in states
      && Gains(states[Objective(r.control, key)], p, Claim(from, Objective(r.control, key)),
          Claim(to, Objective(r.control, key)))
  }

  /** The new version's rows whose evidence has to be asked for: those that gained an objective. */
  function GainingRows(states: States, p: ProductId, from: seq<BaselineRow>, to: seq<BaselineRow>,
                       some: seq<BaselineRow>)
    : seq<BaselineRow>
  {
    if some == [] then []
    else
      var last := some[|some| - 1];
      GainingRows(states, p, from, to, some[..|some| - 1])
        + (if last.Counts() && GainsSomewhere(states, p, from, to, last) then [last] else [])
  }

  ghost function MovedTo(s: State, p: ProductId, v: VersionId): Outcome {
    if p !in s.products || !s.products[p].status.Active? then Err(NotActive)
    else if s.products[p].pin == Some(v) then Err(AlreadyOnVersion)
    else if v !in s.library.versions || s.library.versions[v].product != p then Err(WrongVersion)
    else if p !in s.library.products then Err(UnknownProduct)
    else
      var from, to := PinnedRows(s, p), s.library.RowsOf(v);
      Ok(Rescored(s.(products := s.products[p := s.products[p].(pin := Some(v))],
                     states := MoveAll(s.states, p, from, to),
                     board := FanOut(s.board, s.states.Keys, GainingRows(s.states, p, from, to, to)))))
  }

  /** Why a move left an objective to be looked at again. */
  datatype Why = NoLongerCovered | MappingChanged | JudgedNewlyCovered

  datatype Told = Told(before: Status, why: Why)

  /** The move writes to the objective: its claim differs and this product's coverage with it. */
  predicate Touched(cs: ControlState, p: ProductId, from: Option<BaselineRow>, to: Option<BaselineRow>) {
    Gains(cs, p, from, to) || (from.Some? && to.None? && p in cs.contributors)
  }

  function ReasonTold(cs: ControlState, p: ProductId, from: Option<BaselineRow>, to: Option<BaselineRow>): Option<Why> {
    if !Touched(cs, p, from, to) then None
    else if to.None? then Some(NoLongerCovered)
    else if from.Some? then Some(MappingChanged)
    else if JudgementInQuestion(cs.status, cs.contributors == map[]) then Some(JudgedNewlyCovered)
    else None
  }

  /** What a move tells the person it left at needs_review, and why. */
  function MoveTells(states: States, p: ProductId, from: seq<BaselineRow>, to: seq<BaselineRow>): map<Objective, Told> {
    map o | o in states && ReasonTold(states[o], p, Claim(from, o), Claim(to, o)).Some?
      :: Told(states[o].status, ReasonTold(states[o], p, Claim(from, o), Claim(to, o)).value)
  }

  // ---------------------------------------------------------------- the other steps

  function SeedMissing(states: States, objectives: set<Objective>): States {
    map o | o in states.Keys + objectives :: if o in states then states[o] else SEEDED
  }

  ghost function Backfilled(s: State): State {
    if s.catalog.objectives <= s.states.Keys then s
    else Rescored(s.(states := SeedMissing(s.states, s.catalog.objectives)))
  }

  /** A person sets an objective's status. */
  ghost function Edited(s: State, o: Objective, status: Status): Outcome {
    if o !in s.states then Err(UnknownObjective)
    else Ok(Rescored(s.(states := s.states[o := s.states[o].(status := status)])))
  }

  /** A person attaches an artifact. A list or document version attached here before returns to
      its own row; any other artifact is new here. */
  function Attached(s: State, k: LinkKey, source: Source): Outcome {
    if k.objective !in s.states then Err(UnknownObjective)
    else if k in s.links && (k.evidence !in s.sources || s.sources[k.evidence].Artifact?)
        then Err(LinkRefused(AlreadyLinked))
    else Ok(s.(links := s.links[k := LIVE],
               sources := if k.evidence in s.sources then s.sources else s.sources[k.evidence := source]))
  }

  function DetachedFrom(s: State, k: LinkKey, cause: Cause, now: int, who: Option<string>): Outcome
    requires cause.Detached? || cause.AttestationDetach?
  {
    match DetachIn(s.links, k, cause, now, who)
    case Ok(links) => Ok(s.(links := links))
    case Err(e) => Err(LinkRefused(e))
  }

  /** A catalog only gains objectives; a practice's weight does not change. */
  ghost predicate CatalogGrows(before: Catalog, after: Catalog) {
    && before.objectives <= after.objectives
    && (forall o :: o in after.objectives ==> o.control in after.weights)
    && forall c :: c in before.weights ==> c in after.weights && after.weights[c] == before.weights[c]
  }

  // ---------------------------------------------------------------- starting an assessment

  predicate Adoptable(products: map<ProductId, OrgProduct>, p: ProductId) {
    p in products && products[p].status.Active? && products[p].configured && products[p].pin.Some?
  }

  function StartLoop(library: Library, catalog: Catalog, products: map<ProductId, OrgProduct>,
                     order: seq<ProductId>): (States, Board) {
    if order == [] then (map o | o in catalog.objectives :: SEEDED, Board([], {}))
    else
      var (states, board) := StartLoop(library, catalog, products, order[..|order| - 1]);
      var p := order[|order| - 1];
      if Adoptable(products, p)
      then Loop(states, board, catalog, p, library.RowsOf(products[p].pin.value), None).value
      else (states, board)
  }

  /** Every objective seeded unmet and the customer's, then one loop for each product already active. */
  ghost function Started(library: Library, catalog: Catalog, products: map<ProductId, OrgProduct>,
                         sources: map<EvidenceId, Source>, order: seq<ProductId>): State {
    var (states, board) := StartLoop(library, catalog, products, order);
    State(library, catalog, products, states, board, sources, map[], ScoreOf(states, catalog))
  }

  // ---------------------------------------------------------------- runs

  datatype Step =
    | Activate(p: ProductId, decisions: Option<Decisions>)
    | Deactivate(p: ProductId, replacedBy: Option<ProductId>, now: int)
    | Move(p: ProductId, v: VersionId)
    | Backfill
    | Edit(o: Objective, status: Status)
    | Attach(k: LinkKey, source: Source)
    | Detach(k: LinkKey, now: int, who: Option<string>)
    | GrowLibrary(library: Library)
    | GrowCatalog(catalog: Catalog)

  ghost function Attempt(s: State, step: Step): Outcome {
    match step
    case Activate(p, decisions) => Activated(s, p, decisions)
    case Deactivate(p, replacedBy, now) => Deactivated(s, p, replacedBy, now)
    case Move(p, v) => MovedTo(s, p, v)
    case Backfill => Ok(Backfilled(s))
    case Edit(o, status) => Edited(s, o, status)
    case Attach(k, source) => Attached(s, k, source)
    case Detach(k, now, who) => DetachedFrom(s, k, Detached, now, who)
    case GrowLibrary(library) => if Grows(s.library, library) then Ok(s.(library := library)) else Ok(s)
    case GrowCatalog(catalog) => if CatalogGrows(s.catalog, catalog) then Ok(s.(catalog := catalog)) else Ok(s)
  }

  /** A refused operation leaves everything as it was. */
  ghost function Next(s: State, step: Step): State {
    var r := Attempt(s, step);
    if r.Ok? then r.value else s
  }

  ghost function Run(s: State, steps: seq<Step>): State {
    if steps == [] then s else Next(Run(s, steps[..|steps| - 1]), steps[|steps| - 1])
  }
}
