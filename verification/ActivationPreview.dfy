/** What the activation screen says will happen, and what then happens. */
module ActivationPreview {
  import opened Common
  import opened Rules
  import opened Baseline
  import opened EvidenceLinks
  import opened EvidenceTasks
  import opened Coverage
  import opened CoverageProofs
  import opened CoverageTheorems
  import opened CoverageEffects

  datatype PreviewRow = PreviewRow(shown: Status, default: Choice, choice: Choice, becomes: Status,
                                   practiceDeductsNow: bool)

  datatype Preview = Preview(now: int, after: int, objectives: map<Objective, PreviewRow>, starting: set<ControlId>)

  function DeductingStates(states: States): set<ControlId> {
    Deducting(StatusMap(states))
  }

  /** The answers the screen works with: each one given, else the default for the status. */
  function Resolved(states: States, judged: set<Objective>, choices: map<Objective, Choice>): Decisions
    requires forall o :: o in judged ==> o in states && Judged(states[o].status)
  {
    map o | o in judged :: Decision(states[o].status,
      if o in choices && choices[o] != Unknown("") then choices[o] else ActivationDefault(states[o].status))
  }

  function Described(states: States, decisions: Decisions): map<Objective, PreviewRow>
    requires forall o :: o in decisions ==> o in states && Judged(decisions[o].shown)
  {
    map o | o in decisions ::
      PreviewRow(decisions[o].shown, ActivationDefault(decisions[o].shown), decisions[o].choice,
                 ContributorAddedStatus(decisions[o].shown, true, Some(decisions[o].choice)),
                 o.control in DeductingStates(states))
  }

  /** The preview runs the activation itself, first asking nobody and then with the answers, and
      keeps neither. */
  ghost function Previewed(s: State, p: ProductId, choices: map<Objective, Choice>): Result<Preview, Refusal> {
    var found := Activated(s, p, None);
    if found.Err? then Err(found.error)
    else
      var judged := JudgedSet(s.states, p, s.library.RowsOf(Target(s, p).value));
      if judged == {} then Ok(Preview(s.score, found.value.score, map[], {}))
      else
        var resolved := Resolved(s.states, judged, choices);
        var confirmed := Activated(s, p, Some(resolved));
        if confirmed.Err? then Err(confirmed.error)
        else Ok(AskedResult(s, confirmed.value, resolved))
  }

  ghost function AskedResult(s: State, confirmed: State, resolved: Decisions): Preview
    requires forall o :: o in resolved ==> o in s.states && Judged(resolved[o].shown)
  {
    Preview(s.score, confirmed.score, Described(s.states, resolved),
            DeductingStates(confirmed.states) - DeductingStates(s.states))
  }

  /** The answers a person confirms: what the screen showed for each objective. */
  function Confirmation(pv: Preview): Decisions {
    map o | o in pv.objectives :: Decision(pv.objectives[o].shown, pv.objectives[o].choice)
  }

  lemma ActivationDrop(s: State, p: ProductId, decisions: Option<Decisions>)
    requires Inv(s) && Activated(s, p, decisions).Ok?
    ensures var after := Activated(s, p, decisions).value;
            && DeductingStates(s.states) <= DeductingStates(after.states)
            && s.score - after.score == TotalWeight(DeductingStates(after.states) - DeductingStates(s.states),
                s.catalog.weights)
  {
    var after := Activated(s, p, decisions).value;
    ActivationSatisfiesNothing(s, p, decisions);
    ActivationElsewhere(s, p, decisions);
    ScoreDrop(StatusMap(s.states), StatusMap(after.states), s.catalog.weights);
  }

  lemma UnaskedKeepsSatisfied(s: State, p: ProductId, o: Objective)
    requires Inv(s) && Activated(s, p, None).Ok? && o in s.states && Satisfied(s.states[o].status)
    requires !AskedAbout(s.states, p, s.library.RowsOf(Target(s, p).value), o)
    ensures o in Activated(s, p, None).value.states
    ensures Activated(s, p, None).value.states[o].status == s.states[o].status
  {
    ActivationAt(s, p, None, o);
  }

  lemma SameDeducting(before: States, after: States)
    requires before.Keys == after.Keys
    requires forall o :: o in before && Satisfied(before[o].status) ==> Satisfied(after[o].status)
    ensures DeductingStates(after) <= DeductingStates(before)
  {
    forall c | c in DeductingStates(after)
      ensures c in DeductingStates(before)
    {
      var o :| o in after && !Satisfied(after[o].status) && o.control == c;
      assert o in StatusMap(before) && !Satisfied(StatusMap(before)[o]);
    }
  }

  lemma UnaskedDeductsTheSame(s: State, p: ProductId, after: States)
    requires Inv(s) && Activated(s, p, None).Ok? && after == Activated(s, p, None).value.states
    requires JudgedSet(s.states, p, s.library.RowsOf(Target(s, p).value)) == {}
    ensures DeductingStates(after) <= DeductingStates(s.states)
  {
    forall o | o in s.states && Satisfied(s.states[o].status)
      ensures o in after && Satisfied(after[o].status)
    {
      assert o !in JudgedSet(s.states, p, s.library.RowsOf(Target(s, p).value));
      UnaskedKeepsSatisfied(s, p, o);
    }
    SameDeducting(s.states, after);
  }

  lemma UnaskedCostsNothing(s: State, p: ProductId, after: State)
    requires Inv(s) && Activated(s, p, None) == Ok(after)
    requires JudgedSet(s.states, p, s.library.RowsOf(Target(s, p).value)) == {}
    ensures after.score == s.score
  {
    ActivationDrop(s, p, None);
    UnaskedDeductsTheSame(s, p, after.states);
    assert DeductingStates(after.states) - DeductingStates(s.states) == {};
  }

  lemma NothingJudgedIsAnswered(s: State, p: ProductId)
    requires Target(s, p).Ok? && JudgedSet(s.states, p, s.library.RowsOf(Target(s, p).value)) == {}
    ensures Activated(s, p, Some(map[])) == Activated(s, p, None)
  {
    var rows := s.library.RowsOf(Target(s, p).value);
    LoopNothingJudged(s.states, s.board.(tasks := RestoreTasks(s.board.tasks, SpecIds(rows))), s.catalog, p, rows);
  }

  lemma LoopNothingJudged(states: States, board: Board, catalog: Catalog, p: ProductId, rows: seq<BaselineRow>)
    requires JudgedSet(states, p, rows) == {}
    ensures Loop(states, board, catalog, p, rows, Some(map[])) == Loop(states, board, catalog, p, rows, None)
  {
    assert JoinAll(states, p, rows, Some(map[])) == JoinAll(states, p, rows, None);
  }

  lemma ConfirmedBecomes(s: State, p: ProductId, decisions: Decisions, o: Objective)
    requires Inv(s) && Activated(s, p, Some(decisions)).Ok? && o in decisions
    requires AskedAbout(s.states, p, s.library.RowsOf(Target(s, p).value), o)
    requires decisions[o].shown == s.states[o].status
    ensures o in Activated(s, p, Some(decisions)).value.states
    ensures Activated(s, p, Some(decisions)).value.states[o].status
         == ContributorAddedStatus(decisions[o].shown, true, Some(decisions[o].choice))
  {
    ActivationAt(s, p, Some(decisions), o);
  }

  /** The preview is exact. The points it says will be lost are the weights of the practices it
      names; confirming what it showed is never refused, gives the score it said, and leaves each
      objective at the status it said. */
  lemma PreviewIsExact(s: State, p: ProductId, choices: map<Objective, Choice>)
    requires Inv(s) && Previewed(s, p, choices).Ok?
    ensures var pv := Previewed(s, p, choices).value;
            Activated(s, p, Some(Confirmation(pv))).Ok?
            && ShownIsDone(s, Activated(s, p, Some(Confirmation(pv))).value, pv)
  {
    if JudgedSet(s.states, p, s.library.RowsOf(Target(s, p).value)) == {} {
      UnaskedIsExact(s, p, choices);
    } else {
      AskedPreview(s, p, choices, Previewed(s, p, choices).value);
    }
  }

  lemma UnaskedIsExact(s: State, p: ProductId, choices: map<Objective, Choice>)
    requires Inv(s) && Previewed(s, p, choices).Ok?
    requires JudgedSet(s.states, p, s.library.RowsOf(Target(s, p).value)) == {}
    ensures var pv := Previewed(s, p, choices).value;
            Activated(s, p, Some(Confirmation(pv))).Ok?
            && ShownIsDone(s, Activated(s, p, Some(Confirmation(pv))).value, pv)
  {
    UnaskedCostsNothing(s, p, Activated(s, p, None).value);
    NothingJudgedIsAnswered(s, p);
    assert Confirmation(Previewed(s, p, choices).value) == map[];
  }

  lemma AskedPreview(s: State, p: ProductId, choices: map<Objective, Choice>, pv: Preview)
    requires Inv(s) && Previewed(s, p, choices) == Ok(pv)
    requires JudgedSet(s.states, p, s.library.RowsOf(Target(s, p).value)) != {}
    ensures Activated(s, p, Some(Confirmation(pv))).Ok?
    ensures ShownIsDone(s, Activated(s, p, Some(Confirmation(pv))).value, pv)
  {
    var resolved := Resolved(s.states, JudgedSet(s.states, p, s.library.RowsOf(Target(s, p).value)), choices);
    PreviewedAsked(s, p, choices, resolved);
    ResolvedFits(s.states, JudgedSet(s.states, p, s.library.RowsOf(Target(s, p).value)), choices);
    AskedIsConfirmed(s, p, resolved, Activated(s, p, Some(resolved)).value, pv);
  }

  lemma ResolvedFits(states: States, judged: set<Objective>, choices: map<Objective, Choice>)
    requires forall o :: o in judged ==> o in states && Judged(states[o].status)
    ensures var resolved := Resolved(states, judged, choices);
            resolved.Keys == judged && forall o :: o in resolved ==> resolved[o].shown == states[o].status
  {
  }

  /** The answers a preview was made with, and the state they gave. */
  ghost predicate MadeWith(s: State, p: ProductId, pv: Preview, resolved: Decisions, confirmed: State) {
    && Activated(s, p, Some(resolved)) == Ok(confirmed)
    && resolved != map[] && resolved.Keys == JudgedSet(s.states, p, s.library.RowsOf(Target(s, p).value))
    && (forall o ::
        o in resolved ==> o in s.states && Judged(resolved[o].shown) && resolved[o].shown == s.states[o].status)
    && pv == AskedResult(s, confirmed, resolved)
  }

  /** The answers shown are the answers the preview was made with, so confirming them does the same. */
  lemma AskedIsConfirmed(s: State, p: ProductId, resolved: Decisions, confirmed: State, pv: Preview)
    requires Inv(s) && MadeWith(s, p, pv, resolved, confirmed)
    ensures Activated(s, p, Some(Confirmation(pv))) == Ok(confirmed) && ShownIsDone(s, confirmed, pv)
  {
    AskedIsExact(s, p, resolved, confirmed);
    ConfirmsResolved(s.states, resolved, pv);
  }

  lemma PreviewedAsked(s: State, p: ProductId, choices: map<Objective, Choice>, resolved: Decisions)
    requires Previewed(s, p, choices).Ok?
    requires JudgedSet(s.states, p, s.library.RowsOf(Target(s, p).value)) != {}
    requires resolved == Resolved(s.states, JudgedSet(s.states, p, s.library.RowsOf(Target(s, p).value)), choices)
    ensures Activated(s, p, Some(resolved)).Ok?
    ensures Previewed(s, p, choices) == Ok(AskedResult(s, Activated(s, p, Some(resolved)).value, resolved))
    ensures resolved != map[]
  {
    var o :| o in JudgedSet(s.states, p, s.library.RowsOf(Target(s, p).value));
    assert o in resolved;
  }

  /** What the preview says is what the confirmation did: the score, the practices that start
      losing their points and no others, and every status. */
  ghost predicate ShownIsDone(s: State, confirmed: State, pv: Preview) {
    && pv.now == s.score && pv.after == confirmed.score
    && pv.now - pv.after == TotalWeight(pv.starting, s.catalog.weights)
    && pv.starting == (if pv.objectives == map[] then {}
        else DeductingStates(confirmed.states) - DeductingStates(s.states))
    && forall o :: o in pv.objectives
        ==> o in confirmed.states && confirmed.states[o].status == pv.objectives[o].becomes
  }

  lemma AskedIsExact(s: State, p: ProductId, resolved: Decisions, confirmed: State)
    requires Inv(s) && Activated(s, p, Some(resolved)) == Ok(confirmed)
    requires resolved != map[] && resolved.Keys == JudgedSet(s.states, p, s.library.RowsOf(Target(s, p).value))
    requires forall o ::
          o in resolved ==> o in s.states && Judged(resolved[o].shown) && resolved[o].shown == s.states[o].status
    ensures ShownIsDone(s, confirmed, AskedResult(s, confirmed, resolved))
  {
    ActivationDrop(s, p, Some(resolved));
    ResolvedBecomes(s, p, resolved, confirmed);
    ShownFromParts(s, confirmed, resolved);
  }

  ghost predicate Becomes(states: States, resolved: Decisions) {
    && resolved.Keys <= states.Keys
    && forall o :: o in resolved
        ==> states[o].status == ContributorAddedStatus(resolved[o].shown, true, Some(resolved[o].choice))
  }

  lemma ShownFromParts(s: State, confirmed: State, resolved: Decisions)
    requires resolved != map[]
    requires forall o :: o in resolved ==> o in s.states && Judged(resolved[o].shown)
    requires s.score - confirmed.score
          == TotalWeight(DeductingStates(confirmed.states) - DeductingStates(s.states), s.catalog.weights)
    requires Becomes(confirmed.states, resolved)
    ensures ShownIsDone(s, confirmed, AskedResult(s, confirmed, resolved))
  {
    var pv := AskedResult(s, confirmed, resolved);
    assert pv.objectives.Keys == resolved.Keys;
  }

  lemma ConfirmsResolved(states: States, resolved: Decisions, pv: Preview)
    requires forall o :: o in resolved ==> o in states && Judged(resolved[o].shown)
    requires pv.objectives == Described(states, resolved)
    ensures Confirmation(pv) == resolved
  {
  }

  lemma ResolvedBecomes(s: State, p: ProductId, resolved: Decisions, confirmed: State)
    requires Inv(s) && Activated(s, p, Some(resolved)) == Ok(confirmed)
    requires resolved.Keys == JudgedSet(s.states, p, s.library.RowsOf(Target(s, p).value))
    requires forall o :: o in resolved ==> o in s.states && resolved[o].shown == s.states[o].status
    ensures Becomes(confirmed.states, resolved)
  {
    forall o | o in resolved
      ensures o in confirmed.states
      ensures confirmed.states[o].status == ContributorAddedStatus(resolved[o].shown, true, Some(resolved[o].choice))
    {
      assert o in JudgedSet(s.states, p, s.library.RowsOf(Target(s, p).value));
      ConfirmedBecomes(s, p, resolved, o);
    }
  }

  /** What the screen shows of one objective: its status, the answer it starts from, the answer chosen, the
      status that gives, and whether its practice already loses its points. */
  ghost predicate Shows(s: State, o: Objective, choices: map<Objective, Choice>, row: PreviewRow) {
    && o in s.states && row.shown == s.states[o].status
    && row.default == (if row.shown == Met || row.shown == Partial then Recheck else Keep)
    && row.choice == (if o in choices && choices[o] != Unknown("") then choices[o] else row.default)
    && row.becomes == (if row.choice == Keep then row.shown else NeedsReview)
    && (row.practiceDeductsNow <==> exists q :: q in s.states && q.control == o.control
                                                && s.states[q].status != Met && s.states[q].status != Inherited)
  }

  /** The screen shows exactly the objectives in question, each rightly, and the score as it is. */
  lemma PreviewShows(s: State, p: ProductId, v: VersionId, choices: map<Objective, Choice>, o: Objective)
    requires Adopts(s, p, v) && Previewed(s, p, choices).Ok?
    ensures var pv := Previewed(s, p, choices).value;
            && pv.now == s.score && (o in pv.objectives <==> InQuestion(s, p, v, o))
            && (o in pv.objectives ==> Shows(s, o, choices, pv.objectives[o]))
  {
    TargetIs(s, p);
    QuestionsAre(s, p, v, o);
    DeductingMeans(StatusMap(s.states), o.control);
    var judged := JudgedSet(s.states, p, s.library.RowsOf(v));
    if judged != {} {
      PreviewedAsked(s, p, choices, Resolved(s.states, judged, choices));
      if o in judged {
        ShownRightly(s, judged, choices, o);
      }
    }
  }

  lemma ShownRightly(s: State, judged: set<Objective>, choices: map<Objective, Choice>, o: Objective)
    requires forall q :: q in judged ==> q in s.states && Judged(s.states[q].status)
    requires o in judged
    ensures Shows(s, o, choices, Described(s.states, Resolved(s.states, judged, choices))[o])
  {
    DeductingMeans(StatusMap(s.states), o.control);
  }

  /** A preview is refused as the activation is, and for an answer that is neither keep nor review. */
  lemma PreviewRefusals(s: State, p: ProductId, choices: map<Objective, Choice>)
    requires s.states.Keys <= s.catalog.objectives
    ensures Target(s, p).Err? ==> Previewed(s, p, choices) == Err(Target(s, p).error)
    ensures forall v: VersionId :: Adopts(s, p, v) ==>
              if AnswersOddly(s, p, v, choices) then Previewed(s, p, choices) == Err(DecisionsRefused)
              else Previewed(s, p, choices).Ok?
  {
    TargetIs(s, p);
    ActivationRefusals(s, p, None);
    forall v: VersionId | Adopts(s, p, v)
      ensures if AnswersOddly(s, p, v, choices) then Previewed(s, p, choices) == Err(DecisionsRefused)
              else Previewed(s, p, choices).Ok?
    {
      PreviewRefusedFor(s, p, v, choices);
    }
  }

  ghost predicate AnswersOddly(s: State, p: ProductId, v: VersionId, choices: map<Objective, Choice>) {
    exists o :: InQuestion(s, p, v, o) && o in choices && choices[o].Unknown? && choices[o] != Unknown("")
  }

  lemma PreviewRefusedFor(s: State, p: ProductId, v: VersionId, choices: map<Objective, Choice>)
    requires s.states.Keys <= s.catalog.objectives && Adopts(s, p, v)
    ensures if AnswersOddly(s, p, v, choices) then Previewed(s, p, choices) == Err(DecisionsRefused)
            else Previewed(s, p, choices).Ok?
  {
    TargetIs(s, p);
    var judged := JudgedSet(s.states, p, s.library.RowsOf(v));
    forall o
      ensures o in judged <==> InQuestion(s, p, v, o)
    {
      QuestionsAre(s, p, v, o);
    }
    ActivationRefusals(s, p, None);
    if judged != {} {
      var resolved := Resolved(s.states, judged, choices);
      ActivationRefusals(s, p, Some(resolved));
      var o :| o in judged;
      assert SomeCovered(s, v);
      ResolvedIsRight(s, p, v, judged, choices);
    }
  }

  lemma ResolvedIsRight(s: State, p: ProductId, v: VersionId, judged: set<Objective>, choices: map<Objective, Choice>)
    requires forall o :: o in judged <==> InQuestion(s, p, v, o)
    requires forall o :: o in judged ==> o in s.states && Judged(s.states[o].status)
    ensures AnsweredAsShown(s, p, v, Resolved(s.states, judged, choices)) <==> !AnswersOddly(s, p, v, choices)
  {
    var resolved := Resolved(s.states, judged, choices);
    assert resolved.Keys == judged;
    if AnswersOddly(s, p, v, choices) {
      var o :| InQuestion(s, p, v, o) && o in choices && choices[o].Unknown? && choices[o] != Unknown("");
      assert o in resolved;
    }
  }

  /** An activation is refused for its answers exactly when they do not answer its questions. */
  lemma AcceptedIffAnswered(s: State, p: ProductId, d: Decisions)
    requires Target(s, p).Ok?
    ensures var rows := s.library.RowsOf(Target(s, p).value);
            Activated(s, p, Some(d)).Ok? <==> !Resolvable(rows, s.catalog) || Answers(d, s.states, p, rows)
  {
  }

  /** A confirmation is accepted in a later state exactly when that state still raises the same
      questions about the same statuses: a person approves the change they saw, not another.
      (When no claim of the version is in the catalog nothing would change, and any answers pass.) */
  lemma ConfirmedOnlyAsShown(s: State, later: State, p: ProductId, choices: map<Objective, Choice>)
    requires Inv(s) && Inv(later) && Previewed(s, p, choices).Ok? && Target(later, p).Ok?
    ensures var pv := Previewed(s, p, choices).value;
            var rows := later.library.RowsOf(Target(later, p).value);
            Activated(later, p, Some(Confirmation(pv))).Ok? <==>
              || !Resolvable(rows, later.catalog)
              || (&& JudgedSet(later.states, p, rows) == pv.objectives.Keys
                  && forall o :: o in pv.objectives ==> later.states[o].status == pv.objectives[o].shown)
  {
    var pv := Previewed(s, p, choices).value;
    KnownChoices(s, p, choices);
    AcceptedIffAnswered(later, p, Confirmation(pv));
    AnswersAsShown(pv, later.states, p, later.library.RowsOf(Target(later, p).value));
  }

  lemma AnswersAsShown(pv: Preview, states: States, p: ProductId, rows: seq<BaselineRow>)
    requires forall o :: o in pv.objectives ==> !pv.objectives[o].choice.Unknown?
    ensures Answers(Confirmation(pv), states, p, rows) <==>
              && JudgedSet(states, p, rows) == pv.objectives.Keys
              && forall o :: o in pv.objectives ==> states[o].status == pv.objectives[o].shown
  {
    var d := Confirmation(pv);
    assert d.Keys == pv.objectives.Keys;
    assert forall o :: o in d ==> d[o].shown == pv.objectives[o].shown && d[o].choice == pv.objectives[o].choice;
    assert JudgedSet(states, p, rows) <= states.Keys;
  }

  lemma KnownChoices(s: State, p: ProductId, choices: map<Objective, Choice>)
    requires Inv(s) && Previewed(s, p, choices).Ok?
    ensures var objectives := Previewed(s, p, choices).value.objectives;
            forall o :: o in objectives ==> !objectives[o].choice.Unknown?
  {
    var rows := s.library.RowsOf(Target(s, p).value);
    var judged := JudgedSet(s.states, p, rows);
    if judged != {} {
      var resolved := Resolved(s.states, judged, choices);
      PreviewedAsked(s, p, choices, resolved);
      AcceptedIffAnswered(s, p, resolved);
      JudgedIsResolvable(s, p, rows);
    }
  }

  lemma JudgedIsResolvable(s: State, p: ProductId, rows: seq<BaselineRow>)
    requires s.states.Keys <= s.catalog.objectives && JudgedSet(s.states, p, rows) != {}
    ensures Resolvable(rows, s.catalog)
  {
    var o :| o in JudgedSet(s.states, p, rows);
    assert o in s.catalog.objectives && Claim(rows, o).Some?;
  }

  // ---------------------------------------------------------------- what a move tells

  /** A move tells a person of every objective it left to be looked at again, except one that it
      newly covered and that was already waiting to be looked at. */
  lemma WhatAMoveTells(states: States, p: ProductId, from: seq<BaselineRow>, to: seq<BaselineRow>, o: Objective)
    requires o in states
    ensures o in MoveTells(states, p, from, to) <==>
              && Touched(states[o], p, Claim(from, o), Claim(to, o))
              && MoveAll(states, p, from, to)[o].status.NeedsReview?
              && !(Claim(from, o).None? && states[o].status.NeedsReview?)
  {
  }

  /** Such an objective, of which the move's report says nothing though it leaves it at needs_review. */
  lemma AlreadyWaitingIsNotTold()
    ensures var o := Objective("AC", "a");
            var states := map[o := ControlState(NeedsReview, Responsibility.CustomerOwns, map[])];
            && Touched(states[o], 1, Claim([], o), Claim([ROW], o))
            && MoveAll(states, 1, [], [ROW])[o].status.NeedsReview?
            && o !in MoveTells(states, 1, [], [ROW])
  {
    var o := Objective("AC", "a");
    assert ROW.Claims(o);
    assert Claim([ROW], o) == Some(ROW);
  }
}
