/** The pure rules of an assessment: statuses, who is responsible, and the SPRS score. */
module Rules {
  import opened Common

  type ControlId = string
  type ProductId = nat

  /** An assessment objective, by its natural key: the practice it belongs to and its letter. */
  datatype Objective = Objective(control: ControlId, key: string)

  datatype Status = NotMet | PendingEvidence | Partial | Met | NotApplicable | Inherited | NeedsReview

  datatype Responsibility = ProviderSatisfies | Shared | CustomerOwns | ExternalSystem

  /** What one product's baseline row claims. */
  datatype Classification = ProviderSatisfies | Shared | CustomerOwns

  /** A person's answer about one judged objective. Unknown is any text that is neither answer. */
  datatype Choice = Keep | Recheck | Unknown(text: string)

  const SPRS_MAX := 110

  predicate Satisfied(s: Status) {
    s.Met? || s.Inherited?
  }

  /** The statuses a person sets by judgement. */
  predicate Judged(s: Status) {
    s.Met? || s.Partial? || s.NotApplicable? || s.Inherited?
  }

  predicate JudgementInQuestion(current: Status, isFirst: bool) {
    isFirst && Judged(current)
  }

  /** The activation screen's default answer for a judged status. */
  function ActivationDefault(s: Status): Choice
    requires Judged(s)
  {
    if s.Met? || s.Partial? then Recheck else Keep
  }

  /** The status when a product joins an objective. A joining product never makes an objective
      satisfied, never touches one that was already covered, and overrides a person's judgement
      exactly when they did not keep it. */
  function ContributorAddedStatus(current: Status, isFirst: bool, choice: Option<Choice>): (after: Status)
    ensures Satisfied(after) ==> after == current
    ensures !isFirst ==> after == current
    ensures JudgementInQuestion(current, isFirst) ==> (after == current <==> choice == Some(Keep))
    ensures after != current ==> after.NeedsReview? || after.PendingEvidence?
    ensures isFirst ==> (after.PendingEvidence? <==> current.NotMet? || current.PendingEvidence?)
  {
    if !isFirst then current
    else if current.NeedsReview? then NeedsReview
    else if Judged(current) then (if choice == Some(Keep) then current else NeedsReview)
    else PendingEvidence
  }

  /** 'shared' wins: one contributor with a customer action keeps the objective shared. */
  function ResolveResponsibility(classes: set<Classification>): Responsibility {
    if Classification.Shared in classes then Responsibility.Shared else Responsibility.ProviderSatisfies
  }

  // ---------------------------------------------------------------- SPRS

  function Weight(weights: map<ControlId, nat>, c: ControlId): nat {
    if c in weights then weights[c] else 0
  }

  /** The total weight of a set of practices, whatever order they are taken in. */
  ghost function TotalWeight(controls: set<ControlId>, weights: map<ControlId, nat>): nat {
    if controls == {} then 0
    else
      var c :| c in controls;
      Weight(weights, c) + TotalWeight(controls - {c}, weights)
  }

  lemma {:induction false} TotalWeightRemove(controls: set<ControlId>, weights: map<ControlId, nat>, c: ControlId)
    requires c in controls
    ensures TotalWeight(controls, weights) == Weight(weights, c) + TotalWeight(controls - {c}, weights)
    decreases controls
  {
    var d :| d in controls && TotalWeight(controls, weights)
        == Weight(weights, d) + TotalWeight(controls - {d}, weights);
    if d != c {
      TotalWeightRemove(controls - {d}, weights, c);
      assert controls - {d} - {c} == controls - {c} - {d};
      TotalWeightRemove(controls - {c}, weights, d);
    }
  }

  lemma {:induction false} TotalWeightSplit(part: set<ControlId>, whole: set<ControlId>, weights: map<ControlId, nat>)
    requires part <= whole
    ensures TotalWeight(whole, weights) == TotalWeight(part, weights) + TotalWeight(whole - part, weights)
    decreases part
  {
    if part == {} {
      assert whole - part == whole;
    } else {
      var c :| c in part;
      TotalWeightRemove(part, weights, c);
      TotalWeightRemove(whole, weights, c);
      TotalWeightSplit(part - {c}, whole - {c}, weights);
      assert (whole - {c}) - (part - {c}) == whole - part;
    }
  }

  lemma {:induction false} TotalWeightAgree(controls: set<ControlId>, w1: map<ControlId, nat>, w2: map<ControlId, nat>)
    requires forall c :: c in controls ==> Weight(w1, c) == Weight(w2, c)
    ensures TotalWeight(controls, w1) == TotalWeight(controls, w2)
    decreases controls
  {
    if controls != {} {
      var c :| c in controls;
      TotalWeightRemove(controls, w1, c);
      TotalWeightRemove(controls, w2, c);
      TotalWeightAgree(controls - {c}, w1, w2);
    }
  }

  function StatusOf(statuses: map<Objective, Status>, o: Objective): Status {
    if o in statuses then statuses[o] else NotMet
  }

  /** The practices that lose their points: any objective neither met nor inherited. */
  function DeductingControls(objectivesByControl: map<ControlId, seq<Objective>>, statuses: map<Objective, Status>)
    : set<ControlId>
  {
    set c | c in objectivesByControl && objectivesByControl[c] != []
            && !(forall o :: o in objectivesByControl[c] ==> Satisfied(StatusOf(statuses, o)))
  }

  method ComputeSprs(weights: map<ControlId, nat>, objectivesByControl: map<ControlId, seq<Objective>>,
                     statuses: map<Objective, Status>) returns (score: int)
    ensures score == SPRS_MAX - TotalWeight(weights.Keys * DeductingControls(objectivesByControl, statuses), weights)
  {
    var deducting := DeductingControls(objectivesByControl, statuses);
    ghost var all := weights.Keys * deducting;
    var todo := weights.Keys;
    var sum := 0;
    while todo != {}
      invariant todo <= weights.Keys
      invariant sum + TotalWeight(todo * deducting, weights) == TotalWeight(all, weights)
      decreases todo
    {
      var c :| c in todo;
      if c in deducting {
        TotalWeightRemove(todo * deducting, weights, c);
        assert todo * deducting - {c} == (todo - {c}) * deducting;
        sum := sum + weights[c];
      } else {
        assert todo * deducting == (todo - {c}) * deducting;
      }
      todo := todo - {c};
    }
    assert todo * deducting == {};
    score := SPRS_MAX - sum;
  }

  /** The rule the score is for, read straight off the objectives' statuses. */
  function Deducting(statuses: map<Objective, Status>): set<ControlId> {
    set o | o in statuses && !Satisfied(statuses[o]) :: o.control
  }

  ghost function Score(statuses: map<Objective, Status>, weights: map<ControlId, nat>): int {
    SPRS_MAX - TotalWeight(Deducting(statuses), weights)
  }

  /** Builds compute_sprs's three dictionaries from the control states and scores them. */
  method ScoreStates(statuses: map<Objective, Status>, weights: map<ControlId, nat>) returns (score: int)
    ensures score == Score(statuses, weights)
  {
    var controlWeights: map<ControlId, nat> := map[];
    var objectivesByControl: map<ControlId, seq<Objective>> := map[];
    var todo := statuses.Keys;
    while todo != {}
      invariant todo <= statuses.Keys
      invariant controlWeights.Keys == objectivesByControl.Keys
      invariant forall c :: c in controlWeights ==> controlWeights[c] == Weight(weights, c)
      invariant forall c, o :: c in objectivesByControl && o in objectivesByControl[c]
                               ==> o in statuses && o !in todo && o.control == c
      invariant forall o :: o in statuses && o !in todo
                            ==> o.control in objectivesByControl && o in objectivesByControl[o.control]
      decreases todo
    {
      var o :| o in todo;
      controlWeights := controlWeights[o.control := Weight(weights, o.control)];
      var sofar := if o.control in objectivesByControl then objectivesByControl[o.control] else [];
      objectivesByControl := objectivesByControl[o.control := sofar + [o]];
      todo := todo - {o};
    }
    score := ComputeSprs(controlWeights, objectivesByControl, statuses);
    assert controlWeights.Keys * DeductingControls(objectivesByControl, statuses) == Deducting(statuses);
    TotalWeightAgree(Deducting(statuses), controlWeights, weights);
  }

  /** A practice deducts when one of its objectives is neither met nor inherited. */
  lemma DeductingMeans(statuses: map<Objective, Status>, c: ControlId)
    ensures c in Deducting(statuses) <==>
            exists o :: o in statuses && o.control == c && statuses[o] != Met && statuses[o] != Inherited
  {
    if exists o :: o in statuses && o.control == c && statuses[o] != Met && statuses[o] != Inherited {
      var o :| o in statuses && o.control == c && statuses[o] != Met && statuses[o] != Inherited;
      assert !Satisfied(statuses[o]);
    }
  }

  /** The score is never above 110 and never below 110 minus every practice's weight. */
  lemma ScoreBounds(statuses: map<Objective, Status>, weights: map<ControlId, nat>)
    requires forall o :: o in statuses ==> o.control in weights
    ensures 110 - TotalWeight(weights.Keys, weights) <= Score(statuses, weights) <= 110
    ensures Score(statuses, weights) == 110
       <==> forall o :: o in statuses && statuses[o] != Met && statuses[o] != Inherited ==> weights[o.control] == 0
  {
    TotalWeightSplit(Deducting(statuses), weights.Keys, weights);
    forall o | o in statuses && !Satisfied(statuses[o])
      ensures weights[o.control] <= TotalWeight(Deducting(statuses), weights)
    {
      TotalWeightRemove(Deducting(statuses), weights, o.control);
    }
    if forall o :: o in statuses && !Satisfied(statuses[o]) ==> weights[o.control] == 0 {
      ZeroWeights(Deducting(statuses), weights);
    }
  }

  lemma {:induction false} ZeroWeights(controls: set<ControlId>, weights: map<ControlId, nat>)
    requires forall c :: c in controls ==> Weight(weights, c) == 0
    ensures TotalWeight(controls, weights) == 0
    decreases controls
  {
    if controls != {} {
      var c :| c in controls;
      TotalWeightRemove(controls, weights, c);
      ZeroWeights(controls - {c}, weights);
    }
  }

  /** When nothing becomes satisfied, exactly the practices that start deducting are lost. */
  lemma ScoreDrop(before: map<Objective, Status>, after: map<Objective, Status>, weights: map<ControlId, nat>)
    requires before.Keys <= after.Keys
    requires forall o :: o in before && Satisfied(after[o]) ==> Satisfied(before[o])
    ensures Deducting(before) <= Deducting(after)
    ensures Score(before, weights) - Score(after, weights) == TotalWeight(Deducting(after) - Deducting(before), weights)
  {
    forall c | c in Deducting(before)
      ensures c in Deducting(after)
    {
      var o :| o in before && !Satisfied(before[o]) && o.control == c;
      assert o in after && !Satisfied(after[o]);
    }
    TotalWeightSplit(Deducting(before), Deducting(after), weights);
  }
}
