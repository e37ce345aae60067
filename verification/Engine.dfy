/** The coverage engine as it runs: the operations of one assessment, changing its rows in place,
    loop by loop. Each is proved to leave exactly the state the state machine in Coverage gives. */
module Engine {
  import opened Common
  import opened Rules
  import opened Baseline
  import opened EvidenceLinks
  import opened EvidenceTasks
  import opened Coverage
  import opened CoverageProofs
  import opened ActivationPreview

  /** One update the magic loop asks for. What it says is one product's claim in isolation. */
  datatype Update = Update(objective: Objective, status: Status, responsibility: Responsibility)

  /** Every objective of the catalog that a counting row claims, once each. */
  method MagicLoopUpdates(rows: seq<BaselineRow>, objectives: set<Objective>) returns (updates: seq<Update>)
    requires OneRowPerPractice(rows)
    ensures forall i, j :: 0 <= i < j < |updates| ==> updates[i].objective != updates[j].objective
    ensures forall u :: u in updates ==> u.objective in objectives && Claim(rows, u.objective).Some?
    ensures forall u ::
          u in updates ==> u.status == PendingEvidence && u.responsibility == AloneResponsible(rows, u.objective)
    ensures forall o :: o in objectives && Claim(rows, o).Some? ==> HasUpdate(updates, o)
  {
    updates := [];
    for i := 0 to |rows|
      invariant forall u :: u in updates ==> Made(rows, objectives, i, u)
      invariant forall a, b :: 0 <= a < b < |updates| ==> updates[a].objective != updates[b].objective
      invariant forall o, k :: o in objectives && 0 <= k < i && rows[k].Claims(o) ==> HasUpdate(updates, o)
    {
      var row := rows[i];
      if row.Counts() {
        var responsibility := if row.classification.ProviderSatisfies? then Responsibility.ProviderSatisfies
            else Responsibility.Shared;
        ghost var earlier := updates;
        for j := 0 to |row.objectives|
          invariant earlier <= updates
          invariant forall u :: u in updates ==> u in earlier || MadeFrom(row, objectives, j, responsibility, u)
          invariant forall a, b :: 0 <= a < b < |updates| ==> updates[a].objective != updates[b].objective
          invariant forall o :: HasUpdate(earlier, o) ==> HasUpdate(updates, o)
          invariant forall k :: 0 <= k < j ==> (Objective(row.control, row.objectives[k]) in objectives
                ==> HasUpdate(updates, Objective(row.control, row.objectives[k])))
        {
          var o := Objective(row.control, row.objectives[j]);
          if o in objectives {
            assert forall u :: u in earlier ==> u.objective.control != row.control;
            ghost var was := updates;
            updates := updates + [Update(o, PendingEvidence, responsibility)];
            assert updates[|was|].objective == o && HasUpdate(updates, o);
            assert forall a :: 0 <= a < |was| ==> updates[a] == was[a];
          }
        }
        forall o | o in objectives && row.Claims(o)
          ensures HasUpdate(updates, o)
        {
          var k :| 0 <= k < |row.objectives| && row.objectives[k] == o.key;
          assert Objective(row.control, row.objectives[k]) == o;
        }
        forall u | u in updates
          ensures Made(rows, objectives, i + 1, u)
        {
          if u in earlier {
            assert Made(rows, objectives, i, u);
            var k :| 0 <= k < i && MadeBy(rows[k], u);
          } else {
            assert MadeBy(rows[i], u);
          }
        }
      }
    }
    forall u | u in updates
      ensures Claim(rows, u.objective).Some?
      ensures u.responsibility == AloneResponsible(rows, u.objective)
    {
      assert Made(rows, objectives, |rows|, u);
      var k :| 0 <= k < |rows| && MadeBy(rows[k], u);
      TheClaim(rows, rows[k], u.objective);
    }
    forall o | o in objectives && Claim(rows, o).Some?
      ensures HasUpdate(updates, o)
    {
      var k :| 0 <= k < |rows| && rows[k] == Claim(rows, o).value;
    }
  }

  /** An update made from one of the first n rows. */
  ghost predicate Made(rows: seq<BaselineRow>, objectives: set<Objective>, n: nat, u: Update)
    requires n <= |rows|
  {
    && u.objective in objectives && u.status == PendingEvidence
    && exists k :: 0 <= k < n && MadeBy(rows[k], u)
  }

  ghost predicate MadeBy(row: BaselineRow, u: Update) {
    row.Claims(u.objective) && u.responsibility == ResolveResponsibility({row.classification})
  }

  ghost predicate MadeFrom(row: BaselineRow, objectives: set<Objective>, n: nat, responsibility: Responsibility,
                           u: Update)
    requires n <= |row.objectives|
  {
    && u.objective in objectives && u.objective.control == row.control && u.objective.key in row.objectives[..n]
    && u == Update(u.objective, PendingEvidence, responsibility)
  }

  ghost predicate HasUpdate(updates: seq<Update>, o: Objective) {
    exists i :: 0 <= i < |updates| && updates[i].objective == o
  }

  /** Who would be responsible if the claiming row were the only one. */
  ghost function AloneResponsible(rows: seq<BaselineRow>, o: Objective): Responsibility
    requires Claim(rows, o).Some?
  {
    ResolveResponsibility({Claim(rows, o).value.classification})
  }

  datatype LoopReport = LoopReport(updated: nat, created: nat, judged: map<Objective, (Status, Status)>)

  /** The objectives these rows bring a product to that does not cover them yet. */
  ghost function JoinedBy(states: States, p: ProductId, rows: seq<BaselineRow>): set<Objective> {
    set o | o in states && Claim(rows, o).Some? && p !in states[o].contributors
  }

  /** The first n tasks' live ones of these specs. */
  ghost function LiveTasksOf(tasks: seq<Task>, ids: set<SpecId>, n: nat): set<nat>
    requires n <= |tasks|
  {
    set i: nat | i < n && FromSpecs(tasks[i], ids) && !tasks[i].archived
  }

  datatype DeactivationReport = DeactivationReport(flagged: nat, tasksArchived: nat, linksArchived: nat)

  datatype MoveReport = MoveReport(created: nat, told: map<Objective, Told>)

  /** The states part-way through a loop: the objectives in done have been dealt with. */
  ghost predicate Halfway(states: States, before: States, done: set<Objective>, after: States) {
    && states.Keys == before.Keys == after.Keys
    && forall o :: o in before ==> states[o] == if o in done then after[o] else before[o]
  }

  /** The contributor's row gone, and nothing else changed yet. */
  function Withdrawn(cs: ControlState, p: ProductId): ControlState {
    cs.(contributors := cs.contributors - {p})
  }

  class Assessment {
    var library: Library
    var catalog: Catalog
    var products: map<ProductId, OrgProduct>
    var states: States
    var board: Board
    var sources: map<EvidenceId, Source>
    var links: Links
    var score: int

    function View(): State
      reads this
    {
      State(library, catalog, products, states, board, sources, links, score)
    }

    /** What the database's constraints hold of the rows an operation reads. */
    ghost predicate Ready()
      reads this
    {
      library.Valid() && states.Keys <= catalog.objectives
    }

    /** Seeds every objective of the framework, then runs the loop of each product already active. */
    constructor Start(library: Library, catalog: Catalog, products: map<ProductId, OrgProduct>,
                      sources: map<EvidenceId, Source>, order: seq<ProductId>)
      requires library.Valid()
      ensures View() == Started(library, catalog, products, sources, order)
    {
      this.library, this.catalog, this.products, this.sources := library, catalog, products, sources;
      this.states := map o | o in catalog.objectives :: SEEDED;
      this.board := Board([], {});
      this.links := map[];
      this.score := SPRS_MAX;
      new;
      for i := 0 to |order|
        invariant this.library == library && this.catalog == catalog && this.products == products
        invariant this.sources == sources && links == map[]
        invariant (states, board) == StartLoop(library, catalog, products, order[..i])
        invariant states.Keys == catalog.objectives
      {
        var p := order[i];
        assert order[..i + 1][..i] == order[..i];
        if Adoptable(products, p) {
          var rows := library.RowsOf(products[p].pin.value);
          assert OneRowPerPractice(rows);
          var _ := RunLoop(p, rows, None);
        }
      }
      assert order[..|order|] == order;
      RecomputeSprs();
    }

    method RecomputeSprs()
      modifies this`score
      ensures score == ScoreOf(states, catalog)
    {
      score := ScoreStates(StatusMap(states), catalog.weights);
    }

    /** One product joins one objective it does not cover yet. Says whether a judgement was in
        question, or None when it was and the answer does not fit. */
    method JoinObjective(o: Objective, p: ProductId, row: BaselineRow,
                         decisions: Option<Decisions>) returns (asked: Option<bool>)
      requires o in states && p !in states[o].contributors
      modifies this`states
      ensures var cs := old(states)[o];
              var inQuestion := JudgementInQuestion(cs.status, cs.contributors == map[]);
              && (asked.None? <==> inQuestion && decisions.Some? && !AnsweredRight(decisions.value, old(states), o))
              && (asked.Some? ==> asked.value == inQuestion)
      ensures asked.None? ==> states == old(states)
      ensures asked.Some? ==> states == old(states)[o := Joined(old(states)[o], p, row, ChoiceFor(decisions, o))]
    {
      var cs := states[o];
      var hadPrior := cs.contributors != map[];
      var inQuestion := JudgementInQuestion(cs.status, !hadPrior);
      if inQuestion && decisions.Some? && (o !in decisions.value || decisions.value[o].shown != cs.status) {
        return None;
      }
      var choice := if inQuestion && decisions.Some? then Some(decisions.value[o].choice) else None;
      if choice.Some? && choice.value.Unknown? {
        return None;
      }
      var status := ContributorAddedStatus(cs.status, !hadPrior, choice);
      var responsibility := ResolveResponsibility(Classes(cs.contributors) + {row.classification});
      states := states[o := ControlState(status, responsibility, cs.contributors[p := row])];
      asked := Some(inQuestion);
    }

    /** Applies the loop's updates in turn, noting which judgements were in question. */
    method ApplyUpdates(p: ProductId, rows: seq<BaselineRow>, updates: seq<Update>, decisions: Option<Decisions>)
      returns (r: Option<map<Objective, (Status, Status)>>, updated: nat)
      requires forall i, j :: 0 <= i < j < |updates| ==> updates[i].objective != updates[j].objective
      requires forall u :: u in updates ==> Claim(rows, u.objective).Some?
      modifies this`states
      ensures r.None? ==> decisions.Some? && !Answers(decisions.value, old(states), p, rows)
      ensures r.Some? ==> Underway(states, r.value, updated, old(states), p, rows, decisions, UpdatedBy(updates))
    {
      ghost var before, done := states, {};
      var judged: map<Objective, (Status, Status)> := map[];
      updated := 0;
      NothingUnderway(before, p, rows, decisions);
      for i := 0 to |updates|
        invariant done == UpdatedBy(updates[..i])
        invariant Underway(states, judged, updated, before, p, rows, decisions, done)
      {
        assert updates[i] in updates;
        NotYetDone(updates, i);
        var more;
        more, updated := ApplyUpdate(updates[i].objective, p, rows, decisions, judged, updated, before, done);
        if more.None? {
          return None, updated;
        }
        judged := more.value;
        UpdatedByOneMore(updates, i);
        done := done + {updates[i].objective};
      }
      assert updates[..|updates|] == updates;
      r := Some(judged);
    }

    /** One update: nothing for an objective without a state, or one the product covers already. */
    method ApplyUpdate(o: Objective, p: ProductId, rows: seq<BaselineRow>, decisions: Option<Decisions>,
                       judged: map<Objective, (Status, Status)>, updated: nat, ghost before: States,
                       ghost done: set<Objective>)
      returns (r: Option<map<Objective, (Status, Status)>>, more: nat)
      requires Claim(rows, o).Some? && o !in done
      requires Underway(states, judged, updated, before, p, rows, decisions, done)
      modifies this`states
      ensures r.None? ==> decisions.Some? && !Answers(decisions.value, before, p, rows)
      ensures r.Some? ==> Underway(states, r.value, more, before, p, rows, decisions, done + {o})
    {
      ghost var after := JoinAll(before, p, rows, decisions);
      HalfwayOneMore(states, before, done, after, o);
      JudgedOneMore(judged, before, after, JudgedSet(before, p, rows), done, decisions, o);
      OneMoreOf(JoinedBy(before, p, rows), done, o);
      if o !in states || p in states[o].contributors {
        return Some(judged), updated;
      }
      var was := states[o].status;
      var inQuestion := JoinObjective(o, p, Claim(rows, o).value, decisions);
      if inQuestion.None? {
        WrongAnswer(before, p, rows, decisions.value, o);
        return None, updated;
      }
      more := updated + 1;
      r := Some(if inQuestion.value then judged[o := (was, states[o].status)] else judged);
    }

    /** The magic loop. None is a refusal: what was written so far is for the caller to roll back. */
    method RunLoop(p: ProductId, rows: seq<BaselineRow>, decisions: Option<Decisions>) returns (r: Option<LoopReport>)
      requires OneRowPerPractice(rows) && states.Keys <= catalog.objectives
      modifies this`states, this`board
      ensures r.None? <==> Loop(old(states), old(board), catalog, p, rows, decisions).None?
      ensures r.Some? ==> Loop(old(states), old(board), catalog, p, rows, decisions) == Some((states, board))
      ensures r.Some? ==> IsJudged(r.value.judged, old(states), states, JudgedSet(old(states), p, rows))
      ensures r.Some? ==> LoopCounts(r.value, |JoinedBy(old(states), p, rows)|, old(board), board)
    {
      var updates := MagicLoopUpdates(rows, catalog.objectives);
      ghost var before := states;
      if updates == [] {
        NothingClaimed(catalog, rows);
        assert JoinedBy(states, p, rows) == {};
        NothingToJudge(before, catalog, p, rows);
        return Some(LoopReport(0, 0, map[]));
      }
      SomethingClaimed(catalog, rows, updates);
      var judged, updated := JoinClaims(p, rows, updates, decisions);
      if judged.None? {
        return None;
      }
      assert states.Keys == before.Keys;
      var created;
      ghost var boardBefore := board;
      board, created := FanOutTasks(board, states.Keys, rows);
      FanOutCounts(boardBefore, states.Keys, rows);
      r := Some(LoopReport(updated, created, judged.value));
    }

    /** Applies the updates, and refuses answers that are not to exactly the questions raised. */
    method JoinClaims(p: ProductId, rows: seq<BaselineRow>, updates: seq<Update>, decisions: Option<Decisions>)
      returns (r: Option<map<Objective, (Status, Status)>>, updated: nat)
      requires forall i, j :: 0 <= i < j < |updates| ==> updates[i].objective != updates[j].objective
      requires forall u :: u in updates ==> Claim(rows, u.objective).Some?
      requires forall o :: o in catalog.objectives && Claim(rows, o).Some? ==> HasUpdate(updates, o)
      requires states.Keys <= catalog.objectives
      modifies this`states
      ensures r.None? <==> decisions.Some? && !Answers(decisions.value, old(states), p, rows)
      ensures r.Some? ==> states == JoinAll(old(states), p, rows, decisions)
      ensures r.Some? ==> IsJudged(r.value, old(states), states, JudgedSet(old(states), p, rows))
      ensures r.Some? ==> updated == |JoinedBy(old(states), p, rows)|
    {
      ghost var before := states;
      r, updated := ApplyUpdates(p, rows, updates, decisions);
      if r.None? {
        return;
      }
      AllDone(before, catalog, p, rows, decisions, updates);
      AllJoined(states, before, p, rows, decisions, UpdatedBy(updates));
      AllJudged(r.value, before, p, rows, decisions);
      if decisions.Some? && decisions.value.Keys != r.value.Keys {
        r := None;
      }
    }

    // -------------------------------------------------------------- activation

    method RestoreArchivedTasks(ids: set<SpecId>)
      modifies this`board
      ensures board == old(board).(tasks := RestoreTasks(old(board).tasks, ids))
    {
      var tasks := board.tasks;
      for i := 0 to |tasks|
        invariant |tasks| == |old(board).tasks|
        invariant forall j :: 0 <= j < i ==> tasks[j] == RestoredTask(old(board).tasks[j], ids)
        invariant forall j :: i <= j < |tasks| ==> tasks[j] == old(board).tasks[j]
      {
        var task := tasks[i];
        if FromSpecs(task, ids) && task.archived {
          task := task.(archived := false);
          if task.status.NotApplicable? {
            task := task.(status := Open);
          }
          tasks := tasks[i := task];
        }
      }
      board := board.(tasks := tasks);
    }

    method RestoreArchivedLinks(p: ProductId) returns (restored: set<Objective>)
      modifies this`links
      ensures links == RestoreLinks(old(links), p) && restored == RestoredObjectives(old(links), p)
    {
      var before, todo := links, links.Keys;
      restored := {};
      while todo != {}
        invariant todo <= before.Keys == links.Keys
        invariant forall k :: k in links ==> links[k] == if k !in todo && before[k].ArchivedBy(p) then LIVE
              else before[k]
        invariant restored == set k | k in before && k !in todo && before[k].ArchivedBy(p) :: k.objective
        decreases todo
      {
        var k :| k in todo;
        ghost var was := restored;
        if links[k].ArchivedBy(p) {
          links := links[k := LIVE];
          restored := restored + {k.objective};
        }
        todo := todo - {k};
      }
    }

    /** Objectives that got archived evidence back are looked at again rather than left pending. */
    method RecheckRestored(restored: set<Objective>)
      modifies this`states
      ensures states == Rechecked(old(states), restored)
    {
      var before, todo := states, restored * states.Keys;
      while todo != {}
        invariant todo <= restored * before.Keys && states.Keys == before.Keys
        invariant forall o :: o in states ==> states[o] == if o in restored && o !in todo
              && before[o].status.PendingEvidence?
                                                            then before[o].(status := NeedsReview) else before[o]
        decreases todo
      {
        var o :| o in todo;
        if states[o].status.PendingEvidence? {
          states := states[o := states[o].(status := NeedsReview)];
        }
        todo := todo - {o};
      }
    }

    /** Puts every row back as it was when the operation began. */
    method RollBack(to: State)
      modifies this
      ensures View() == to
    {
      library, catalog, products, states := to.library, to.catalog, to.products, to.states;
      board, sources, links, score := to.board, to.sources, to.links, to.score;
    }

    /** The pinned version on a return; the product's published current version the first time. */
    method ChooseVersion(p: ProductId) returns (r: Result<VersionId, Refusal>)
      ensures r == Target(View(), p)
    {
      if p !in library.products {
        return Err(UnknownProduct);
      }
      if p !in products || products[p].pin.None? {
        if !library.products[p].published {
          return Err(NotPublished);
        }
        if library.products[p].current.None? {
          return Err(NoVersion);
        }
        return Ok(library.products[p].current.value);
      }
      r := Ok(products[p].pin.value);
    }

    method Activate(p: ProductId, decisions: Option<Decisions>) returns (r: Result<LoopReport, Refusal>)
      requires Ready()
      modifies this
      ensures r.Ok? ==> Activated(old(View()), p, decisions) == Ok(View())
      ensures r.Err? ==> Activated(old(View()), p, decisions) == Err(r.error) && View() == old(View())
      ensures r.Ok? ==> r.value.judged.Keys == JudgedSet(old(states), p, library.RowsOf(Target(old(View()), p).value))
      ensures r.Ok? ==> var rows := library.RowsOf(Target(old(View()), p).value);
                        LoopCounts(r.value, |JoinedBy(old(states), p, rows)|, old(board), board)
    {
      var begin := View();
      var chosen := ChooseVersion(p);
      if chosen.Err? {
        return Err(chosen.error);
      }
      var target := chosen.value;
      var rows := library.RowsOf(target);
      assert OneRowPerPractice(rows);
      products := products[p := OrgProduct(Active, true, Some(target))];
      RestoreArchivedTasks(SpecIds(rows));
      var restored := RestoreArchivedLinks(p);
      var looped := RunLoop(p, rows, decisions);
      if looped.None? {
        RollBack(begin);
        return Err(DecisionsRefused);
      }
      RecheckRestored(restored);
      RecomputeSprs();
      ActivationAssembled(begin, p, decisions, View());
      r := Ok(looped.value);
    }

    // -------------------------------------------------------------- deactivation

    /** The product's contributions go first; then each objective it covered is looked at again,
        its responsibility resolved from whoever is left. */
    method WithdrawFrom(p: ProductId) returns (sourced: set<Objective>)
      modifies this`states
      ensures states == LeaveAll(old(states), p) && sourced == Covered(old(states), p)
    {
      var before := states;
      sourced := Covered(before, p);
      var todo := sourced;
      while todo != {}
        invariant todo <= sourced && states.Keys == before.Keys
        invariant forall o :: o in states ==>
                                states[o] == if o in sourced && o !in todo then Withdrawn(before[o], p) else before[o]
        decreases todo
      {
        var o :| o in todo;
        states := states[o := states[o].(contributors := states[o].contributors - {p})];
        todo := todo - {o};
      }
      todo := sourced;
      while todo != {}
        invariant todo <= sourced && states.Keys == before.Keys
        invariant forall o ::
              o in states && o in todo ==> states[o] == Withdrawn(before[o], p)
        invariant forall o :: o in states && o !in todo ==> states[o] == Left(before[o], p)
        decreases todo
      {
        var o :| o in todo;
        var remaining := states[o].contributors;
        var responsibility := if remaining != map[] then ResolveResponsibility(Classes(remaining))
            else states[o].responsibility;
        states := states[o := ControlState(NeedsReview, responsibility, remaining)];
        todo := todo - {o};
      }
    }

    method ArchiveCoveredLinks(p: ProductId, sourced: set<Objective>, now: int) returns (archived: nat)
      modifies this`links
      ensures links == RetireLinks(old(links), sources, sourced, p, now)
      ensures archived == |ToRetire(old(links), sources, sourced)|
    {
      var before, todo := links, links.Keys;
      ghost var done: set<LinkKey> := {};
      archived := 0;
      while todo != {}
        invariant todo <= before.Keys == links.Keys
        invariant done == set k | k in before && k !in todo && Retires(k, before[k], sources, sourced)
        invariant forall k :: k in links ==> links[k] == if k in done then Retired(before[k], now, p) else before[k]
        invariant archived == |done|
        decreases todo
      {
        var k :| k in todo;
        if Retires(k, links[k], sources, sourced) {
          links := links[k := Archived(links[k], Deactivation, now, Some(p), None).value];
          archived := archived + 1;
          done := done + {k};
        }
        todo := todo - {k};
      }
      assert done == ToRetire(before, sources, sourced);
    }

    method ArchiveProductTasks(ids: set<SpecId>) returns (archived: nat)
      modifies this`board
      ensures board == old(board).(tasks := ArchiveTasks(old(board).tasks, ids))
      ensures archived == |LiveTasksOf(old(board).tasks, ids, |old(board).tasks|)|
    {
      var before, tasks := board.tasks, board.tasks;
      archived := 0;
      assert LiveTasksOf(before, ids, 0) == {};
      for i := 0 to |tasks|
        invariant board == old(board) && |tasks| == |before|
        invariant forall j :: 0 <= j < i ==> tasks[j] == ArchivedTask(before[j], ids)
        invariant forall j :: i <= j < |tasks| ==> tasks[j] == before[j]
        invariant archived == |LiveTasksOf(before, ids, i)|
      {
        LiveTasksOneMore(before, ids, i);
        var task := tasks[i];
        if FromSpecs(task, ids) && !task.archived {
          task := task.(archived := true);
          if task.status.Open? {
            task := task.(status := TaskStatus.NotApplicable);
          }
          tasks := tasks[i := task];
          archived := archived + 1;
        }
      }
      assert tasks == ArchiveTasks(before, ids);
      board := board.(tasks := tasks);
    }

    method Deactivate(p: ProductId, replacedBy: Option<ProductId>, now: int) 
      returns (r: Result<DeactivationReport, Refusal>)
      requires Ready()
      modifies this
      ensures r.Ok? ==> Deactivated(old(View()), p, replacedBy, now) == Ok(View())
      ensures r.Ok? ==> r.value.flagged == |Covered(old(states), p)|
      ensures r.Ok? ==> r.value.linksArchived == |ToRetire(old(links), sources, Covered(old(states), p))|
      ensures r.Ok? ==> r.value.tasksArchived
                          == |LiveTasksOf(old(board).tasks, library.SpecsOfProduct(p), |old(board).tasks|)|
      ensures r.Err? ==> Deactivated(old(View()), p, replacedBy, now) == Err(r.error) && View() == old(View())
    {
      var begin := View();
      if p !in library.products {
        return Err(UnknownProduct);
      }
      if p !in products {
        return Err(NotAdopted);
      }
      if replacedBy == Some(p) {
        return Err(OwnReplacement);
      }
      if replacedBy.Some? && replacedBy.value !in library.products {
        return Err(UnknownProduct);
      }
      products := products[p := products[p].(status := Decommissioned)];
      var sourced := WithdrawFrom(p);
      var linksArchived := ArchiveCoveredLinks(p, sourced, now);
      var tasksArchived := ArchiveProductTasks(library.SpecsOfProduct(p));
      RecomputeSprs();
      DeactivationAssembled(begin, p, replacedBy, now, View());
      r := Ok(DeactivationReport(|sourced|, tasksArchived, linksArchived));
    }

    // -------------------------------------------------------------- version move

    /** One objective both versions are looked at for. Says what kind of change was made. */
    method MoveObjective(o: Objective, p: ProductId, oldRow: Option<BaselineRow>,
                         newRow: Option<BaselineRow>) returns (told: Option<Why>)
      requires o in states
      modifies this`states
      ensures states == old(states)[o := Moved(old(states)[o], p, oldRow, newRow)]
      ensures told == ReasonTold(old(states)[o], p, oldRow, newRow)
    {
      var cs := states[o];
      var isContributor := p in cs.contributors;
      told := None;
      if oldRow.Some? && newRow.None? {
        if isContributor {
          var remaining := cs.contributors - {p};
          var responsibility := if remaining != map[] then ResolveResponsibility(Classes(remaining))
              else cs.responsibility;
          states := states[o := ControlState(NeedsReview, responsibility, remaining)];
          told := Some(NoLongerCovered);
        }
      } else if oldRow.None? && newRow.Some? {
        if !isContributor {
          var hadPrior := cs.contributors != map[];
          var status := ContributorAddedStatus(cs.status, !hadPrior, None);
          var responsibility := ResolveResponsibility(Classes(cs.contributors) + {newRow.value.classification});
          states := states[o := ControlState(status, responsibility, cs.contributors[p := newRow.value])];
          if JudgementInQuestion(cs.status, !hadPrior) {
            told := Some(JudgedNewlyCovered);
          }
        }
      } else if oldRow.Some? && isContributor && oldRow.value.classification != newRow.value.classification {
        var contributors := cs.contributors[p := newRow.value];
        states := states[o := ControlState(NeedsReview, ResolveResponsibility(Classes(contributors)), contributors)];
        told := Some(MappingChanged);
      }
    }

    method MoveNamed(o: Objective, p: ProductId, oldRow: Option<BaselineRow>, newRow: Option<BaselineRow>,
                     told: map<Objective, Told>, gaining: set<ControlId>)
      returns (toldNow: map<Objective, Told>, gainingNow: set<ControlId>)
      requires o in states
      modifies this`states
      ensures states == old(states)[o := Moved(old(states)[o], p, oldRow, newRow)]
      ensures var why := ReasonTold(old(states)[o], p, oldRow, newRow);
              toldNow == if why.Some? then told[o := Told(old(states)[o].status, why.value)] else told
      ensures gainingNow == if Gains(old(states)[o], p, oldRow, newRow) then gaining + {o.control} else gaining
    {
      toldNow, gainingNow := told, gaining;
      var was := states[o].status;
      if Gains(states[o], p, oldRow, newRow) {
        gainingNow := gaining + {o.control};
      }
      var why := MoveObjective(o, p, oldRow, newRow);
      if why.Some? {
        toldNow := told[o := Told(was, why.value)];
      }
    }

    /** One more of the named objectives, which may have no state here. */
    method MoveNext(o: Objective, p: ProductId, oldRows: seq<BaselineRow>, newRows: seq<BaselineRow>,
                    told: map<Objective, Told>, gaining: set<ControlId>, ghost before: States,
                    ghost done: set<Objective>)
      returns (toldNow: map<Objective, Told>, gainingNow: set<ControlId>)
      requires MoveHalfway(states, told, gaining, before, p, oldRows, newRows, done) && o !in done
      modifies this`states
      ensures MoveHalfway(states, toldNow, gainingNow, before, p, oldRows, newRows, done + {o})
    {
      MoveOneMore(states, told, gaining, before, p, oldRows, newRows, done, o);
      toldNow, gainingNow := told, gaining;
      if o in states {
        toldNow, gainingNow := MoveNamed(o, p, Claim(oldRows, o), Claim(newRows, o), told, gaining);
      }
    }

    /** Every objective either version names, looked at once. Also gives the practices whose new
        row has evidence to be asked for. */
    method MoveClaims(p: ProductId, oldRows: seq<BaselineRow>, newRows: seq<BaselineRow>)
      returns (told: map<Objective, Told>, gaining: set<ControlId>)
      modifies this`states
      ensures states == MoveAll(old(states), p, oldRows, newRows)
      ensures told == MoveTells(old(states), p, oldRows, newRows)
      ensures gaining == GainingPractices(old(states), p, oldRows, newRows)
    {
      var before := states;
      var named := NamedBy(oldRows) + NamedBy(newRows);
      var todo := named;
      told, gaining := map[], {};
      assert named - todo == {};
      MoveBegun(states, p, oldRows, newRows);
      while todo != {}
        invariant todo <= named
        invariant MoveHalfway(states, told, gaining, before, p, oldRows, newRows, named - todo)
        decreases todo
      {
        var o :| o in todo;
        assert named - (todo - {o}) == named - todo + {o};
        told, gaining := MoveNext(o, p, oldRows, newRows, told, gaining, before, named - todo);
        todo := todo - {o};
      }
      assert named - {} == named;
      MoveDone(states, told, gaining, before, p, oldRows, newRows);
    }

    method Move(p: ProductId, v: VersionId) returns (r: Result<MoveReport, Refusal>)
      requires Ready()
      modifies this
      ensures r.Ok? ==> var s := old(View()); MovedTo(s, p, v) == Ok(View())
                                              && r.value.told
                                                  == MoveTells(s.states, p, PinnedRows(s, p), s.library.RowsOf(v))
                                              && r.value.created == |board.tasks| - |s.board.tasks|
      ensures r.Err? ==> MovedTo(old(View()), p, v) == Err(r.error) && View() == old(View())
    {
      if p !in products || !products[p].status.Active? {
        return Err(NotActive);
      }
      if products[p].pin == Some(v) {
        return Err(AlreadyOnVersion);
      }
      if v !in library.versions || library.versions[v].product != p {
        return Err(WrongVersion);
      }
      if p !in library.products {
        return Err(UnknownProduct);
      }
      var report := MoveAccepted(p, v);
      r := Ok(report);
    }

    method MoveAccepted(p: ProductId, v: VersionId) returns (report: MoveReport)
      requires Ready()
      requires p in products && products[p].status.Active? && products[p].pin != Some(v)
      requires v in library.versions && library.versions[v].product == p && p in library.products
      modifies this
      ensures var s := old(View()); MovedTo(s, p, v) == Ok(View())
                                    && report.told == MoveTells(s.states, p, PinnedRows(s, p), s.library.RowsOf(v))
                                    && report.created == |board.tasks| - |s.board.tasks|
    {
      ghost var begin := View();
      var oldRows := if products[p].pin.Some? then library.RowsOf(products[p].pin.value) else [];
      var newRows := library.RowsOf(v);
      products := products[p := products[p].(pin := Some(v))];
      report := MoveRows(p, oldRows, newRows);
      RecomputeSprs();
      MoveAssembled(begin, p, v, oldRows, newRows, View());
    }

    method MoveRows(p: ProductId, oldRows: seq<BaselineRow>, newRows: seq<BaselineRow>) returns (report: MoveReport)
      requires OneRowPerPractice(newRows)
      modifies this`states, this`board
      ensures states == MoveAll(old(states), p, oldRows, newRows)
      ensures board == FanOut(old(board), old(states).Keys, GainingRows(old(states), p, oldRows, newRows, newRows))
      ensures report.told == MoveTells(old(states), p, oldRows, newRows)
      ensures report.created == |board.tasks| - |old(board).tasks|
    {
      ghost var before := states;
      var told, gaining := MoveClaims(p, oldRows, newRows);
      assert states.Keys == before.Keys;
      var created := AskFor(before, p, oldRows, newRows, gaining);
      report := MoveReport(created, told);
    }

    /** Asks for the evidence of the rows that gained an objective. */
    method AskFor(ghost before: States, p: ProductId, oldRows: seq<BaselineRow>, newRows: seq<BaselineRow>,
                  gaining: set<ControlId>)
      returns (created: nat)
      requires OneRowPerPractice(newRows) && gaining == GainingPractices(before, p, oldRows, newRows)
      modifies this`board
      ensures board == FanOut(old(board), states.Keys, GainingRows(before, p, oldRows, newRows, newRows))
      ensures created == |board.tasks| - |old(board).tasks|
    {
      var asking := RowsFor(before, p, oldRows, newRows, gaining);
      board, created := FanOutTasks(board, states.Keys, asking);
      FanOutCounts(old(board), states.Keys, asking);
    }

    /** The new version's rows for these practices, in its order. */
    method RowsFor(ghost before: States, p: ProductId, oldRows: seq<BaselineRow>, newRows: seq<BaselineRow>,
                   gaining: set<ControlId>)
      returns (asking: seq<BaselineRow>)
      requires OneRowPerPractice(newRows) && gaining == GainingPractices(before, p, oldRows, newRows)
      ensures asking == GainingRows(before, p, oldRows, newRows, newRows)
    {
      asking := [];
      for i := 0 to |newRows|
        invariant asking == GainingRows(before, p, oldRows, newRows, newRows[..i])
      {
        assert newRows[..i + 1][..i] == newRows[..i];
        if newRows[i].Counts() {
          PracticeGains(before, p, oldRows, newRows, i);
        }
        if newRows[i].Counts() && newRows[i].control in gaining {
          asking := asking + [newRows[i]];
        }
      }
      assert newRows[..|newRows|] == newRows;
    }

    // -------------------------------------------------------------- the other steps

    method SeedObjectives(missing: set<Objective>)
      requires missing !! states.Keys
      modifies this`states
      ensures states == SeedMissing(old(states), missing)
    {
      var before, todo := states, missing;
      while todo != {}
        invariant todo <= missing && states.Keys == before.Keys + (missing - todo)
        invariant forall o :: o in states ==> states[o] == if o in before then before[o] else SEEDED
        decreases todo
      {
        var o :| o in todo;
        states := states[o := SEEDED];
        todo := todo - {o};
      }
    }

    /** Gives a state to each objective of the framework that has none; no loop is run for it. */
    method BackfillMissing() returns (added: nat)
      requires Ready()
      modifies this
      ensures View() == Backfilled(old(View()))
      ensures added == |catalog.objectives - old(states).Keys|
    {
      ghost var begin := View();
      var missing := catalog.objectives - states.Keys;
      added := |missing|;
      if missing == {} {
        return;
      }
      SeedObjectives(missing);
      SeedingMissing(begin.states, catalog.objectives);
      RecomputeSprs();
      BackfillAssembled(begin, View());
    }

    method PatchStatus(o: Objective, status: Status) returns (r: Result<int, Refusal>)
      requires Ready()
      modifies this
      ensures r.Ok? ==> Edited(old(View()), o, status) == Ok(View()) && r.value == score
      ensures r.Err? ==> Edited(old(View()), o, status) == Err(r.error) && View() == old(View())
    {
      if o !in states {
        return Err(UnknownObjective);
      }
      states := states[o := states[o].(status := status)];
      RecomputeSprs();
      r := Ok(score);
    }

    // -------------------------------------------------------------- the activation screen

    /** Runs the activation twice inside savepoints and rolls both back: nothing is written. */
    method PreviewActivation(p: ProductId, choices: map<Objective, Choice>) returns (r: Result<Preview, Refusal>)
      requires Ready()
      modifies this
      ensures View() == old(View())
      ensures r == Previewed(View(), p, choices)
    {
      var savepoint := View();
      var found := Activate(p, None);
      if found.Err? {
        return Err(found.error);
      }
      var after := score;
      RollBack(savepoint);
      var judged := found.value.judged.Keys;
      if judged == {} {
        return Ok(Preview(score, after, map[], {}));
      }
      var resolved := Resolved(states, judged, choices);
      var confirmed := Activate(p, Some(resolved));
      if confirmed.Err? {
        RollBack(savepoint);
        return Err(confirmed.error);
      }
      var starting := DeductingStates(states) - DeductingStates(savepoint.states);
      after := score;
      RollBack(savepoint);
      r := Ok(Preview(score, after, Described(states, resolved), starting));
    }
  }

  // ---------------------------------------------------------------- the move's bookkeeping

  function NamedBy(rows: seq<BaselineRow>): set<Objective> {
    set r, key | r in rows && r.Counts() && key in r.objectives :: Objective(r.control, key)
  }

  ghost predicate GainsAt(states: States, p: ProductId, oldRows: seq<BaselineRow>, newRows: seq<BaselineRow>,
                          o: Objective) {
    o in states && Gains(states[o], p, Claim(oldRows, o), Claim(newRows, o))
  }

  ghost function GainingPractices(states: States, p: ProductId, oldRows: seq<BaselineRow>,
                                  newRows: seq<BaselineRow>): set<ControlId> {
    set o | o in states && GainsAt(states, p, oldRows, newRows, o) :: o.control
  }

  ghost predicate ToldSoFar(told: map<Objective, Told>, states: States, p: ProductId, oldRows: seq<BaselineRow>,
                            newRows: seq<BaselineRow>,
                            done: set<Objective>)
  {
    && told.Keys == MoveTells(states, p, oldRows, newRows).Keys * done
    && forall o :: o in told ==> told[o] == MoveTells(states, p, oldRows, newRows)[o]
  }

  ghost function GainingAmong(states: States, p: ProductId, oldRows: seq<BaselineRow>, newRows: seq<BaselineRow>,
                              some: set<Objective>)
    : set<ControlId>
  {
    set o | o in some && GainsAt(states, p, oldRows, newRows, o) :: o.control
  }

  lemma GainingOneMore(states: States, p: ProductId, oldRows: seq<BaselineRow>, newRows: seq<BaselineRow>,
                       done: set<Objective>, o: Objective)
    ensures GainingAmong(states, p, oldRows, newRows, done + {o}) == GainingAmong(states, p, oldRows, newRows, done)
              + if GainsAt(states, p, oldRows, newRows, o) then {o.control} else {}
  {
    var more := GainingAmong(states, p, oldRows, newRows, done + {o});
    forall x | x in done && GainsAt(states, p, oldRows, newRows, x)
      ensures x.control in more
    {
      assert x in done + {o};
    }
  }

  lemma ToldOneMore(told: map<Objective, Told>, states: States, p: ProductId, oldRows: seq<BaselineRow>,
                    newRows: seq<BaselineRow>,
                    done: set<Objective>, o: Objective)
    requires ToldSoFar(told, states, p, oldRows, newRows, done)
    ensures o !in MoveTells(states, p, oldRows, newRows) ==> ToldSoFar(told, states, p, oldRows, newRows, done + {o})
    ensures o in MoveTells(states, p, oldRows, newRows)
            ==> ToldSoFar(told[o := MoveTells(states, p, oldRows, newRows)[o]], states, p, oldRows, newRows, done + {o})
  {
    var all := MoveTells(states, p, oldRows, newRows);
    assert o in all ==> all.Keys * (done + {o}) == all.Keys * done + {o};
    assert o !in all ==> all.Keys * (done + {o}) == all.Keys * done;
  }

  /** The move part-way: the objectives in done are moved, told of, and counted as gained. */
  ghost predicate MoveHalfway(states: States, told: map<Objective, Told>, gaining: set<ControlId>, before: States,
                              p: ProductId,
                              oldRows: seq<BaselineRow>, newRows: seq<BaselineRow>, done: set<Objective>)
  {
    && Halfway(states, before, done, MoveAll(before, p, oldRows, newRows))
    && ToldSoFar(told, before, p, oldRows, newRows, done)
    && gaining == GainingAmong(before, p, oldRows, newRows, done)
  }

  lemma MoveBegun(states: States, p: ProductId, oldRows: seq<BaselineRow>, newRows: seq<BaselineRow>)
    ensures MoveHalfway(states, map[], {}, states, p, oldRows, newRows, {})
  {
  }

  lemma MoveDone(states: States, told: map<Objective, Told>, gaining: set<ControlId>, before: States, p: ProductId,
                 oldRows: seq<BaselineRow>, newRows: seq<BaselineRow>)
    requires MoveHalfway(states, told, gaining, before, p, oldRows, newRows, NamedBy(oldRows) + NamedBy(newRows))
    ensures states == MoveAll(before, p, oldRows, newRows)
    ensures told == MoveTells(before, p, oldRows, newRows)
    ensures gaining == GainingPractices(before, p, oldRows, newRows)
  {
    NamedIsEnough(before, p, oldRows, newRows);
    var named := NamedBy(oldRows) + NamedBy(newRows);
    AllTheWay(states, before, named, MoveAll(before, p, oldRows, newRows));
    AllTold(told, MoveTells(before, p, oldRows, newRows), named);
    AllGaining(before, p, oldRows, newRows, named);
  }

  lemma AllTheWay(states: States, before: States, done: set<Objective>, after: States)
    requires Halfway(states, before, done, after)
    requires forall o :: o in before && o !in done ==> after[o] == before[o]
    ensures states == after
  {
  }

  lemma AllTold(told: map<Objective, Told>, all: map<Objective, Told>, done: set<Objective>)
    requires told.Keys == all.Keys * done && all.Keys <= done
    requires forall o :: o in told ==> told[o] == all[o]
    ensures told == all
  {
  }

  lemma AllGaining(before: States, p: ProductId, oldRows: seq<BaselineRow>, newRows: seq<BaselineRow>,
                   done: set<Objective>)
    requires forall o :: GainsAt(before, p, oldRows, newRows, o) ==> o in done
    ensures GainingAmong(before, p, oldRows, newRows, done) == GainingPractices(before, p, oldRows, newRows)
  {
    assert forall o :: GainsAt(before, p, oldRows, newRows, o) ==> o in before;
  }

  lemma MoveOneMore(states: States, told: map<Objective, Told>, gaining: set<ControlId>, before: States, p: ProductId,
                    oldRows: seq<BaselineRow>, newRows: seq<BaselineRow>, done: set<Objective>, o: Objective)
    requires MoveHalfway(states, told, gaining, before, p, oldRows, newRows, done) && o !in done
    ensures o !in states ==> MoveHalfway(states, told, gaining, before, p, oldRows, newRows, done + {o})
    ensures o in states ==> MoveOneDone(states, told, gaining, before, p, oldRows, newRows, done, o)
  {
    HalfwayOneMore(states, before, done, MoveAll(before, p, oldRows, newRows), o);
    ToldOneMore(told, before, p, oldRows, newRows, done, o);
    GainingOneMore(before, p, oldRows, newRows, done, o);
  }

  /** Doing to one objective what the loop does keeps the move part-way, one objective further. */
  ghost predicate MoveOneDone(states: States, told: map<Objective, Told>, gaining: set<ControlId>, before: States,
                              p: ProductId,
                              oldRows: seq<BaselineRow>, newRows: seq<BaselineRow>, done: set<Objective>, o: Objective)
    requires o in states
  {
    var oldRow, newRow := Claim(oldRows, o), Claim(newRows, o);
    var why := ReasonTold(states[o], p, oldRow, newRow);
    && o in before && states[o] == before[o]
    && MoveHalfway(states[o := Moved(states[o], p, oldRow, newRow)],
                   if why.Some? then told[o := Told(before[o].status, why.value)] else told,
                   if Gains(states[o], p, oldRow, newRow) then gaining + {o.control} else gaining,
                   before, p, oldRows, newRows, done + {o})
  }

  lemma ClaimedIsNamed(rows: seq<BaselineRow>, o: Objective)
    requires Claim(rows, o).Some?
    ensures o in NamedBy(rows)
  {
    var r := Claim(rows, o).value;
    assert r in rows && Objective(r.control, o.key) == o;
  }

  /** An objective neither version names is not moved, told of, or gained. */
  lemma NamedIsEnough(states: States, p: ProductId, oldRows: seq<BaselineRow>, newRows: seq<BaselineRow>)
    ensures var named := NamedBy(oldRows) + NamedBy(newRows);
            && (forall o :: o in states && o !in named ==> MoveAll(states, p, oldRows, newRows)[o] == states[o])
            && MoveTells(states, p, oldRows, newRows).Keys <= named
            && (forall o :: GainsAt(states, p, oldRows, newRows, o) ==> o in named)
  {
    forall o | Claim(oldRows, o).Some?
      ensures o in NamedBy(oldRows)
    {
      ClaimedIsNamed(oldRows, o);
    }
    forall o | Claim(newRows, o).Some?
      ensures o in NamedBy(newRows)
    {
      ClaimedIsNamed(newRows, o);
    }
  }

  lemma PracticeGains(states: States, p: ProductId, oldRows: seq<BaselineRow>, newRows: seq<BaselineRow>, i: nat)
    requires i < |newRows| && OneRowPerPractice(newRows) && newRows[i].Counts()
    ensures newRows[i].control in GainingPractices(states, p, oldRows, newRows)
            <==> GainsSomewhere(states, p, oldRows, newRows, newRows[i])
  {
    var row := newRows[i];
    forall o | o in states && GainsAt(states, p, oldRows, newRows, o) && o.control == row.control
      ensures GainsSomewhere(states, p, oldRows, newRows, row)
    {
      var claim := Claim(newRows, o).value;
      var j :| 0 <= j < |newRows| && newRows[j] == claim;
      assert Objective(row.control, o.key) == o && o.key in row.objectives;
    }
    if GainsSomewhere(states, p, oldRows, newRows, row) {
      var key :| key in row.objectives && Objective(row.control, key) in states
        && Gains(states[Objective(row.control, key)], p, Claim(oldRows, Objective(row.control, key)),
                 Claim(newRows, Objective(row.control, key)));
      assert GainsAt(states, p, oldRows, newRows, Objective(row.control, key));
    }
  }

  /** The pieces an activation leaves are the state it should leave. */
  lemma ActivationAssembled(s: State, p: ProductId, decisions: Option<Decisions>, after: State)
    requires Target(s, p).Ok?
    requires var rows := s.library.RowsOf(Target(s, p).value);
             var looped := Loop(s.states, s.board.(tasks := RestoreTasks(s.board.tasks, SpecIds(rows))), s.catalog, p,
                                rows, decisions);
             looped.Some? && after == s.(products := s.products[p := OrgProduct(Active, true,
                 Some(Target(s, p).value))],
               states := Rechecked(looped.value.0, RestoredObjectives(s.links, p)), board := looped.value.1,
               links := RestoreLinks(s.links, p),
                   score := ScoreOf(Rechecked(looped.value.0, RestoredObjectives(s.links, p)), s.catalog))
    ensures Activated(s, p, decisions) == Ok(after)
  {
  }

  lemma DeactivationAssembled(s: State, p: ProductId, replacedBy: Option<ProductId>, now: int, after: State)
    requires p in s.library.products && p in s.products && replacedBy != Some(p)
    requires replacedBy.Some? ==> replacedBy.value in s.library.products
    requires after == s.(products := s.products[p := s.products[p].(status := Decommissioned)],
                         states := LeaveAll(s.states, p),
                         board := s.board.(tasks := ArchiveTasks(s.board.tasks, s.library.SpecsOfProduct(p))),
                         links := RetireLinks(s.links, s.sources, Covered(s.states, p), p, now),
                         score := ScoreOf(LeaveAll(s.states, p), s.catalog))
    ensures Deactivated(s, p, replacedBy, now) == Ok(after)
  {
  }

  lemma SeedingMissing(states: States, objectives: set<Objective>)
    ensures SeedMissing(states, objectives - states.Keys) == SeedMissing(states, objectives)
  {
  }

  lemma BackfillAssembled(s: State, after: State)
    requires !(s.catalog.objectives <= s.states.Keys)
    requires after == s.(states := SeedMissing(s.states, s.catalog.objectives),
                         score := ScoreOf(SeedMissing(s.states, s.catalog.objectives), s.catalog))
    ensures after == Backfilled(s)
  {
  }

  lemma MoveAssembled(s: State, p: ProductId, v: VersionId, oldRows: seq<BaselineRow>, newRows: seq<BaselineRow>,
                      after: State)
    requires p in s.products && s.products[p].status.Active? && s.products[p].pin != Some(v)
    requires v in s.library.versions && s.library.versions[v].product == p && p in s.library.products
    requires oldRows == PinnedRows(s, p) && newRows == s.library.RowsOf(v)
    requires after == s.(products := s.products[p := s.products[p].(pin := Some(v))],
                         states := MoveAll(s.states, p, oldRows, newRows),
                         board := FanOut(s.board, s.states.Keys, GainingRows(s.states, p, oldRows, newRows, newRows)),
                         score := ScoreOf(MoveAll(s.states, p, oldRows, newRows), s.catalog))
    ensures MovedTo(s, p, v) == Ok(after)
  {
  }

  lemma UpdatedByOneMore(updates: seq<Update>, i: nat)
    requires i < |updates|
    ensures UpdatedBy(updates[..i + 1]) == UpdatedBy(updates[..i]) + {updates[i].objective}
  {
    assert updates[..i + 1] == updates[..i] + [updates[i]];
  }

  ghost function UpdatedBy(updates: seq<Update>): set<Objective> {
    set u | u in updates :: u.objective
  }

  ghost predicate JudgedSoFar(judged: map<Objective, (Status, Status)>, before: States, after: States,
                              asked: set<Objective>,
                              decisions: Option<Decisions>) {
    && judged.Keys == asked && asked <= before.Keys && asked <= after.Keys
    && (forall o :: o in judged ==> judged[o] == (before[o].status, after[o].status))
    && (decisions.Some? ==> forall o :: o in judged ==> AnsweredRight(decisions.value, before, o))
  }

  /** A loop part-way: these objectives dealt with, the judgements among them noted, the joins counted. */
  ghost predicate Underway(states: States, judged: map<Objective, (Status, Status)>, updated: nat, before: States,
                           p: ProductId, rows: seq<BaselineRow>, decisions: Option<Decisions>,
                           done: set<Objective>) {
    && Halfway(states, before, done, JoinAll(before, p, rows, decisions))
    && JudgedSoFar(judged, before, JoinAll(before, p, rows, decisions), JudgedSet(before, p, rows) * done, decisions)
    && updated == |JoinedBy(before, p, rows) * done|
  }

  lemma NothingUnderway(before: States, p: ProductId, rows: seq<BaselineRow>, decisions: Option<Decisions>)
    ensures Underway(before, map[], 0, before, p, rows, decisions, {})
  {
    assert JudgedSet(before, p, rows) * {} == {} && JoinedBy(before, p, rows) * {} == {};
  }

  /** The statuses before and after of exactly the objectives asked about. */
  ghost predicate IsJudged(judged: map<Objective, (Status, Status)>, before: States, after: States,
                           asked: set<Objective>) {
    && judged.Keys == asked
    && forall o :: o in judged ==> o in before && o in after && judged[o] == (before[o].status, after[o].status)
  }

  lemma HalfwayOneMore(states: States, before: States, done: set<Objective>, after: States, o: Objective)
    requires Halfway(states, before, done, after)
    ensures o in before ==> Halfway(states[o := after[o]], before, done + {o}, after)
    ensures (o in before ==> after[o] == states[o]) ==> Halfway(states, before, done + {o}, after)
  {
  }

  lemma JudgedOneMore(judged: map<Objective, (Status, Status)>, before: States, after: States, asked: set<Objective>,
                      done: set<Objective>, decisions: Option<Decisions>, o: Objective)
    requires JudgedSoFar(judged, before, after, asked * done, decisions) && asked <= before.Keys && asked <= after.Keys
    ensures o !in asked ==> JudgedSoFar(judged, before, after, asked * (done + {o}), decisions)
    ensures o in asked && (decisions.Some? ==> AnsweredRight(decisions.value, before, o))
            ==> JudgedSoFar(judged[o := (before[o].status, after[o].status)], before, after, asked * (done + {o}),
                decisions)
  {
    assert o in asked ==> asked * (done + {o}) == asked * done + {o};
    assert o !in asked ==> asked * (done + {o}) == asked * done;
  }

  lemma NothingToJudge(states: States, catalog: Catalog, p: ProductId, rows: seq<BaselineRow>)
    requires states.Keys <= catalog.objectives && !Resolvable(rows, catalog)
    ensures JudgedSet(states, p, rows) == {}
  {
  }

  /** What the loop reports: the objectives joined and the tasks made. */
  ghost predicate LoopCounts(report: LoopReport, joined: nat, before: Board, after: Board) {
    report.updated == joined && report.created == |after.tasks| - |before.tasks|
  }

  lemma FanOutCounts(board: Board, scope: set<Objective>, rows: seq<BaselineRow>)
    ensures |FanOut(board, scope, rows).tasks| == |board.tasks| + |FanNeeds(board, scope, NeedsOf(rows)).added|
  {
    FanOutEffect(board, scope, NeedsOf(rows));
  }

  lemma OneMoreOf(some: set<Objective>, done: set<Objective>, o: Objective)
    requires o !in done
    ensures |some * (done + {o})| == |some * done| + if o in some then 1 else 0
  {
    assert some * (done + {o}) == some * done + if o in some then {o} else {};
  }

  lemma LiveTasksOneMore(tasks: seq<Task>, ids: set<SpecId>, i: nat)
    requires i < |tasks|
    ensures |LiveTasksOf(tasks, ids, i + 1)|
         == |LiveTasksOf(tasks, ids, i)| + if FromSpecs(tasks[i], ids) && !tasks[i].archived then 1 else 0
  {
    var more := if FromSpecs(tasks[i], ids) && !tasks[i].archived then {i} else {};
    assert LiveTasksOf(tasks, ids, i + 1) == LiveTasksOf(tasks, ids, i) + more;
  }

  lemma NotYetDone(updates: seq<Update>, i: nat)
    requires i < |updates|
    requires forall j, k :: 0 <= j < k < |updates| ==> updates[j].objective != updates[k].objective
    ensures updates[i].objective !in UpdatedBy(updates[..i])
  {
  }

  lemma WrongAnswer(states: States, p: ProductId, rows: seq<BaselineRow>, decisions: Decisions, o: Objective)
    requires o in states && AskedAbout(states, p, rows, o)
    requires o !in decisions || decisions[o].shown != states[o].status || decisions[o].choice.Unknown?
    ensures !Answers(decisions, states, p, rows)
  {
    assert o in JudgedSet(states, p, rows);
  }

  /** Once every update is dealt with, every claim on an objective with a state is. */
  lemma AllDone(before: States, catalog: Catalog, p: ProductId, rows: seq<BaselineRow>, decisions: Option<Decisions>,
                updates: seq<Update>)
    requires before.Keys <= catalog.objectives
    requires forall o :: o in catalog.objectives && Claim(rows, o).Some? ==> HasUpdate(updates, o)
    ensures JudgedSet(before, p, rows) * UpdatedBy(updates) == JudgedSet(before, p, rows)
    ensures JoinedBy(before, p, rows) * UpdatedBy(updates) == JoinedBy(before, p, rows)
    ensures forall o :: o in before && o !in UpdatedBy(updates) ==> JoinAll(before, p, rows, decisions)[o] == before[o]
  {
    forall o | o in before && Claim(rows, o).Some?
      ensures o in UpdatedBy(updates)
    {
      assert HasUpdate(updates, o);
      var i :| 0 <= i < |updates| && updates[i].objective == o;
      assert updates[i] in updates;
    }
  }

  lemma NothingClaimed(catalog: Catalog, rows: seq<BaselineRow>)
    requires forall o :: o in catalog.objectives && Claim(rows, o).Some? ==> HasUpdate([], o)
    ensures !Resolvable(rows, catalog)
  {
  }

  lemma SomethingClaimed(catalog: Catalog, rows: seq<BaselineRow>, updates: seq<Update>)
    requires updates != []
    requires forall u :: u in updates ==> u.objective in catalog.objectives && Claim(rows, u.objective).Some?
    ensures Resolvable(rows, catalog)
  {
    assert updates[0] in updates;
  }

  lemma AllJoined(states: States, before: States, p: ProductId, rows: seq<BaselineRow>, decisions: Option<Decisions>,
                  done: set<Objective>)
    requires Halfway(states, before, done, JoinAll(before, p, rows, decisions))
    requires forall o :: o in before && o !in done ==> JoinAll(before, p, rows, decisions)[o] == before[o]
    ensures states == JoinAll(before, p, rows, decisions)
  {
  }

  /** What was noted answers the questions: the decisions are right when they speak of no other. */
  lemma AllJudged(judged: map<Objective, (Status, Status)>, before: States, p: ProductId, rows: seq<BaselineRow>,
                  decisions: Option<Decisions>)
    requires JudgedSoFar(judged, before, JoinAll(before, p, rows, decisions), JudgedSet(before, p, rows), decisions)
    ensures IsJudged(judged, before, JoinAll(before, p, rows, decisions), JudgedSet(before, p, rows))
    ensures decisions.Some? ==> (decisions.value.Keys == judged.Keys <==> Answers(decisions.value, before, p, rows))
  {
  }

  ghost predicate AnsweredRight(decisions: Decisions, states: States, o: Objective) {
    o in decisions && o in states && decisions[o].shown == states[o].status && !decisions[o].choice.Unknown?
  }
}
