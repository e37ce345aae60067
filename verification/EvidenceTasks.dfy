/** Evidence tasks: one per artifact a baseline asks for, shared by every objective it serves. */
module EvidenceTasks {
  import opened Common
  import opened Text
  import opened Rules
  import opened Baseline

  datatype TaskStatus = Open | Collected | NotApplicable

  datatype Task = Task(spec: Option<SpecId>, title: string, kind: string, status: TaskStatus, archived: bool)

  /** A task is named by its position; tasks are only ever added at the end. */
  datatype Board = Board(tasks: seq<Task>, links: set<(nat, Objective)>)

  /** Two specs describe the same artifact when their text, trimmed and lower-cased, and kind agree. */
  datatype ArtifactKey = ArtifactKey(text: string, kind: string)

  function KeyOf(text: string, kind: string): ArtifactKey {
    ArtifactKey(Lower(Trim(text)), kind)
  }

  function TaskKey(t: Task): ArtifactKey {
    KeyOf(t.title, t.kind)
  }

  /** One spec of one row: an artifact wanted for each objective the row covers. */
  datatype Need = Need(row: BaselineRow, spec: EvidenceSpec) {
    function Key(): ArtifactKey { KeyOf(spec.description, spec.kind) }

    /** The objectives with a control state that the artifact is evidence for. */
    function Targets(scope: set<Objective>): set<Objective> {
      set key | key in row.objectives && Objective(row.control, key) in scope :: Objective(row.control, key)
    }
  }

  function NeedsOfRow(row: BaselineRow, n: nat): seq<Need>
    requires n <= |row.specs|
  {
    seq(n, i requires 0 <= i < n => Need(row, row.specs[i]))
  }

  /** Every spec of every counting row, in order. */
  function NeedsOf(rows: seq<BaselineRow>): seq<Need> {
    if rows == [] then []
    else
      var last := rows[|rows| - 1];
      NeedsOf(rows[..|rows| - 1]) + (if last.Counts() then NeedsOfRow(last, |last.specs|) else [])
  }

  // ---------------------------------------------------------------- which task serves a need

  function LastBySpec(tasks: seq<Task>, id: SpecId): (r: Option<nat>)
    ensures r.Some? ==> r.value < |tasks| && tasks[r.value].spec == Some(id)
                        && forall j :: r.value < j < |tasks| ==> tasks[j].spec != Some(id)
    ensures r.None? ==> forall j :: 0 <= j < |tasks| ==> tasks[j].spec != Some(id)
  {
    if tasks == [] then None
    else if tasks[|tasks| - 1].spec == Some(id) then Some(|tasks| - 1)
    else LastBySpec(tasks[..|tasks| - 1], id)
  }

  function LastByKey(tasks: seq<Task>, k: ArtifactKey): (r: Option<nat>)
    ensures r.Some? ==> r.value < |tasks| && TaskKey(tasks[r.value]) == k
                        && forall j :: r.value < j < |tasks| ==> TaskKey(tasks[j]) != k
    ensures r.None? ==> forall j :: 0 <= j < |tasks| ==> TaskKey(tasks[j]) != k
  {
    if tasks == [] then None
    else if TaskKey(tasks[|tasks| - 1]) == k then Some(|tasks| - 1)
    else LastByKey(tasks[..|tasks| - 1], k)
  }

  /** The task there was before this run: by the spec that seeded it, else by the artifact. */
  function Existing(tasks: seq<Task>, n: Need): Option<nat> {
    var bySpec := LastBySpec(tasks, n.spec.id);
    if bySpec.Some? then bySpec else LastByKey(tasks, n.Key())
  }

  function TaskFor(tasks: seq<Task>, added: map<ArtifactKey, nat>, n: Need): Option<nat> {
    var e := Existing(tasks, n);
    if e.Some? then e else if n.Key() in added then Some(added[n.Key()]) else None
  }

  // ---------------------------------------------------------------- the fan-out

  /** The run so far: the board, and the tasks this run added, by artifact. */
  datatype Fan = Fan(board: Board, added: map<ArtifactKey, nat>)

  function SeededTask(n: Need): Task {
    Task(Some(n.spec.id), n.spec.description, n.spec.kind, Open, false)
  }

  function FanNeed(before: seq<Task>, scope: set<Objective>, f: Fan, n: Need): Fan {
    var t := TaskFor(before, f.added, n);
    var id := if t.Some? then t.value else |f.board.tasks|;
    var tasks := if t.Some? then f.board.tasks else f.board.tasks + [SeededTask(n)];
    var added := if t.Some? then f.added else f.added[n.Key() := id];
    Fan(Board(tasks, f.board.links + set o | o in n.Targets(scope) :: (id, o)), added)
  }

  function FanNeeds(board: Board, scope: set<Objective>, needs: seq<Need>): Fan {
    if needs == [] then Fan(board, map[])
    else FanNeed(board.tasks, scope, FanNeeds(board, scope, needs[..|needs| - 1]), needs[|needs| - 1])
  }

  function FanOut(board: Board, scope: set<Objective>, rows: seq<BaselineRow>): Board {
    FanNeeds(board, scope, NeedsOf(rows)).board
  }

  lemma FanNeedsOneMore(board: Board, scope: set<Objective>, needs: seq<Need>, n: Need)
    ensures FanNeeds(board, scope, needs + [n]) == FanNeed(board.tasks, scope, FanNeeds(board, scope, needs), n)
  {
    assert (needs + [n])[..|needs|] == needs;
  }

  /** The engine's two dictionaries of the tasks there were: the last of each spec, and of each artifact. */
  ghost predicate TasksIndexed(tasks: seq<Task>, taskBySpec: map<SpecId, nat>, taskByKey: map<ArtifactKey, nat>) {
    && (forall id :: LastBySpec(tasks, id) == if id in taskBySpec then Some(taskBySpec[id]) else None)
    && (forall k :: LastByKey(tasks, k) == if k in taskByKey then Some(taskByKey[k]) else None)
  }

  method IndexTasks(tasks: seq<Task>) returns (taskBySpec: map<SpecId, nat>, taskByKey: map<ArtifactKey, nat>)
    ensures TasksIndexed(tasks, taskBySpec, taskByKey)
  {
    taskBySpec, taskByKey := map[], map[];
    for i := 0 to |tasks|
      invariant TasksIndexed(tasks[..i], taskBySpec, taskByKey)
    {
      assert tasks[..i + 1][..i] == tasks[..i];
      var t := tasks[i];
      if t.spec.Some? {
        taskBySpec := taskBySpec[t.spec.value := i];
      }
      taskByKey := taskByKey[TaskKey(t) := i];
    }
    assert tasks[..|tasks|] == tasks;
  }

  /** One spec: its task found or made, and linked to what its row claims. */
  method ServeNeed(f: Fan, scope: set<Objective>, n: Need, ghost before: seq<Task>, taskBySpec: map<SpecId, nat>,
                   taskByKey: map<ArtifactKey, nat>)
    returns (g: Fan, made: bool)
    requires TasksIndexed(before, taskBySpec, taskByKey)
    ensures g == FanNeed(before, scope, f, n)
    ensures |g.added| == |f.added| + if made then 1 else 0
  {
    var key, tasks, added := n.Key(), f.board.tasks, f.added;
    var id: nat;
    made := false;
    if n.spec.id in taskBySpec {
      id := taskBySpec[n.spec.id];
    } else if key in taskByKey {
      id := taskByKey[key];
    } else if key in added {
      id := added[key];
    } else {
      id := |tasks|;
      tasks := tasks + [SeededTask(n)];
      added := added[key := id];
      made := true;
    }
    g := Fan(Board(tasks, f.board.links + set o | o in n.Targets(scope) :: (id, o)), added);
  }

  lemma RowOneMore(board: Board, scope: set<Objective>, done: seq<Need>, row: BaselineRow, j: nat)
    requires j < |row.specs|
    ensures FanNeeds(board, scope, done + NeedsOfRow(row, j + 1))
         == FanNeed(board.tasks, scope, FanNeeds(board, scope, done + NeedsOfRow(row, j)), Need(row, row.specs[j]))
  {
    var sofar, n := done + NeedsOfRow(row, j), Need(row, row.specs[j]);
    FanNeedsOneMore(board, scope, sofar, n);
    assert done + NeedsOfRow(row, j + 1) == sofar + [n];
  }

  /** The j-th spec of a row, after the ones before it. */
  method FanOutSpec(board: Board, f: Fan, scope: set<Objective>, row: BaselineRow, j: nat, ghost done: seq<Need>,
                    taskBySpec: map<SpecId, nat>, taskByKey: map<ArtifactKey, nat>) returns (g: Fan, made: bool)
    requires j < |row.specs| && TasksIndexed(board.tasks, taskBySpec, taskByKey)
    requires f == FanNeeds(board, scope, done + NeedsOfRow(row, j))
    ensures g == FanNeeds(board, scope, done + NeedsOfRow(row, j + 1))
    ensures |g.added| == |f.added| + if made then 1 else 0
  {
    RowOneMore(board, scope, done, row, j);
    g, made := ServeNeed(f, scope, Need(row, row.specs[j]), board.tasks, taskBySpec, taskByKey);
  }

  method FanOutRow(board: Board, f: Fan, scope: set<Objective>, row: BaselineRow, ghost done: seq<Need>,
                   taskBySpec: map<SpecId, nat>, taskByKey: map<ArtifactKey, nat>) returns (g: Fan, created: nat)
    requires TasksIndexed(board.tasks, taskBySpec, taskByKey) && f == FanNeeds(board, scope, done)
    ensures g == FanNeeds(board, scope, done + NeedsOfRow(row, |row.specs|))
    ensures |g.added| == |f.added| + created
  {
    g, created := f, 0;
    assert done + NeedsOfRow(row, 0) == done;
    for j := 0 to |row.specs|
      invariant g == FanNeeds(board, scope, done + NeedsOfRow(row, j))
      invariant |g.added| == |f.added| + created
    {
      var next, made := FanOutSpec(board, g, scope, row, j, done, taskBySpec, taskByKey);
      g, created := next, created + if made then 1 else 0;
    }
  }

  /** The loops as the engine runs them: over the rows, and each row's specs. */
  method FanOutTasks(board: Board, scope: set<Objective>, rows: seq<BaselineRow>) returns (after: Board, created: nat)
    ensures after == FanOut(board, scope, rows)
    ensures created == |FanNeeds(board, scope, NeedsOf(rows)).added|
  {
    var taskBySpec, taskByKey := IndexTasks(board.tasks);
    var f: Fan := Fan(board, map[]);
    created := 0;
    for i := 0 to |rows|
      invariant f == FanNeeds(board, scope, NeedsOf(rows[..i])) && created == |f.added|
    {
      assert rows[..i + 1][..i] == rows[..i];
      if rows[i].Counts() {
        var next, made := FanOutRow(board, f, scope, rows[i], NeedsOf(rows[..i]), taskBySpec, taskByKey);
        f, created := next, created + made;
      } else {
        assert NeedsOf(rows[..i]) + [] == NeedsOf(rows[..i]);
      }
    }
    assert rows[..|rows|] == rows;
    after := f.board;
  }

  // ---------------------------------------------------------------- what a fan-out does

  ghost predicate Unmatched(before: seq<Task>, n: Need) {
    Existing(before, n).None?
  }

  /** The keys of the artifacts nothing on the board already serves. */
  ghost function WantedKeys(before: seq<Task>, needs: seq<Need>): set<ArtifactKey> {
    set n | n in needs && Unmatched(before, n) :: n.Key()
  }

  ghost predicate SpecIdsIdentify(needs: seq<Need>) {
    forall m, n :: m in needs && n in needs && m.spec.id == n.spec.id ==> m.spec == n.spec
  }

  ghost predicate IsSeeded(before: seq<Task>, needs: seq<Need>, t: Task) {
    exists n :: n in needs && Unmatched(before, n) && t == SeededTask(n)
  }

  /** The run's dictionary names the new tasks by artifact, one each. */
  ghost predicate Indexed(from: nat, tasks: seq<Task>, added: map<ArtifactKey, nat>) {
    && (forall k :: k in added ==> from <= added[k] < |tasks| && TaskKey(tasks[added[k]]) == k)
    && (forall i :: from <= i < |tasks| ==> TaskKey(tasks[i]) in added && added[TaskKey(tasks[i])] == i)
  }

  ghost predicate AllSeeded(before: seq<Task>, needs: seq<Need>, tasks: seq<Task>) {
    forall i :: |before| <= i < |tasks| ==> IsSeeded(before, needs, tasks[i])
  }

  /** Old tasks are untouched, and there is one new open task per wanted artifact. */
  ghost predicate TasksFit(before: seq<Task>, needs: seq<Need>, f: Fan) {
    && before <= f.board.tasks
    && f.added.Keys == WantedKeys(before, needs)
    && |f.board.tasks| == |before| + |f.added|
    && Indexed(|before|, f.board.tasks, f.added)
    && AllSeeded(before, needs, f.board.tasks)
  }

  ghost predicate LinkWanted(before: seq<Task>, scope: set<Objective>, needs: seq<Need>, f: Fan, l: (nat, Objective)) {
    exists n :: n in needs && l.1 in n.Targets(scope) && TaskFor(before, f.added, n) == Some(l.0)
  }

  /** Every need's task is linked to each of its objectives, and no other link is made. */
  ghost predicate LinksFit(board: Board, scope: set<Objective>, needs: seq<Need>, f: Fan) {
    && (forall n :: n in needs ==> TaskFor(board.tasks, f.added, n).Some?)
    && (forall l :: l in f.board.links <==> l in board.links || LinkWanted(board.tasks, scope, needs, f, l))
  }

  lemma {:induction false} FanOutEffect(board: Board, scope: set<Objective>, needs: seq<Need>)
    ensures TasksFit(board.tasks, needs, FanNeeds(board, scope, needs))
    ensures LinksFit(board, scope, needs, FanNeeds(board, scope, needs))
  {
    if needs != [] {
      var init, n := needs[..|needs| - 1], needs[|needs| - 1];
      assert needs == init + [n];
      FanOutEffect(board, scope, init);
      OneMoreTask(board.tasks, scope, init, n, FanNeeds(board, scope, init));
      OneMoreLinks(board, scope, init, n, FanNeeds(board, scope, init));
    } else {
      assert WantedKeys(board.tasks, needs) == {};
    }
  }

  lemma WantedOneMore(before: seq<Task>, init: seq<Need>, n: Need)
    ensures WantedKeys(before, init + [n]) == WantedKeys(before, init) + if Unmatched(before, n) then {n.Key()} else {}
  {
    assert forall m :: m in init + [n] <==> m in init || m == n;
  }

  lemma SeededMonotone(before: seq<Task>, init: seq<Need>, n: Need, tasks: seq<Task>)
    requires AllSeeded(before, init, tasks)
    ensures AllSeeded(before, init + [n], tasks)
  {
    forall i | |before| <= i < |tasks|
      ensures IsSeeded(before, init + [n], tasks[i])
    {
      assert IsSeeded(before, init, tasks[i]);
      var m :| m in init && Unmatched(before, m) && tasks[i] == SeededTask(m);
      assert m in init + [n];
    }
  }

  lemma SeededAppend(before: seq<Task>, needs: seq<Need>, n: Need, tasks: seq<Task>)
    requires AllSeeded(before, needs, tasks) && n in needs && Unmatched(before, n)
    ensures AllSeeded(before, needs, tasks + [SeededTask(n)])
  {
    var now := tasks + [SeededTask(n)];
    forall i | |before| <= i < |now|
      ensures IsSeeded(before, needs, now[i])
    {
      if i < |tasks| {
        assert IsSeeded(before, needs, tasks[i]) && now[i] == tasks[i];
      }
    }
  }

  lemma IndexedAppend(from: nat, tasks: seq<Task>, added: map<ArtifactKey, nat>, t: Task)
    requires from <= |tasks| && Indexed(from, tasks, added) && TaskKey(t) !in added
    ensures Indexed(from, tasks + [t], added[TaskKey(t) := |tasks|])
  {
    var now, k := tasks + [t], TaskKey(t);
    assert now[|tasks|] == t;
    forall i | from <= i < |now|
      ensures TaskKey(now[i]) in added[k := |tasks|] && added[k := |tasks|][TaskKey(now[i])] == i
    {
      if i < |tasks| {
        assert now[i] == tasks[i];
      }
    }
    forall j | j in added
      ensures from <= added[j] < |now| && TaskKey(now[added[j]]) == j
    {
      assert now[added[j]] == tasks[added[j]];
    }
  }

  lemma NeedMet(before: seq<Task>, init: seq<Need>, n: Need, f: Fan)
    requires TasksFit(before, init, f) && (Unmatched(before, n) ==> n.Key() in f.added)
    ensures TasksFit(before, init + [n], f)
  {
    WantedOneMore(before, init, n);
    SeededMonotone(before, init, n, f.board.tasks);
  }

  lemma KeyAdded(before: seq<Task>, init: seq<Need>, n: Need, added: map<ArtifactKey, nat>, id: nat)
    requires added.Keys == WantedKeys(before, init) && Unmatched(before, n) && n.Key() !in added
    ensures added[n.Key() := id].Keys == WantedKeys(before, init + [n])
    ensures |added[n.Key() := id]| == |added| + 1
  {
    WantedOneMore(before, init, n);
    assert added[n.Key() := id].Keys == added.Keys + {n.Key()};
  }

  lemma NeedAdded(before: seq<Task>, init: seq<Need>, n: Need, f: Fan, g: Fan)
    requires TasksFit(before, init, f) && Unmatched(before, n) && n.Key() !in f.added
    requires g.board.tasks == f.board.tasks + [SeededTask(n)]
    requires g.added == f.added[TaskKey(SeededTask(n)) := |f.board.tasks|]
    ensures TasksFit(before, init + [n], g)
  {
    KeyAdded(before, init, n, f.added, |f.board.tasks|);
    SeededMonotone(before, init, n, f.board.tasks);
    SeededAppend(before, init + [n], n, f.board.tasks);
    IndexedAppend(|before|, f.board.tasks, f.added, SeededTask(n));
  }

  lemma OneMoreTask(before: seq<Task>, scope: set<Objective>, init: seq<Need>, n: Need, f: Fan)
    requires TasksFit(before, init, f)
    ensures TasksFit(before, init + [n], FanNeed(before, scope, f, n))
  {
    var g := FanNeed(before, scope, f, n);
    if Unmatched(before, n) && n.Key() !in f.added {
      NeedAdded(before, init, n, f, g);
    } else {
      NeedMet(before, init, n, f);
    }
  }

  lemma OneMoreLinks(board: Board, scope: set<Objective>, init: seq<Need>, n: Need, f: Fan)
    requires LinksFit(board, scope, init, f)
    ensures LinksFit(board, scope, init + [n], FanNeed(board.tasks, scope, f, n))
  {
    var needs, g := init + [n], FanNeed(board.tasks, scope, f, n);
    assert TaskFor(board.tasks, g.added, n).Some?;
    forall m | m in init
      ensures TaskFor(board.tasks, g.added, m) == TaskFor(board.tasks, f.added, m)
    {
      assert TaskFor(board.tasks, f.added, m).Some?;
    }
    forall l | l in g.board.links
      ensures l in board.links || LinkWanted(board.tasks, scope, needs, g, l)
    {
      if l in f.board.links {
        if l !in board.links {
          var m :| m in init && l.1 in m.Targets(scope) && TaskFor(board.tasks, f.added, m) == Some(l.0);
          assert m in needs;
        }
      } else {
        assert n in needs;
      }
    }
    forall l | LinkWanted(board.tasks, scope, needs, g, l)
      ensures l in g.board.links
    {
      var m :| m in needs && l.1 in m.Targets(scope) && TaskFor(board.tasks, g.added, m) == Some(l.0);
      if m in init {
        assert LinkWanted(board.tasks, scope, init, f, l);
      }
    }
  }

  /** After a fan-out, each need is served by the very task that served it, so running again
      changes nothing and creates nothing. */
  lemma FanOutIdempotent(board: Board, scope: set<Objective>, needs: seq<Need>)
    requires SpecIdsIdentify(needs)
    ensures var after := FanNeeds(board, scope, needs).board;
            FanNeeds(after, scope, needs) == Fan(after, map[])
  {
    FanOutEffect(board, scope, needs);
    FanAgain(board, scope, needs, FanNeeds(board, scope, needs), needs);
  }

  lemma {:induction false} FanAgain(board: Board, scope: set<Objective>, needs: seq<Need>, f: Fan, some: seq<Need>)
    requires SpecIdsIdentify(needs)
    requires TasksFit(board.tasks, needs, f) && LinksFit(board, scope, needs, f)
    requires forall n :: n in some ==> n in needs
    ensures FanNeeds(f.board, scope, some) == Fan(f.board, map[])
  {
    if some != [] {
      var init, n := some[..|some| - 1], some[|some| - 1];
      FanAgain(board, scope, needs, f, init);
      assert n in some;
      SameTaskAgain(board.tasks, needs, f, n);
      NoNewLinks(board, scope, needs, f, n);
    }
  }

  lemma NoNewLinks(board: Board, scope: set<Objective>, needs: seq<Need>, f: Fan, n: Need)
    requires LinksFit(board, scope, needs, f) && n in needs
    requires Existing(f.board.tasks, n) == TaskFor(board.tasks, f.added, n)
    ensures FanNeed(f.board.tasks, scope, Fan(f.board, map[]), n) == Fan(f.board, map[])
  {
    var id := TaskFor(board.tasks, f.added, n).value;
    forall o | o in n.Targets(scope)
      ensures (id, o) in f.board.links
    {
      assert LinkWanted(board.tasks, scope, needs, f, (id, o));
    }
    assert f.board.links + (set o | o in n.Targets(scope) :: (id, o)) == f.board.links;
  }

  /** A new task that could be mistaken for the need's own is the need's own. */
  lemma NewTaskIsIts(before: seq<Task>, needs: seq<Need>, f: Fan, n: Need, i: nat)
    requires SpecIdsIdentify(needs) && TasksFit(before, needs, f) && n in needs
    requires |before| <= i < |f.board.tasks|
    ensures TaskKey(f.board.tasks[i]) == n.Key()
          ==> LastByKey(before, n.Key()).None? && n.Key() in f.added && f.added[n.Key()] == i
    ensures f.board.tasks[i].spec == Some(n.spec.id) ==> Unmatched(before, n) && TaskKey(f.board.tasks[i]) == n.Key()
  {
    assert IsSeeded(before, needs, f.board.tasks[i]);
    var m :| m in needs && Unmatched(before, m) && f.board.tasks[i] == SeededTask(m);
    assert m.spec.id == n.spec.id ==> m.spec == n.spec;
  }

  lemma SameTaskAgain(before: seq<Task>, needs: seq<Need>, f: Fan, n: Need)
    requires SpecIdsIdentify(needs) && TasksFit(before, needs, f) && n in needs
    ensures Existing(f.board.tasks, n) == TaskFor(before, f.added, n)
  {
    var now := f.board.tasks;
    forall i: nat | |before| <= i < |now|
      ensures TaskKey(now[i]) == n.Key()
            ==> LastByKey(before, n.Key()).None? && n.Key() in f.added && f.added[n.Key()] == i
      ensures now[i].spec == Some(n.spec.id) ==> Unmatched(before, n) && TaskKey(now[i]) == n.Key()
    {
      NewTaskIsIts(before, needs, f, n, i);
    }
    if LastBySpec(before, n.spec.id).Some? {
      LastBySpecExtends(before, now, n.spec.id);
    } else if LastByKey(before, n.Key()).Some? {
      LastBySpecExtends(before, now, n.spec.id);
      LastByKeyExtends(before, now, n.Key());
    } else {
      assert n.Key() in WantedKeys(before, needs);
      OnlyItsOwn(now, n, f.added[n.Key()]);
    }
  }

  lemma {:induction false} LastBySpecExtends(before: seq<Task>, now: seq<Task>, id: SpecId)
    requires before <= now
    requires forall i :: |before| <= i < |now| ==> now[i].spec != Some(id)
    ensures LastBySpec(now, id) == LastBySpec(before, id)
    decreases |now|
  {
    if |now| == |before| {
      assert now == before;
    } else {
      LastBySpecExtends(before, now[..|now| - 1], id);
    }
  }

  lemma {:induction false} LastByKeyExtends(before: seq<Task>, now: seq<Task>, k: ArtifactKey)
    requires before <= now
    requires forall i :: |before| <= i < |now| ==> TaskKey(now[i]) != k
    ensures LastByKey(now, k) == LastByKey(before, k)
    decreases |now|
  {
    if |now| == |before| {
      assert now == before;
    } else {
      LastByKeyExtends(before, now[..|now| - 1], k);
    }
  }

  lemma OnlyItsOwn(now: seq<Task>, n: Need, own: nat)
    requires own < |now| && TaskKey(now[own]) == n.Key()
    requires forall i :: 0 <= i < |now| && i != own ==> TaskKey(now[i]) != n.Key() && now[i].spec != Some(n.spec.id)
    ensures Existing(now, n) == Some(own)
  {
  }

  /** Nothing is lost, new artifacts are distinct from each other and from every existing one, one
      task is created per artifact not on the board, and every need ends linked where it should be. */
  lemma FanOutIsMinimal(board: Board, scope: set<Objective>, rows: seq<BaselineRow>)
    ensures var needs := NeedsOf(rows);
            var after := FanOut(board, scope, rows);
            && board.tasks <= after.tasks && board.links <= after.links
            && |after.tasks| == |board.tasks| + |WantedKeys(board.tasks, needs)|
            && NewArtifactsDistinct(board.tasks, after.tasks)
            && (forall n, o :: n in needs && o in n.Targets(scope) ==> ServedAt(after, n, o))
  {
    var needs := NeedsOf(rows);
    var f := FanNeeds(board, scope, needs);
    FanOutEffect(board, scope, needs);
    AddedAreDistinct(board.tasks, needs, f);
    forall n, o | n in needs && o in n.Targets(scope)
      ensures ServedAt(f.board, n, o)
    {
      var t := TaskFor(board.tasks, f.added, n).value;
      assert LinkWanted(board.tasks, scope, needs, f, (t, o));
      assert Existing(board.tasks, n).Some? ==> f.board.tasks[t] == board.tasks[t];
    }
  }

  ghost predicate NewArtifactsDistinct(before: seq<Task>, after: seq<Task>) {
    forall i, j :: |before| <= i < |after| && 0 <= j < |after| && i != j ==> TaskKey(after[i]) != TaskKey(after[j])
  }

  lemma AddedAreDistinct(before: seq<Task>, needs: seq<Need>, f: Fan)
    requires TasksFit(before, needs, f)
    ensures NewArtifactsDistinct(before, f.board.tasks)
  {
    var now := f.board.tasks;
    forall i, j | |before| <= i < |now| && 0 <= j < |now| && i != j
      ensures TaskKey(now[i]) != TaskKey(now[j])
    {
      if j < |before| {
        assert IsSeeded(before, needs, now[i]);
        assert now[j] == before[j];
      }
    }
  }

  ghost predicate ServedAt(after: Board, n: Need, o: Objective) {
    exists t :: 0 <= t < |after.tasks| && (t, o) in after.links && Serves(after.tasks[t], n)
  }

  ghost predicate Serves(t: Task, n: Need) {
    t.spec == Some(n.spec.id) || TaskKey(t) == n.Key()
  }

  // ---------------------------------------------------------------- a product leaves and returns

  predicate FromSpecs(t: Task, ids: set<SpecId>) {
    t.spec.Some? && t.spec.value in ids
  }

  function ArchivedTask(t: Task, ids: set<SpecId>): Task {
    if FromSpecs(t, ids) && !t.archived
    then t.(archived := true, status := if t.status.Open? then TaskStatus.NotApplicable else t.status)
    else t
  }

  function RestoredTask(t: Task, ids: set<SpecId>): Task {
    if FromSpecs(t, ids) && t.archived
    then t.(archived := false, status := if t.status.NotApplicable? then Open else t.status)
    else t
  }

  function ArchiveTasks(tasks: seq<Task>, ids: set<SpecId>): seq<Task> {
    seq(|tasks|, i requires 0 <= i < |tasks| => ArchivedTask(tasks[i], ids))
  }

  function RestoreTasks(tasks: seq<Task>, ids: set<SpecId>): seq<Task> {
    seq(|tasks|, i requires 0 <= i < |tasks| => RestoredTask(tasks[i], ids))
  }

  /** Leaving and returning gives a task back exactly as it was, except in three cases: an
      already waived task reopens, a task of another version stays archived, and a task archived
      before is brought back. */
  lemma TaskRoundTrip(t: Task, ofProduct: set<SpecId>, ofPin: set<SpecId>)
    requires ofPin <= ofProduct
    ensures var after := RestoredTask(ArchivedTask(t, ofProduct), ofPin);
            && (after == t <==>
                  if t.archived then !FromSpecs(t, ofPin)
                  else FromSpecs(t, ofProduct) ==> FromSpecs(t, ofPin) && !t.status.NotApplicable?)
            && (t.status.Collected? ==> after.status.Collected?)
            && (FromSpecs(t, ofPin) ==> !after.archived && (t.status.Open? ==> after.status.Open?))
  {
  }
}
