/** Scheduled jobs: any number of workers, one lock and one table of runs, and crashes anywhere. */
module Scheduler {
  import opened Common

  type Job = string
  type WorkerId = nat

  /** A run found orphaned has failed. */
  datatype RunStatus = Running | Succeeded | Failed

  /** A run's row. Its place in the table is its id: rows are only ever added at the end. */
  datatype JobRow = JobRow(job: Job, owner: WorkerId, scheduled: int, started: int, status: RunStatus,
                           finished: Option<int>)

  /** Where a worker is in running one job. From Locked to Closing it is between taking the job's
      lock and releasing it. */
  datatype Pc =
    | Idle
    | FoundDue(job: Job, now: int)
    | Locked(job: Job, now: int)
    | Reconciled(job: Job, now: int)
    | InBody(job: Job, run: nat)
    | Closing(job: Job)
  {
    predicate Holds() { Locked? || Reconciled? || InBody? || Closing? }
  }

  /** keys gives each job's lock key, which two jobs may share. */
  datatype State = State(keys: map<Job, int>, rows: seq<JobRow>, locks: map<int, WorkerId>, pcs: map<WorkerId, Pc>) {
    function At(w: WorkerId): Pc {
      if w in pcs then pcs[w] else Idle
    }

    predicate Running(i: nat, job: Job) {
      i < |rows| && rows[i].job == job && rows[i].status.Running?
    }
  }

  // ---------------------------------------------------------------- what is due

  function LastRun(rows: seq<JobRow>, job: Job): (last: Option<nat>)
    ensures last.None? <==> forall i :: 0 <= i < |rows| ==> rows[i].job != job
    ensures last.Some? ==> last.value < |rows| && rows[last.value].job == job && forall i ::
          last.value < i < |rows| ==> rows[i].job != job
  {
    if rows == [] then None
    else if rows[|rows| - 1].job == job then Some(|rows| - 1)
    else LastRun(rows[..|rows| - 1], job)
  }

  function Reference(row: JobRow): int {
    if row.finished.Some? then row.finished.value else row.started
  }

  predicate IsDue(rows: seq<JobRow>, job: Job, interval: nat, now: int) {
    var last := LastRun(rows, job);
    if last.None? then true
    else now - Reference(rows[last.value]) >= interval
  }

  // ---------------------------------------------------------------- the steps

  /** Every row of the job still marked running is left over from a run that never finished. */
  function OrphansFailed(rows: seq<JobRow>, job: Job, now: int): seq<JobRow> {
    seq(|rows|, i requires 0 <= i < |rows| =>
      if rows[i].job == job && rows[i].status.Running? then rows[i].(status := Failed, finished := Some(now))
      else rows[i])
  }

  /** What a worker does next, or what befalls it. A step that does not apply changes nothing. */
  datatype Step =
    | CheckDue(w: WorkerId, job: Job, interval: nat, now: int)
    | TryLock(w: WorkerId)
    | Reconcile(w: WorkerId, now: int)
    | Insert(w: WorkerId, now: int)
    | Finish(w: WorkerId, ok: bool, now: int)
    | Abandon(w: WorkerId)
    | Unlock(w: WorkerId)
    | Crash(w: WorkerId)

  function Ended(row: JobRow, ok: bool, now: int): JobRow {
    row.(status := if ok then Succeeded else Failed, finished := Some(now))
  }

  function Next(s: State, step: Step): State {
    var w := step.w;
    match step
    case CheckDue(_, job, interval, now) =>
      if s.At(w).Idle? && job in s.keys && IsDue(s.rows, job, interval, now)
          then s.(pcs := s.pcs[w := FoundDue(job, now)]) else s
    case TryLock(_) =>
      if !s.At(w).FoundDue? || s.At(w).job !in s.keys then s
      else
        var key := s.keys[s.At(w).job];
        if key in s.locks then s.(pcs := s.pcs[w := Idle])
        else s.(locks := s.locks[key := w], pcs := s.pcs[w := Locked(s.At(w).job, s.At(w).now)])
    case Reconcile(_, now) =>
      if s.At(w).Locked?
      then s.(rows := OrphansFailed(s.rows, s.At(w).job, now), pcs := s.pcs[w := Reconciled(s.At(w).job, s.At(w).now)])
      else s
    case Insert(_, now) =>
      if s.At(w).Reconciled?
      then s.(rows := s.rows + [JobRow(s.At(w).job, w, s.At(w).now, now, Running, None)],
          pcs := s.pcs[w := InBody(s.At(w).job, |s.rows|)])
      else s
    case Finish(_, ok, now) =>
      if s.At(w).InBody? && s.At(w).run < |s.rows|
      then
        var run := s.At(w).run;
        s.(rows := s.rows[run := Ended(s.rows[run], ok, now)], pcs := s.pcs[w := Closing(s.At(w).job)])
      else s
    case Abandon(_) =>
      // A failure outside the job's own body: the row stays as it is and the lock is let go.
      if s.At(w).Holds() then s.(pcs := s.pcs[w := Closing(s.At(w).job)]) else s
    case Unlock(_) =>
      if s.At(w).Closing? && s.At(w).job in s.keys
          then s.(locks := s.locks - {s.keys[s.At(w).job]}, pcs := s.pcs[w := Idle]) else s
    case Crash(_) =>
      // The database ends the worker's session, and every lock it held with it.
      s.(locks := map k | k in s.locks && s.locks[k] != w :: s.locks[k], pcs := s.pcs[w := Idle])
  }

  function Run(s: State, steps: seq<Step>): State {
    if steps == [] then s else Next(Run(s, steps[..|steps| - 1]), steps[|steps| - 1])
  }

  // ---------------------------------------------------------------- what every interleaving keeps

  ghost predicate HasItsLock(s: State, w: WorkerId) {
    s.At(w).Holds() ==> s.At(w).job in s.keys && s.keys[s.At(w).job] in s.locks && s.locks[s.keys[s.At(w).job]] == w
  }

  ghost predicate NotLeaked(s: State, key: int)
    requires key in s.locks
  {
    var pc := s.At(s.locks[key]);
    pc.Holds() && pc.job in s.keys && s.keys[pc.job] == key
  }

  /** While a worker runs a job's body, the row it will finish is its own and still running. */
  ghost predicate OwnsItsRow(s: State, w: WorkerId) {
    s.At(w).InBody? ==> s.Running(s.At(w).run, s.At(w).job) && s.rows[s.At(w).run].owner == w
  }

  ghost predicate NoOrphans(s: State, w: WorkerId) {
    s.At(w).Reconciled? ==> forall i :: !s.Running(i, s.At(w).job)
  }

  ghost predicate Locking(s: State) {
    && (forall w :: HasItsLock(s, w))
    && (forall key :: key in s.locks ==> NotLeaked(s, key))
  }

  /** A run still marked running is its job's last, so there is one at most. */
  ghost predicate IsLastIfRunning(s: State, i: nat)
    requires i < |s.rows|
  {
    s.rows[i].status.Running? ==> forall j :: i < j < |s.rows| ==> s.rows[j].job != s.rows[i].job
  }

  ghost predicate Rows(s: State) {
    && (forall w :: OwnsItsRow(s, w) && NoOrphans(s, w))
    && (forall i :: 0 <= i < |s.rows| ==> IsLastIfRunning(s, i))
  }

  lemma OneRunningRow(s: State, job: Job, i: nat, j: nat)
    requires Rows(s) && s.Running(i, job) && s.Running(j, job)
    ensures i == j
  {
    assert IsLastIfRunning(s, i) && IsLastIfRunning(s, j);
  }

  ghost predicate Inv(s: State) {
    Locking(s) && Rows(s)
  }

  lemma LockingKept(s: State, step: Step)
    requires Locking(s)
    ensures Locking(Next(s, step))
  {
    var after := Next(s, step);
    forall w
      ensures HasItsLock(after, w)
    {
      assert HasItsLock(s, w) && HasItsLock(s, step.w);
    }
    forall key | key in after.locks
      ensures NotLeaked(after, key)
    {
      assert key in s.locks ==> NotLeaked(s, key);
      assert HasItsLock(s, step.w);
    }
  }

  /** Per job, at most one worker is between taking the lock and releasing it. */
  lemma OneHolder(s: State, v: WorkerId, w: WorkerId)
    requires Locking(s) && s.At(v).Holds() && s.At(w).Holds() && s.At(v).job == s.At(w).job
    ensures v == w
  {
    assert HasItsLock(s, v) && HasItsLock(s, w);
  }

  lemma RowsKept(s: State, step: Step)
    requires Inv(s)
    ensures Rows(Next(s, step))
  {
    var after := Next(s, step);
    assert OwnsItsRow(s, step.w) && NoOrphans(s, step.w);
    forall w
      ensures OwnsItsRow(after, w) && NoOrphans(after, w)
    {
      RowsKeptFor(s, step, w);
    }
    forall i | 0 <= i < |after.rows|
      ensures IsLastIfRunning(after, i)
    {
      LastKept(s, step, i);
    }
  }

  /** Only a worker that found no orphan adds a row, so a row still running stays its job's last. */
  lemma LastKept(s: State, step: Step, i: nat)
    requires Rows(s) && i < |Next(s, step).rows|
    ensures IsLastIfRunning(Next(s, step), i)
  {
    assert NoOrphans(s, step.w);
    if i < |s.rows| {
      assert IsLastIfRunning(s, i);
      assert s.rows[i].status.Running? ==> s.Running(i, s.rows[i].job);
    }
  }

  lemma RowsKeptFor(s: State, step: Step, w: WorkerId)
    requires Inv(s)
    ensures OwnsItsRow(Next(s, step), w) && NoOrphans(Next(s, step), w)
  {
    var after := Next(s, step);
    assert OwnsItsRow(s, step.w) && NoOrphans(s, step.w) && OwnsItsRow(s, w) && NoOrphans(s, w);
    if s.At(w).Holds() && s.At(step.w).Holds() && s.At(w).job == s.At(step.w).job {
      OneHolder(s, w, step.w);
    }
    forall i: nat | after.At(w).Reconciled? && after.Running(i, after.At(w).job)
      ensures i < |s.rows| && s.Running(i, after.At(w).job)
    {
    }
  }

  lemma NextKeeps(s: State, step: Step)
    requires Inv(s)
    ensures Inv(Next(s, step))
  {
    LockingKept(s, step);
    RowsKept(s, step);
  }

  /** Whatever the workers do, in whatever order, and wherever they crash. */
  lemma {:induction false} SafeOverRuns(s: State, steps: seq<Step>)
    requires Inv(s)
    ensures Inv(Run(s, steps))
    ensures forall i, j, job :: Run(s, steps).Running(i, job) && Run(s, steps).Running(j, job) ==> i == j
  {
    if steps != [] {
      SafeOverRuns(s, steps[..|steps| - 1]);
      NextKeeps(Run(s, steps[..|steps| - 1]), steps[|steps| - 1]);
    }
    forall i: nat, j: nat, job | Run(s, steps).Running(i, job) && Run(s, steps).Running(j, job)
      ensures i == j
    {
      OneRunningRow(Run(s, steps), job, i, j);
    }
  }

  /** What the invariant says of any reachable state. */
  lemma NoDoubleRuns(s: State, job: Job, v: WorkerId, w: WorkerId, i: nat, j: nat)
    requires Inv(s)
    ensures s.At(v).Holds() && s.At(w).Holds() && s.At(v).job == s.At(w).job ==> v == w
    ensures s.Running(i, job) && s.Running(j, job) ==> i == j
    ensures s.At(w).InBody? && s.At(w).job == job && s.Running(i, job) ==> i == s.At(w).run && s.rows[i].owner == w
  {
    assert HasItsLock(s, v) && HasItsLock(s, w) && OwnsItsRow(s, w);
    if s.Running(i, job) && s.Running(j, job) {
      OneRunningRow(s, job, i, j);
    }
    if s.Running(i, job) && s.At(w).InBody? && s.At(w).job == job {
      OneRunningRow(s, job, i, s.At(w).run);
    }
  }

  // ---------------------------------------------------------------- rows over a run

  /** A step changes one row's ending at most: of a run still running, by its own worker, or as an
      orphan when no worker is running it. */
  lemma RowsOnlyEnd(s: State, step: Step, i: nat)
    requires Inv(s) && i < |s.rows|
    ensures var after := Next(s, step);
            i < |after.rows| && after.rows[i] != s.rows[i] ==>
              && s.rows[i].status.Running? && !after.rows[i].status.Running?
              && after.rows[i] == s.rows[i].(status := after.rows[i].status, finished := after.rows[i].finished)
              && (step.Finish? || step.Reconcile?)
              && (step.Finish? ==> step.w == s.rows[i].owner && s.At(step.w) == InBody(s.rows[i].job, i))
              && (step.Reconcile? ==> after.rows[i].status.Failed?)
    ensures i < |Next(s, step).rows|
  {
    assert OwnsItsRow(s, step.w);
  }

  /** A reconciliation never takes a run away from a worker still at it. */
  lemma ReconcilesOnlyTheDead(s: State, step: Step, i: nat, w: WorkerId)
    requires Inv(s) && step.Reconcile? && i < |s.rows| && Next(s, step).rows[i] != s.rows[i]
    ensures !(s.At(w).InBody? && s.At(w).run == i)
  {
    assert OwnsItsRow(s, w);
    if s.At(w).InBody? && s.At(w).run == i {
      OneHolder(s, w, step.w);
    }
  }

  /** Once a run has ended, as succeeded, failed or orphaned, its row is never changed again. */
  lemma {:induction false} EndedForever(s: State, steps: seq<Step>, i: nat)
    requires Inv(s) && i < |s.rows| && !s.rows[i].status.Running?
    ensures i < |Run(s, steps).rows| && Run(s, steps).rows[i] == s.rows[i]
  {
    if steps != [] {
      var before := steps[..|steps| - 1];
      SafeOverRuns(s, before);
      EndedForever(s, before, i);
      RowsOnlyEnd(Run(s, before), steps[|steps| - 1], i);
    }
  }

  // ---------------------------------------------------------------- a crash holds nothing up

  /** A worker, undisturbed, takes one due job from lock to release. */
  function Undisturbed(w: WorkerId, ok: bool, now: int): seq<Step> {
    [TryLock(w), Reconcile(w, now), Insert(w, now), Finish(w, ok, now), Unlock(w)]
  }

  lemma RunFive(s: State, a: Step, b: Step, c: Step, d: Step, e: Step)
    ensures Run(s, [a, b, c, d, e]) == Next(Next(Next(Next(Next(s, a), b), c), d), e)
  {
    assert [a, b, c, d, e][..4] == [a, b, c, d] && [a, b, c, d][..3] == [a, b, c] && [a, b, c][..2] == [a, b]
        && [a, b][..1] == [a];
    assert Run(s, [a]) == Next(s, a);
    assert Run(s, [a, b]) == Next(Next(s, a), b);
    assert Run(s, [a, b, c]) == Next(Next(Next(s, a), b), c);
  }

  /** What it comes to: every orphan of the job ended, one row added for the run, the lock free. */
  function RunAlone(s: State, w: WorkerId, job: Job, scheduled: int, ok: bool, now: int): State {
    s.(rows := OrphansFailed(s.rows, job, now)
        + [JobRow(job, w, scheduled, now, if ok then Succeeded else Failed, Some(now))],
       pcs := s.pcs[w := Idle])
  }

  lemma AloneRuns(s: State, w: WorkerId, ok: bool, now: int)
    requires s.At(w).FoundDue? && s.At(w).job in s.keys && s.keys[s.At(w).job] !in s.locks
    ensures Run(s, Undisturbed(w, ok, now)) == RunAlone(s, w, s.At(w).job, s.At(w).now, ok, now)
  {
    var job, scheduled := s.At(w).job, s.At(w).now;
    RunFive(s, TryLock(w), Reconcile(w, now), Insert(w, now), Finish(w, ok, now), Unlock(w));
    var locked := Next(s, TryLock(w));
    var inserted := Next(Next(locked, Reconcile(w, now)), Insert(w, now));
    assert inserted.At(w) == InBody(job, |s.rows|);
    var finished := Next(inserted, Finish(w, ok, now));
    assert finished.rows == RunAlone(s, w, job, scheduled, ok, now).rows;
    assert locked.locks - {s.keys[job]} == s.locks;
    assert finished.pcs[w := Idle] == s.pcs[w := Idle];
  }

  /** Whatever worker was running a job, once it has crashed the next worker to find the job due runs
      it to the end, and no row of the job is left running. */
  lemma CrashHoldsNothingUp(s: State, dead: WorkerId, w: WorkerId, ok: bool, now: int)
    requires Inv(s) && s.At(dead).Holds() && s.At(w).FoundDue? && s.At(w).job == s.At(dead).job
    ensures var after := Run(Next(s, Crash(dead)), Undisturbed(w, ok, now));
            && |after.rows| == |s.rows| + 1 && after.rows[|s.rows|].status == (if ok then Succeeded else Failed)
            && forall i :: !after.Running(i, s.At(w).job)
  {
    assert HasItsLock(s, dead);
    var crashed := Next(s, Crash(dead));
    AloneRuns(crashed, w, ok, now);
  }

  // ---------------------------------------------------------------- due, at the time of running

  /** The lock is taken after the job was found due, so another run may come between. */
  lemma TwoRunsInOneInterval(keys: map<Job, int>, job: Job)
    requires job in keys
    ensures var s := State(keys, [], map[], map[]);
            var checked := Next(Next(s, CheckDue(1, job, 24, 0)), CheckDue(2, job, 24, 0));
            var after := Run(Run(checked, Undisturbed(1, true, 0)), Undisturbed(2, true, 1));
            Inv(s) && after.rows == [JobRow(job, 1, 0, 0, Succeeded, Some(0)), JobRow(job, 2, 0, 1, Succeeded, Some(1))]
  {
    var s := State(keys, [], map[], map[]);
    var checked := Next(Next(s, CheckDue(1, job, 24, 0)), CheckDue(2, job, 24, 0));
    AloneRuns(checked, 1, true, 0);
    var between := Run(checked, Undisturbed(1, true, 0));
    assert between.At(2) == FoundDue(job, 0);
    AloneRuns(between, 2, true, 1);
  }

  /** The job's rows are the same in both tables, however many of other jobs were added or changed. */
  ghost predicate SameRowsOf(before: seq<JobRow>, after: seq<JobRow>, job: Job) {
    && |before| <= |after|
    && (forall i :: 0 <= i < |before| && before[i].job == job ==> after[i] == before[i])
    && (forall i :: 0 <= i < |after| && after[i].job == job ==> i < |before| && before[i].job == job)
  }

  lemma LastRunKept(before: seq<JobRow>, after: seq<JobRow>, job: Job)
    requires SameRowsOf(before, after, job)
    ensures LastRun(after, job) == LastRun(before, job)
  {
    var a, b := LastRun(after, job), LastRun(before, job);
    if b.Some? {
      assert after[b.value].job == job;
    }
    if a.Some? {
      assert before[a.value].job == job;
    }
  }

  // ---------------------------------------------------------------- one pass, as it runs

  /** A registered job, and how its body will turn out this time. */
  datatype JobSpec = JobSpec(name: Job, interval: nat, ok: bool)

  datatype Outcome = NotDue | SkippedRunningElsewhere | Ran(ok: bool)

  function OneJob(s: State, w: WorkerId, spec: JobSpec, now: int): State {
    if spec.name !in s.keys || !IsDue(s.rows, spec.name, spec.interval, now) || s.keys[spec.name] in s.locks then s
    else RunAlone(s, w, spec.name, now, spec.ok, now).(pcs := s.pcs)
  }

  function Pass(s: State, w: WorkerId, specs: seq<JobSpec>, now: int): State {
    if specs == [] then s else OneJob(Pass(s, w, specs[..|specs| - 1], now), w, specs[|specs| - 1], now)
  }

  function OutcomeOf(s: State, spec: JobSpec, now: int): Outcome {
    if spec.name !in s.keys || !IsDue(s.rows, spec.name, spec.interval, now) then NotDue
    else if s.keys[spec.name] in s.locks then SkippedRunningElsewhere
    else Ran(spec.ok)
  }

  /** One outcome for each job, told by the table as that job found it. */
  function Outcomes(s: State, w: WorkerId, specs: seq<JobSpec>, now: int): seq<Outcome> {
    if specs == [] then []
    else
      var init, last := specs[..|specs| - 1], specs[|specs| - 1];
      Outcomes(s, w, init, now) + [OutcomeOf(Pass(s, w, init, now), last, now)]
  }

  lemma OneJobMore(s: State, w: WorkerId, specs: seq<JobSpec>, now: int, i: nat)
    requires i < |specs|
    ensures Pass(s, w, specs[..i + 1], now) == OneJob(Pass(s, w, specs[..i], now), w, specs[i], now)
    ensures Outcomes(s, w, specs[..i + 1], now)
         == Outcomes(s, w, specs[..i], now) + [OutcomeOf(Pass(s, w, specs[..i], now), specs[i], now)]
  {
    assert specs[..i + 1][..i] == specs[..i];
  }

  lemma LastOfAppended(rows: seq<JobRow>, row: JobRow)
    ensures LastRun(rows + [row], row.job) == Some(|rows|)
  {
  }

  ghost predicate Settled(s: State, spec: JobSpec, now: int) {
    spec.name in s.keys && s.keys[spec.name] !in s.locks ==> !IsDue(s.rows, spec.name, spec.interval, now)
  }

  lemma RanIsSettled(s: State, w: WorkerId, spec: JobSpec, now: int)
    requires spec.interval > 0
    ensures Settled(OneJob(s, w, spec, now), spec, now)
  {
    LastOfAppended(OrphansFailed(s.rows, spec.name, now),
                   JobRow(spec.name, w, now, now, if spec.ok then Succeeded else Failed, Some(now)));
  }

  lemma OtherStaysSettled(s: State, w: WorkerId, spec: JobSpec, other: JobSpec, now: int)
    requires Settled(s, other, now) && spec.name != other.name
    ensures Settled(OneJob(s, w, spec, now), other, now)
  {
    LastRunKept(s.rows, OneJob(s, w, spec, now).rows, other.name);
  }

  /** After one pass no job it could run is due, so a second pass at once runs nothing. */
  lemma {:induction false} PassSettles(s: State, w: WorkerId, specs: seq<JobSpec>, now: int)
    requires forall i :: 0 <= i < |specs| ==> specs[i].interval > 0
    requires forall i, j :: 0 <= i < j < |specs| ==> specs[i].name != specs[j].name
    ensures forall i :: 0 <= i < |specs| ==> Settled(Pass(s, w, specs, now), specs[i], now)
  {
    if specs != [] {
      var init, last := specs[..|specs| - 1], specs[|specs| - 1];
      PassSettles(s, w, init, now);
      var before := Pass(s, w, init, now);
      RanIsSettled(before, w, last, now);
      forall i | 0 <= i < |init|
        ensures Settled(OneJob(before, w, last, now), specs[i], now)
      {
        assert specs[i] == init[i];
        OtherStaysSettled(before, w, last, specs[i], now);
      }
    }
  }

  lemma {:induction false} SettledPassIsIdle(s: State, w: WorkerId, specs: seq<JobSpec>, now: int)
    requires forall i :: 0 <= i < |specs| ==> Settled(s, specs[i], now)
    ensures Pass(s, w, specs, now) == s
  {
    if specs != [] {
      assert Settled(s, specs[|specs| - 1], now);
      SettledPassIsIdle(s, w, specs[..|specs| - 1], now);
    }
  }

  /** Running due jobs twice in a row is running them once. */
  lemma PassTwiceIsOnce(s: State, w: WorkerId, specs: seq<JobSpec>, now: int)
    requires forall i :: 0 <= i < |specs| ==> specs[i].interval > 0
    requires forall i, j :: 0 <= i < j < |specs| ==> specs[i].name != specs[j].name
    ensures Pass(Pass(s, w, specs, now), w, specs, now) == Pass(s, w, specs, now)
  {
    PassSettles(s, w, specs, now);
    SettledPassIsIdle(Pass(s, w, specs, now), w, specs, now);
  }

  class JobTable {
    const keys: map<Job, int>
    var rows: seq<JobRow>
    var locks: map<int, WorkerId>

    constructor (keys: map<Job, int>)
      ensures this.keys == keys && View() == State(keys, [], map[], map[])
    {
      this.keys := keys;
      rows := [];
      locks := map[];
    }

    function View(): State
      reads this
    {
      State(keys, rows, locks, map[])
    }

    method ReconcileOrphan(job: Job, now: int)
      modifies this`rows
      ensures rows == OrphansFailed(old(rows), job, now)
      ensures forall i :: 0 <= i < |rows| && rows[i].job == job ==> !rows[i].status.Running?
    {
      var before := rows;
      for i := 0 to |before|
        invariant |rows| == |before|
        invariant forall j :: 0 <= j < i ==> rows[j] == OrphansFailed(before, job, now)[j]
        invariant forall j :: i <= j < |rows| ==> rows[j] == before[j]
      {
        if rows[i].job == job && rows[i].status.Running? {
          rows := rows[i := rows[i].(status := Failed, finished := Some(now))];
        }
      }
    }

    /** With nobody else at the table: the lock is taken and released, and the row it adds is the
        row it finishes. */
    method RunOne(w: WorkerId, spec: JobSpec, now: int) returns (outcome: Outcome)
      requires spec.name in keys
      modifies this
      ensures keys[spec.name] in old(locks) ==> outcome == SkippedRunningElsewhere && View() == old(View())
      ensures keys[spec.name] !in old(locks) ==> outcome == Ran(spec.ok)
      ensures keys[spec.name] !in old(locks)
              ==> View() == RunAlone(old(View()), w, spec.name, now, spec.ok, now).(pcs := map[])
    {
      if keys[spec.name] in locks {
        return SkippedRunningElsewhere;
      }
      var free := locks;
      locks := locks[keys[spec.name] := w];
      ReconcileOrphan(spec.name, now);
      var run := |rows|;
      rows := rows + [JobRow(spec.name, w, now, now, Running, None)];
      rows := rows[run := rows[run].(status := if spec.ok then Succeeded else Failed, finished := Some(now))];
      locks := locks - {keys[spec.name]};
      assert locks == free;
      outcome := Ran(spec.ok);
    }

    method RunIfDue(w: WorkerId, spec: JobSpec, now: int) returns (outcome: Outcome)
      requires spec.name in keys
      modifies this
      ensures View() == OneJob(old(View()), w, spec, now) && outcome == OutcomeOf(old(View()), spec, now)
    {
      outcome := NotDue;
      if IsDue(rows, spec.name, spec.interval, now) {
        outcome := RunOne(w, spec, now);
      }
    }

    /** Every registered job in turn, one outcome each. */
    method RunDueJobs(w: WorkerId, specs: seq<JobSpec>, now: int) returns (outcomes: seq<Outcome>)
      requires forall i :: 0 <= i < |specs| ==> specs[i].name in keys
      modifies this
      ensures View() == Pass(old(View()), w, specs, now)
      ensures outcomes == Outcomes(old(View()), w, specs, now)
    {
      ghost var begin := View();
      outcomes := [];
      for i := 0 to |specs|
        invariant View() == Pass(begin, w, specs[..i], now)
        invariant outcomes == Outcomes(begin, w, specs[..i], now)
      {
        OneJobMore(begin, w, specs, now, i);
        var outcome := RunIfDue(w, specs[i], now);
        outcomes := outcomes + [outcome];
      }
      assert specs[..|specs|] == specs;
    }
  }
}
