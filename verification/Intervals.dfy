/** When a job, found due before its lock is taken, is still run no sooner than its interval. */
module Intervals {
  import opened Common
  import opened Scheduler

  /** When the job last ended, or began if it never did. */
  function LastTime(rows: seq<JobRow>, job: Job): Option<int> {
    var last := LastRun(rows, job);
    if last.None? then None else Some(Reference(rows[last.value]))
  }

  ghost predicate Timed(step: Step) {
    step.Insert? || step.Finish? || step.Reconcile?
  }

  /** The step adds a run of the job to the table, or ends one there. */
  ghost predicate Touches(s: State, step: Step, job: Job) {
    var pc := s.At(step.w);
    || (step.Insert? && pc.Reconciled? && pc.job == job)
    || (step.Finish? && pc.InBody? && pc.job == job)
    || (step.Reconcile? && pc.Locked? && pc.job == job && exists i :: s.Running(i, job))
  }

  // ---------------------------------------------------------------- one step

  lemma UntouchedStays(s: State, step: Step, job: Job)
    requires Inv(s) && !Touches(s, step, job)
    ensures SameRowsOf(s.rows, Next(s, step).rows, job)
  {
    assert OwnsItsRow(s, step.w);
    if step.Reconcile? && s.At(step.w).Locked? && s.At(step.w).job == job {
      forall i: nat | i < |s.rows| && s.rows[i].job == job
        ensures !s.rows[i].status.Running?
      {
        assert !s.Running(i, job);
      }
    }
  }

  lemma LastIs(rows: seq<JobRow>, job: Job, i: nat)
    requires i < |rows| && rows[i].job == job && forall j :: i < j < |rows| ==> rows[j].job != job
    ensures LastRun(rows, job) == Some(i)
  {
    assert rows[i].job == job && LastRun(rows, job).Some?;
  }

  /** Ending a run ends the job's last run, at the time of the step. */
  lemma EndingSetsTheTime(s: State, step: Step, job: Job, i: nat)
    requires Inv(s) && Touches(s, step, job) && (step.Finish? || step.Reconcile?) && s.Running(i, job)
    ensures LastTime(Next(s, step).rows, job) == Some(step.now)
  {
    assert IsLastIfRunning(s, i) && OwnsItsRow(s, step.w);
    if step.Finish? {
      OneRunningRow(s, job, i, s.At(step.w).run);
    }
    LastIs(Next(s, step).rows, job, i);
  }

  lemma TouchSetsTheTime(s: State, step: Step, job: Job)
    requires Inv(s) && Touches(s, step, job)
    ensures LastTime(Next(s, step).rows, job) == Some(step.now)
  {
    assert OwnsItsRow(s, step.w);
    if step.Insert? {
      LastIs(Next(s, step).rows, job, |s.rows|);
    } else if step.Finish? {
      EndingSetsTheTime(s, step, job, s.At(step.w).run);
    } else {
      var i: nat :| s.Running(i, job);
      EndingSetsTheTime(s, step, job, i);
    }
  }

  lemma SameTime(before: seq<JobRow>, after: seq<JobRow>, job: Job)
    requires SameRowsOf(before, after, job)
    ensures LastTime(after, job) == LastTime(before, job)
  {
    LastRunKept(before, after, job);
  }

  // ---------------------------------------------------------------- between the check and the lock

  ghost predicate TouchesAt(s: State, steps: seq<Step>, job: Job, k: nat)
    requires k < |steps|
  {
    Touches(Run(s, steps[..k]), steps[k], job)
  }

  /** The last step of a run that touches the job. */
  ghost function LastTouch(s: State, steps: seq<Step>, job: Job): (k: Option<nat>)
    ensures k.Some? ==> k.value < |steps| && Timed(steps[k.value])
  {
    if steps == [] then None
    else if TouchesAt(s, steps, job, |steps| - 1) then Some(|steps| - 1)
    else LastTouch(s, steps[..|steps| - 1], job)
  }

  lemma {:induction false} LastTouchIsLast(s: State, steps: seq<Step>, job: Job, j: nat)
    requires j < |steps|
    ensures var k := LastTouch(s, steps, job);
            && (k.Some? ==> TouchesAt(s, steps, job, k.value))
            && (TouchesAt(s, steps, job, j) ==> k.Some? && j <= k.value)
  {
    var before := steps[..|steps| - 1];
    if !TouchesAt(s, steps, job, |steps| - 1) && before != [] {
      var k := LastTouch(s, before, job);
      LastTouchIsLast(s, before, job, if j < |before| then j else 0);
      assert j < |before| ==> steps[..j] == before[..j];
      assert k.Some? ==> steps[..k.value] == before[..k.value];
    }
  }

  /** After any run, the job's last time is that of the last step that touched it. */
  lemma {:induction false} TimeAfter(s: State, steps: seq<Step>, job: Job)
    requires Inv(s)
    ensures var k := LastTouch(s, steps, job);
            LastTime(Run(s, steps).rows, job) == if k.Some? then Some(steps[k.value].now) else LastTime(s.rows, job)
  {
    if steps != [] {
      var before, last := steps[..|steps| - 1], steps[|steps| - 1];
      SafeOverRuns(s, before);
      TimeAfter(s, before, job);
      if TouchesAt(s, steps, job, |steps| - 1) {
        TouchSetsTheTime(Run(s, before), last, job);
      } else {
        UntouchedStays(Run(s, before), last, job);
        SameTime(Run(s, before).rows, Run(s, steps).rows, job);
      }
    }
  }

  /** The workers' clock does not go back. */
  ghost predicate ClockForward(steps: seq<Step>) {
    forall i, j :: 0 <= i < j < |steps| && Timed(steps[i]) && Timed(steps[j]) ==> steps[i].now <= steps[j].now
  }

  /** Some step of the run adds a run of the job or ends one, later than limit. */
  ghost predicate TooLate(s: State, steps: seq<Step>, job: Job, limit: int) {
    exists k :: 0 <= k < |steps| && TouchesAt(s, steps, job, k) && steps[k].now > limit
  }

  lemma LastTouchTells(s: State, steps: seq<Step>, job: Job, limit: int)
    requires ClockForward(steps)
    ensures var m := LastTouch(s, steps, job);
            TooLate(s, steps, job, limit) <==> m.Some? && steps[m.value].now > limit
  {
    var m := LastTouch(s, steps, job);
    if TooLate(s, steps, job, limit) {
      var k :| 0 <= k < |steps| && TouchesAt(s, steps, job, k) && steps[k].now > limit;
      LastTouchIsLast(s, steps, job, k);
    }
    if m.Some? {
      LastTouchIsLast(s, steps, job, m.value);
    }
  }

  // ---------------------------------------------------------------- while the lock is held

  ghost predicate OthersOnly(steps: seq<Step>, w: WorkerId) {
    forall k :: 0 <= k < |steps| ==> steps[k].w != w
  }

  /** Nobody else adds or ends a run of a job whose lock a worker holds. */
  lemma OthersDoNotTouch(s: State, step: Step, w: WorkerId)
    requires Inv(s) && s.At(w).Holds() && step.w != w
    ensures !Touches(s, step, s.At(w).job)
  {
    if s.At(step.w).Holds() && s.At(step.w).job == s.At(w).job {
      OneHolder(s, step.w, w);
    }
  }

  lemma OthersLeaveIt(s: State, step: Step, w: WorkerId)
    requires step.w != w
    ensures Next(s, step).At(w) == s.At(w)
  {
  }

  lemma SameRowsChain(a: seq<JobRow>, b: seq<JobRow>, c: seq<JobRow>, job: Job)
    requires SameRowsOf(a, b, job) && SameRowsOf(b, c, job)
    ensures SameRowsOf(a, c, job)
  {
  }

  lemma {:induction false} HeldUndisturbed(s: State, steps: seq<Step>, w: WorkerId)
    requires Inv(s) && s.At(w).Holds() && OthersOnly(steps, w)
    ensures Inv(Run(s, steps)) && Run(s, steps).At(w) == s.At(w)
    ensures SameRowsOf(s.rows, Run(s, steps).rows, s.At(w).job)
  {
    SafeOverRuns(s, steps);
    if steps != [] {
      var before, last := steps[..|steps| - 1], steps[|steps| - 1];
      HeldUndisturbed(s, before, w);
      OthersDoNotTouch(Run(s, before), last, w);
      OthersLeaveIt(Run(s, before), last, w);
      UntouchedStays(Run(s, before), last, s.At(w).job);
      SameRowsChain(s.rows, Run(s, before).rows, Run(s, steps).rows, s.At(w).job);
    }
  }

  lemma {:induction false} WaitsUndisturbed(s: State, steps: seq<Step>, w: WorkerId)
    requires OthersOnly(steps, w)
    ensures Run(s, steps).At(w) == s.At(w)
  {
    if steps != [] {
      WaitsUndisturbed(s, steps[..|steps| - 1], w);
      OthersLeaveIt(Run(s, steps[..|steps| - 1]), steps[|steps| - 1], w);
    }
  }

  // ---------------------------------------------------------------- from the check to the new run

  /** A worker's steps from holding the lock to the row it adds, with other workers' in between. */
  function FromLock(s: State, w: WorkerId, held: seq<Step>, reconciled: int, waited: seq<Step>, started: int): State {
    Next(Run(Next(Run(s, held), Reconcile(w, reconciled)), waited), Insert(w, started))
  }

  lemma OrphansKeepLast(rows: seq<JobRow>, job: Job, now: int)
    ensures LastRun(OrphansFailed(rows, job, now), job) == LastRun(rows, job)
  {
    var last := LastRun(rows, job);
    if last.Some? {
      LastIs(OrphansFailed(rows, job, now), job, last.value);
    }
  }

  /** The row it adds comes straight after the run that was the job's last when it took the lock. */
  lemma RunFollowsTheLast(s: State, w: WorkerId, held: seq<Step>, reconciled: int, waited: seq<Step>, started: int)
    requires Inv(s) && s.At(w).Locked? && OthersOnly(held, w) && OthersOnly(waited, w)
    ensures var rows := FromLock(s, w, held, reconciled, waited, started).rows;
            && rows != []
            && rows[|rows| - 1] == JobRow(s.At(w).job, w, s.At(w).now, started, Running, None)
            && LastRun(rows[..|rows| - 1], s.At(w).job) == LastRun(s.rows, s.At(w).job)
  {
    var job := s.At(w).job;
    HeldUndisturbed(s, held, w);
    var before := Run(s, held);
    LastRunKept(s.rows, before.rows, job);
    var mine := Next(before, Reconcile(w, reconciled));
    NextKeeps(before, Reconcile(w, reconciled));
    OrphansKeepLast(before.rows, job, reconciled);
    HeldUndisturbed(mine, waited, w);
    LastRunKept(mine.rows, Run(mine, waited).rows, job);
    var rows := FromLock(s, w, held, reconciled, waited, started).rows;
    assert rows[..|rows| - 1] == Run(mine, waited).rows;
  }

  ghost predicate KeepsInterval(rows: seq<JobRow>, job: Job, interval: nat, started: int) {
    LastTime(rows, job).Some? ==> started - LastTime(rows, job).value >= interval
  }

  /** A worker finds a job due, and others go on; it takes the lock, and others go on; it adds its run.
      The run starts no sooner than an interval after the job's previous run, as that stood when the
      lock was taken, exactly unless between the check and the lock another worker added a run of the
      job or ended one, too late. After the lock was taken nobody could. */
  lemma KeepsItsIntervalExactly(s: State, w: WorkerId, job: Job, interval: nat, checked: int, between: seq<Step>,
                                held: seq<Step>, reconciled: int, waited: seq<Step>, started: int)
    requires Inv(s) && s.At(w).Idle? && job in s.keys && IsDue(s.rows, job, interval, checked) && checked <= started
    requires OthersOnly(between, w) && OthersOnly(held, w) && OthersOnly(waited, w) && ClockForward(between)
    requires var due := Next(s, CheckDue(w, job, interval, checked));
             Next(Run(due, between), TryLock(w)).At(w).Locked?
    ensures var due := Next(s, CheckDue(w, job, interval, checked));
            var locked := Next(Run(due, between), TryLock(w));
            var rows := FromLock(locked, w, held, reconciled, waited, started).rows;
            && rows != [] && rows[|rows| - 1] == JobRow(job, w, checked, started, Running, None)
            && LastRun(rows[..|rows| - 1], job) == LastRun(locked.rows, job)
            && (KeepsInterval(locked.rows, job, interval, started) <==> !TooLate(due, between, job, started - interval))
  {
    var due := Next(s, CheckDue(w, job, interval, checked));
    NextKeeps(s, CheckDue(w, job, interval, checked));
    WaitsUndisturbed(due, between, w);
    SafeOverRuns(due, between);
    TimeAfter(due, between, job);
    LastTouchTells(due, between, job, started - interval);
    var locked := Next(Run(due, between), TryLock(w));
    NextKeeps(Run(due, between), TryLock(w));
    assert locked.At(w) == Locked(job, checked) && locked.rows == Run(due, between).rows;
    RunFollowsTheLast(locked, w, held, reconciled, waited, started);
  }
}
