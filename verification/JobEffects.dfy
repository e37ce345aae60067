/** What running a scheduled job does to the table of runs, row by row. */
module JobEffects {
  import opened Common
  import opened Scheduler

  /** The job's run added last. */
  ghost predicate IsLatest(rows: seq<JobRow>, job: Job, i: nat) {
    i < |rows| && rows[i].job == job && forall j :: i < j < |rows| ==> rows[j].job != job
  }

  /** Its interval has passed since that run ended, or began if it has not ended; or it never ran. */
  ghost predicate IntervalPassed(rows: seq<JobRow>, job: Job, interval: nat, now: int) {
    forall i: nat :: IsLatest(rows, job, i) ==>
      now >= interval + if rows[i].finished.Some? then rows[i].finished.value else rows[i].started
  }

  lemma DueExactly(rows: seq<JobRow>, job: Job, interval: nat, now: int)
    ensures IsDue(rows, job, interval, now) <==> IntervalPassed(rows, job, interval, now)
  {
    var last := LastRun(rows, job);
    if last.Some? {
      assert IsLatest(rows, job, last.value);
    }
  }

  /** An idle worker finds a job due exactly when its interval has passed. */
  lemma CheckFindsDue(s: State, w: WorkerId, job: Job, interval: nat, now: int)
    requires s.At(w) == Idle && job in s.keys
    ensures Next(s, CheckDue(w, job, interval, now))
         == if IntervalPassed(s.rows, job, interval, now) then s.(pcs := s.pcs[w := FoundDue(job, now)]) else s
  {
    DueExactly(s.rows, job, interval, now);
  }

  /** Of a job running elsewhere it lets be. */
  lemma RunningElsewhereIsSkipped(s: State, w: WorkerId)
    requires s.At(w).FoundDue? && s.At(w).job in s.keys && s.keys[s.At(w).job] in s.locks
    ensures Next(s, TryLock(w)) == s.(pcs := s.pcs[w := Idle])
  {
  }

  lemma RunTwo(s: State, a: Step, b: Step)
    ensures Run(s, [a, b]) == Next(Next(s, a), b)
  {
    assert [a, b][..1] == [a] && [a][..0] == [];
    assert Run(s, [a]) == Next(Run(s, []), a);
  }

  /** A failure outside the job's body changes no row and leaves no lock. */
  lemma FailureLetsGo(s: State, w: WorkerId)
    requires Inv(s) && s.At(w).Holds()
    ensures s.At(w).job in s.keys
    ensures Run(s, [Abandon(w), Unlock(w)]) == s.(locks := s.locks - {s.keys[s.At(w).job]}, pcs := s.pcs[w := Idle])
  {
    RunTwo(s, Abandon(w), Unlock(w));
    assert HasItsLock(s, w);
    assert s.pcs[w := Closing(s.At(w).job)][w := Idle] == s.pcs[w := Idle];
  }

  /** A run of the job left running has failed; any other row is as it was. */
  ghost predicate OrphanEnded(was: JobRow, job: Job, now: int, after: JobRow) {
    if was.job == job && was.status == Running then after == was.(status := Failed, finished := Some(now))
    else after == was
  }

  /** The table after a run of its own: what was left running ended, and one row more, ended too. */
  ghost predicate JobRan(before: seq<JobRow>, job: Job, w: WorkerId, ok: bool, now: int, after: seq<JobRow>) {
    && |after| == |before| + 1
    && (forall i :: 0 <= i < |before| ==> OrphanEnded(before[i], job, now, after[i]))
    && after[|before|] == JobRow(job, w, now, now, if ok then Succeeded else Failed, Some(now))
  }

  /** One job of a pass: not due, skipped because its lock is held, or run to its end. */
  lemma JobEffect(s: State, w: WorkerId, spec: JobSpec, now: int)
    requires spec.name in s.keys
    ensures var after, outcome := OneJob(s, w, spec, now), OutcomeOf(s, spec, now);
            if !IntervalPassed(s.rows, spec.name, spec.interval, now) then after == s && outcome == NotDue
            else if s.keys[spec.name] in s.locks then after == s && outcome == SkippedRunningElsewhere
            else
              && outcome == Ran(spec.ok) && after == s.(rows := after.rows)
              && JobRan(s.rows, spec.name, w, spec.ok, now, after.rows)
  {
    DueExactly(s.rows, spec.name, spec.interval, now);
  }

  /** A pass takes the jobs in turn, each as the ones before it left the table. */
  lemma PassIsInTurn(s: State, w: WorkerId, specs: seq<JobSpec>, spec: JobSpec, now: int)
    ensures Pass(s, w, [], now) == s && Outcomes(s, w, [], now) == []
    ensures Pass(s, w, specs + [spec], now) == OneJob(Pass(s, w, specs, now), w, spec, now)
    ensures Outcomes(s, w, specs + [spec], now)
         == Outcomes(s, w, specs, now) + [OutcomeOf(Pass(s, w, specs, now), spec, now)]
  {
    assert (specs + [spec])[..|specs|] == specs;
  }
}
