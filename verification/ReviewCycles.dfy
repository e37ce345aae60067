/** Periodic reviews: cycles opened, viewed, attested, swept for reminders, and closed with a record. */
module ReviewCycles {
  import opened Common

  type Org = nat
  type User = nat

  /** A control state of one of the mapped objectives, in an assessment under way. */
  type StateId = nat

  const DAY: nat := 86_400
  const RESPONSE_WINDOW: nat := 21 * DAY
  const REMINDER_DAYS: seq<nat> := [7, 14]

  datatype ReviewerStatus = Requested | Viewed | Attested | NoResponse | NotNotified

  /** notified is when they were first reached; log holds the numbers of the reminders sent. */
  datatype Reviewer = Reviewer(user: User, status: ReviewerStatus, viewed: Option<int>, attested: Option<int>,
                               notified: Option<int>, failing: bool, log: seq<nat>)

  datatype CycleStatus = Open | Completed | ClosedUnattested | ClosedUndeliverable

  datatype Cycle = Cycle(org: Org, openedAt: int, due: int, closed: Option<int>, status: CycleStatus,
                         reviewers: seq<Reviewer>)

  /** What a closing leaves: a record of the cycle, attached to objectives or to none. */
  datatype Record = Record(cycle: nat, links: set<StateId>)

  datatype State = State(cycles: seq<Cycle>, records: seq<Record>, clock: int)

  datatype CycleError = AlreadyOpen | NotFound | NotOpen | NotAReviewer | AlreadyAttested

  /** Whether the k-th message a step sends to a reviewer of a cycle gets through. */
  type Delivery = (nat, nat, nat) -> bool

  // ---------------------------------------------------------------- notifying and reminding one reviewer

  function Told(r: Reviewer, sent: bool, now: int): Reviewer {
    if !sent then r.(failing := true)
    else r.(notified := if r.notified.None? then Some(now) else r.notified, failing := false)
  }

  function FirstDue(n: nat, elapsed: int, already: set<nat>): (due: Option<nat>)
    requires 1 <= n <= |REMINDER_DAYS| + 1
    ensures due.Some?
          ==> n <= due.value <= |REMINDER_DAYS| && due.value !in already && REMINDER_DAYS[due.value - 1] <= elapsed
    ensures due.None? ==> forall m :: n <= m <= |REMINDER_DAYS| && REMINDER_DAYS[m - 1] <= elapsed ==> m in already
    decreases |REMINDER_DAYS| + 1 - n
  {
    if n > |REMINDER_DAYS| then None
    else if elapsed >= REMINDER_DAYS[n - 1] && n !in already then Some(n)
    else FirstDue(n + 1, elapsed, already)
  }

  function DueReminder(r: Reviewer, now: int, already: set<nat>): (due: Option<nat>)
    ensures due.Some? ==> 1 <= due.value <= |REMINDER_DAYS| && due.value !in already
  {
    if r.status.Attested? || r.notified.None? then None else FirstDue(1, (now - r.notified.value) / DAY, already)
  }

  function InLog(log: seq<nat>): set<nat> {
    set n | n in log
  }

  function Unsent(log: seq<nat>): set<nat> {
    set n: nat | 1 <= n <= |REMINDER_DAYS| && n !in log
  }

  /** Every reminder due by now, in one go, until one fails to send. */
  function CaughtUp(r: Reviewer, now: int, delivers: nat -> bool, attempt: nat): Reviewer
    decreases Unsent(r.log)
  {
    var due := DueReminder(r, now, InLog(r.log));
    if due.None? then r
    else if !delivers(attempt) then Told(r, false, now)
    else
      var told := Told(r, true, now).(log := r.log + [due.value]);
      assert due.value in Unsent(r.log) && due.value !in Unsent(told.log);
      CaughtUp(told, now, delivers, attempt + 1)
  }

  /** Somebody never reached is sent the request again; anybody else, the reminders they are due. */
  function SweptReviewer(r: Reviewer, now: int, delivers: nat -> bool): Reviewer {
    if r.notified.None? then Told(r, delivers(0), now) else CaughtUp(r, now, delivers, 0)
  }

  // ---------------------------------------------------------------- the operations

  predicate OpenFor(cycles: seq<Cycle>, org: Org) {
    exists i :: 0 <= i < |cycles| && cycles[i].org == org && cycles[i].status.Open?
  }

  function Asked(users: seq<User>, tell: bool, delivers: Delivery, c: nat, now: int): seq<Reviewer> {
    seq(|users|, i requires 0 <= i < |users| =>
      var r := Reviewer(users[i], Requested, None, None, None, false, []);
      if tell then Told(r, delivers(c, i, 0), now) else r)
  }

  /** A cycle is opened whether or not anybody can be told. */
  function Opened(s: State, org: Org, users: seq<User>, tell: bool, delivers: Delivery,
                  now: int): Result<State, CycleError> {
    if OpenFor(s.cycles, org) then Err(AlreadyOpen)
    else
      Ok(s.(cycles := s.cycles + [Cycle(org, now, now
          + RESPONSE_WINDOW, None, Open, Asked(users, tell, delivers, |s.cycles|, now))], clock := now))
  }

  function ReviewerOf(reviewers: seq<Reviewer>, user: User): (i: Option<nat>)
    ensures i.Some? ==> i.value < |reviewers| && reviewers[i.value].user == user
  {
    if reviewers == [] then None
    else if reviewers[0].user == user then Some(0)
    else
      var rest := ReviewerOf(reviewers[1..], user);
      if rest.Some? then Some(rest.value + 1) else None
  }

  /** Looks at no cycle's status. */
  function ViewedBy(s: State, c: nat, user: User, now: int): State {
    if c >= |s.cycles| then s
    else
      var i := ReviewerOf(s.cycles[c].reviewers, user);
      if i.None? || !s.cycles[c].reviewers[i.value].status.Requested? then s
      else
        var r := s.cycles[c].reviewers[i.value].(status := Viewed, viewed := Some(now));
        s.(cycles := s.cycles[c := s.cycles[c].(reviewers := s.cycles[c].reviewers[i.value := r])], clock := now)
  }

  function Ended(r: Reviewer): Reviewer {
    if r.status.Requested? || r.status.Viewed? then r.(status := if r.notified.Some? then NoResponse else NotNotified)
    else r
  }

  predicate NobodyTold(reviewers: seq<Reviewer>) {
    forall i :: 0 <= i < |reviewers| ==> reviewers[i].notified.None?
  }

  predicate AllAttested(reviewers: seq<Reviewer>) {
    forall i :: 0 <= i < |reviewers| ==> reviewers[i].status.Attested?
  }

  function ClosedCycle(cycle: Cycle, status: CycleStatus, now: int): Cycle {
    cycle.(reviewers := seq(|cycle.reviewers|, i requires 0 <= i < |cycle.reviewers| => Ended(cycle.reviewers[i])),
           status := if status.ClosedUnattested? && NobodyTold(cycle.reviewers) then ClosedUndeliverable else status,
           closed := Some(now))
  }

  /** Only a completed cycle's record is attached. */
  function CloseAt(s: State, c: nat, status: CycleStatus, mapped: set<StateId>, now: int): State
    requires c < |s.cycles|
  {
    State(s.cycles[c := ClosedCycle(s.cycles[c], status, now)], s.records
        + [Record(c, if status.Completed? then mapped else {})], now)
  }

  function Attesting(r: Reviewer, now: int): Reviewer {
    r.(status := Attested, attested := Some(now), viewed := if r.viewed.None? then Some(now) else r.viewed)
  }

  function AttestedCycle(cycle: Cycle, i: nat, now: int): Cycle
    requires i < |cycle.reviewers|
  {
    cycle.(reviewers := cycle.reviewers[i := Attesting(cycle.reviewers[i], now)])
  }

  /** A cycle with one more attestation, closed if that was the last. */
  function Settled(s: State, c: nat, cycle: Cycle, mapped: set<StateId>, now: int): State
    requires c < |s.cycles|
  {
    var after := s.(cycles := s.cycles[c := cycle], clock := now);
    if AllAttested(cycle.reviewers) then CloseAt(after, c, Completed, mapped, now) else after
  }

  function AttestedBy(s: State, c: nat, user: User, mapped: set<StateId>, now: int): Result<State, CycleError> {
    if c >= |s.cycles| then Err(NotFound)
    else if !s.cycles[c].status.Open? then Err(NotOpen)
    else
      var i := ReviewerOf(s.cycles[c].reviewers, user);
      if i.None? then Err(NotAReviewer)
      else if s.cycles[c].reviewers[i.value].status.Attested? then Err(AlreadyAttested)
      else Ok(Settled(s, c, AttestedCycle(s.cycles[c], i.value, now), mapped, now))
  }

  function SweptReviewers(reviewers: seq<Reviewer>, c: nat, delivers: Delivery, now: int): seq<Reviewer> {
    seq(|reviewers|, i requires 0 <= i < |reviewers| => SweptReviewer(reviewers[i], now, (k: nat) => delivers(c, i, k)))
  }

  /** One cycle's part of a sweep: closed once due, else everybody is told or reminded. */
  function SweptCycle(s: State, c: nat, delivers: Delivery, now: int): State
    requires c < |s.cycles|
  {
    var cycle := s.cycles[c];
    if !cycle.status.Open? then s
    else if now >= cycle.due then CloseAt(s, c, ClosedUnattested, {}, now)
    else s.(cycles := s.cycles[c := cycle.(reviewers := SweptReviewers(cycle.reviewers, c, delivers, now))])
  }

  /** A sweep of the first n cycles. */
  function Swept(s: State, n: nat, delivers: Delivery, now: int): (after: State)
    requires n <= |s.cycles|
    ensures |after.cycles| == |s.cycles|
  {
    if n == 0 then s.(clock := now) else SweptCycle(Swept(s, n - 1, delivers, now), n - 1, delivers, now)
  }

  /** later is how long after the last step this one happens: the clock never goes back. */
  datatype Step =
    | OpenCycle(org: Org, users: seq<User>, tell: bool, delivers: Delivery, later: nat)
    | View(c: nat, user: User, later: nat)
    | Attest(c: nat, user: User, mapped: set<StateId>, later: nat)
    | Sweep(delivers: Delivery, later: nat)

  /** What is refused changes nothing. */
  function Accepted(s: State, r: Result<State, CycleError>): State {
    if r.Ok? then r.value else s
  }

  function Next(s: State, step: Step): State {
    var now := s.clock + step.later;
    match step
    case OpenCycle(org, users, tell, delivers, _) => Accepted(s, Opened(s, org, users, tell, delivers, now))
    case View(c, user, _) => ViewedBy(s, c, user, now)
    case Attest(c, user, mapped, _) => Accepted(s, AttestedBy(s, c, user, mapped, now))
    case Sweep(delivers, _) => Swept(s, |s.cycles|, delivers, now)
  }

  function Run(s: State, steps: seq<Step>): State {
    if steps == [] then s else Next(Run(s, steps[..|steps| - 1]), steps[|steps| - 1])
  }

  // ---------------------------------------------------------------- what a reviewer's row says

  /** How many of the reminders' thresholds have passed. */
  function Elapsed(n: nat, elapsed: int): (k: nat)
    requires n <= |REMINDER_DAYS|
    ensures k <= n
  {
    if n == 0 then 0 else if REMINDER_DAYS[n - 1] <= elapsed then n else Elapsed(n - 1, elapsed)
  }

  function Reached(r: Reviewer, now: int): nat
    requires r.notified.Some?
  {
    Elapsed(|REMINDER_DAYS|, (now - r.notified.value) / DAY)
  }

  /** The log is 1 to k, each once, and no reminder went out before its day. */
  ghost predicate LogHolds(r: Reviewer, clock: int) {
    && (forall i :: 0 <= i < |r.log| ==> r.log[i] == i + 1)
    && (r.notified.Some? ==> r.notified.value <= clock)
    && if r.notified.None? then r.log == [] else |r.log| <= Reached(r, clock)
  }

  ghost predicate RowHolds(r: Reviewer) {
    && (r.status.NoResponse? ==> r.notified.Some?)
    && (r.status.NotNotified? ==> r.notified.None?)
    && (r.status.Attested? <==> r.attested.Some?)
    && (r.status.Viewed? || r.status.Attested? ==> r.viewed.Some?)
    && (r.status.Requested? ==> r.viewed.None?)
  }

  lemma DaysOnlyPass(from: int, early: int, late: int)
    requires early <= late
    ensures (early - from) / DAY <= (late - from) / DAY
  {
  }

  lemma ReachedOnlyGrows(r: Reviewer, early: int, late: int)
    requires r.notified.Some? && early <= late
    ensures Reached(r, early) <= Reached(r, late)
  {
    DaysOnlyPass(r.notified.value, early, late);
    assert REMINDER_DAYS[0] == 7 && REMINDER_DAYS[1] == 14 && |REMINDER_DAYS| == 2;
    ElapsedIs((early - r.notified.value) / DAY);
    ElapsedIs((late - r.notified.value) / DAY);
  }

  lemma ElapsedIs(days: int)
    ensures Elapsed(|REMINDER_DAYS|, days) == if days >= 14 then 2 else if days >= 7 then 1 else 0
  {
    assert |REMINDER_DAYS| == 2 && REMINDER_DAYS[0] == 7 && REMINDER_DAYS[1] == 14;
    assert Elapsed(1, days) == if days >= 7 then 1 else 0;
  }

  /** With the log at 1 to k, what is due is k + 1, once its day has come. */
  lemma DueIsTheNext(r: Reviewer, now: int)
    requires r.notified.Some? && !r.status.Attested? && LogHolds(r, now)
    ensures DueReminder(r, now, InLog(r.log)) == if |r.log| < Reached(r, now) then Some(|r.log| + 1) else None
  {
    var days := (now - r.notified.value) / DAY;
    ElapsedIs(days);
    assert |REMINDER_DAYS| == 2 && REMINDER_DAYS[0] == 7 && REMINDER_DAYS[1] == 14;
    assert forall n :: n in InLog(r.log) <==> 1 <= n <= |r.log| by {
      forall n: nat | 1 <= n <= |r.log|
        ensures n in InLog(r.log)
      {
        assert r.log[n - 1] == n;
      }
    }
    assert FirstDue(3, days, InLog(r.log)) == None;
  }

  ghost predicate Sends(delivers: nat -> bool) {
    forall k :: delivers(k)
  }

  /** What a catch-up does to a reviewer: the log grows by the next numbers, never past the days
      that have passed, and reaches them all if nothing failed. Only the log and the failure change. */
  ghost predicate CatchesUp(r: Reviewer, after: Reviewer, now: int) {
    && after == r.(log := after.log, failing := after.failing)
    && r.log <= after.log && LogHolds(after, now)
    && (r.status.Attested? ==> after.log == r.log)
  }

  lemma {:induction false} CatchUpHolds(r: Reviewer, now: int, delivers: nat -> bool, attempt: nat)
    requires LogHolds(r, now) && r.notified.Some?
    ensures CatchesUp(r, CaughtUp(r, now, delivers, attempt), now)
    ensures Sends(delivers) && !r.status.Attested? ==> |CaughtUp(r, now, delivers, attempt).log| == Reached(r, now)
    decreases Unsent(r.log)
  {
    if !r.status.Attested? {
      DueIsTheNext(r, now);
      var due := DueReminder(r, now, InLog(r.log));
      if due.Some? && delivers(attempt) {
        var told := Told(r, true, now).(log := r.log + [due.value]);
        assert due.value in Unsent(r.log) && due.value !in Unsent(told.log);
        CatchUpHolds(told, now, delivers, attempt + 1);
      }
    }
  }

  /** A sweep's part for one reviewer: reached at most once for the first time, statuses untouched. */
  lemma SweepHolds(r: Reviewer, now: int, delivers: nat -> bool)
    requires LogHolds(r, now)
    ensures var after := SweptReviewer(r, now, delivers);
            after == r.(log := after.log, failing := after.failing, notified := after.notified)
            && r.log <= after.log && LogHolds(after, now) && (r.notified.Some? ==> after.notified == r.notified)
    ensures Sends(delivers) && r.notified.Some? && !r.status.Attested?
          ==> |SweptReviewer(r, now, delivers).log| == Reached(r, now)
  {
    ElapsedIs(0);
    if r.notified.Some? {
      CatchUpHolds(r, now, delivers, 0);
    }
  }

  // ---------------------------------------------------------------- what every run keeps

  /** A cycle's time ends when it is closed. */
  function EndOf(c: Cycle, clock: int): int {
    if c.closed.Some? then c.closed.value else clock
  }

  ghost predicate CycleHolds(c: Cycle, clock: int) {
    && (forall i :: 0 <= i < |c.reviewers| ==> RowHolds(c.reviewers[i]) && LogHolds(c.reviewers[i], EndOf(c, clock)))
    && (c.status.Open? <==> c.closed.None?)
    && (c.closed.Some? ==> c.closed.value <= clock)
    && (forall i :: 0 <= i < |c.reviewers| ==> StatusFits(c, c.reviewers[i]))
    && (c.status.Completed? ==> AllAttested(c.reviewers) && c.reviewers != [])
    && (c.status.ClosedUndeliverable? ==> NobodyTold(c.reviewers))
    && (c.status.ClosedUnattested? ==> !NobodyTold(c.reviewers))
  }

  /** Nobody is left waiting once a cycle is closed, and nobody is written off before. */
  ghost predicate StatusFits(c: Cycle, r: Reviewer) {
    if c.status.Open? then r.status.Requested? || r.status.Viewed? || r.status.Attested?
    else r.status.Attested? || r.status.NoResponse? || r.status.NotNotified?
  }

  ghost predicate OneOpenPerOrg(cycles: seq<Cycle>) {
    forall i, j :: 0 <= i < j < |cycles| && cycles[i].status.Open? && cycles[j].status.Open?
        ==> cycles[i].org != cycles[j].org
  }

  ghost predicate HasRecord(s: State, c: nat) {
    exists k :: 0 <= k < |s.records| && s.records[k].cycle == c
  }

  /** One record for each closed cycle and for no other, attached only if the cycle was completed. */
  ghost predicate RecordsHold(s: State) {
    && (forall c :: 0 <= c < |s.cycles| ==> (HasRecord(s, c) <==> !s.cycles[c].status.Open?))
    && (forall j, k :: 0 <= j < k < |s.records| ==> s.records[j].cycle != s.records[k].cycle)
    && (forall k :: 0 <= k < |s.records| ==> s.records[k].cycle < |s.cycles|)
    && (forall k :: 0 <= k < |s.records| && s.records[k].links != {} ==> s.cycles[s.records[k].cycle].status.Completed?)
  }

  ghost predicate CyclesHold(s: State) {
    forall c :: 0 <= c < |s.cycles| ==> CycleHolds(s.cycles[c], s.clock)
  }

  ghost predicate Inv(s: State) {
    CyclesHold(s) && OneOpenPerOrg(s.cycles) && RecordsHold(s)
  }

  lemma LaterHolds(c: Cycle, clock: int, now: int)
    requires CycleHolds(c, clock) && clock <= now
    ensures CycleHolds(c, now)
  {
    if c.closed.None? {
      forall i | 0 <= i < |c.reviewers|
        ensures LogHolds(c.reviewers[i], now)
      {
        if c.reviewers[i].notified.Some? {
          ReachedOnlyGrows(c.reviewers[i], clock, now);
        }
      }
    }
  }

  lemma AllLaterHold(s: State, now: int)
    requires CyclesHold(s) && s.clock <= now
    ensures CyclesHold(s.(clock := now))
  {
    forall c | 0 <= c < |s.cycles|
      ensures CycleHolds(s.cycles[c], now)
    {
      LaterHolds(s.cycles[c], s.clock, now);
    }
  }

  lemma ClosingHolds(c: Cycle, status: CycleStatus, now: int)
    requires CycleHolds(c, now) && c.status.Open?
    requires status.Completed? || status.ClosedUnattested?
    requires status.Completed? ==> AllAttested(c.reviewers) && c.reviewers != []
    ensures CycleHolds(ClosedCycle(c, status, now), now)
  {
    var after := ClosedCycle(c, status, now);
    assert NobodyTold(after.reviewers) <==> NobodyTold(c.reviewers) by {
      assert forall i :: 0 <= i < |c.reviewers| ==> after.reviewers[i].notified == c.reviewers[i].notified;
    }
  }

  lemma ClosingKeeps(s: State, c: nat, status: CycleStatus, mapped: set<StateId>)
    requires Inv(s) && c < |s.cycles| && s.cycles[c].status.Open?
    requires status.Completed? || status.ClosedUnattested?
    requires status.Completed? ==> AllAttested(s.cycles[c].reviewers) && s.cycles[c].reviewers != []
    ensures Inv(CloseAt(s, c, status, mapped, s.clock))
  {
    var after := CloseAt(s, c, status, mapped, s.clock);
    ClosingHolds(s.cycles[c], status, s.clock);
    assert !HasRecord(s, c);
    forall k | 0 <= k < |s.cycles|
      ensures HasRecord(after, k) <==> !after.cycles[k].status.Open?
    {
      assert after.records[|s.records|].cycle == c;
      assert HasRecord(s, k) <==> !s.cycles[k].status.Open?;
      if HasRecord(s, k) {
        var j :| 0 <= j < |s.records| && s.records[j].cycle == k;
        assert after.records[j].cycle == k;
      }
    }
  }

  /** A cycle changed while open, to one that holds, keeps everything. */
  lemma ReplacingKeeps(s: State, c: nat, cycle: Cycle)
    requires Inv(s) && c < |s.cycles| && s.cycles[c].status.Open? && cycle.status.Open? && cycle.org == s.cycles[c].org
    requires CycleHolds(cycle, s.clock)
    ensures Inv(s.(cycles := s.cycles[c := cycle]))
  {
    var after := s.(cycles := s.cycles[c := cycle]);
    assert forall k :: HasRecord(after, k) <==> HasRecord(s, k);
  }

  lemma ClockKeeps(s: State, now: int)
    requires Inv(s) && s.clock <= now
    ensures Inv(s.(clock := now))
  {
    AllLaterHold(s, now);
    assert forall k :: HasRecord(s.(clock := now), k) <==> HasRecord(s, k);
  }

  lemma ViewKeeps(s: State, c: nat, user: User, now: int)
    requires Inv(s) && s.clock <= now
    ensures Inv(ViewedBy(s, c, user, now))
  {
    var after := ViewedBy(s, c, user, now);
    if after != s {
      ClockKeeps(s, now);
      ReplacingKeeps(s.(clock := now), c, after.cycles[c]);
    }
  }

  lemma AttestKeeps(s: State, c: nat, user: User, mapped: set<StateId>, now: int)
    requires Inv(s) && s.clock <= now && AttestedBy(s, c, user, mapped, now).Ok?
    ensures Inv(AttestedBy(s, c, user, mapped, now).value)
  {
    ClockKeeps(s, now);
    var cycle := AttestedCycle(s.cycles[c], ReviewerOf(s.cycles[c].reviewers, user).value, now);
    LaterHolds(s.cycles[c], s.clock, now);
    ReplacingKeeps(s.(clock := now), c, cycle);
    if AllAttested(cycle.reviewers) {
      ClosingKeeps(s.(cycles := s.cycles[c := cycle], clock := now), c, Completed, mapped);
    }
  }

  lemma AskedHold(users: seq<User>, tell: bool, delivers: Delivery, c: nat, now: int, i: nat)
    requires i < |users|
    ensures var r := Asked(users, tell, delivers, c, now)[i];
            RowHolds(r) && LogHolds(r, now) && r.status.Requested?
  {
    var r := Reviewer(users[i], Requested, None, None, None, false, []);
    assert Asked(users, tell, delivers, c, now)[i] == if tell then Told(r, delivers(c, i, 0), now) else r;
  }

  lemma OpenKeeps(s: State, org: Org, users: seq<User>, tell: bool, delivers: Delivery, now: int)
    requires Inv(s) && s.clock <= now && Opened(s, org, users, tell, delivers, now).Ok?
    ensures Inv(Opened(s, org, users, tell, delivers, now).value)
  {
    ClockKeeps(s, now);
    var t := s.(clock := now);
    var after := Opened(s, org, users, tell, delivers, now).value;
    var c := |s.cycles|;
    forall i | 0 <= i < |users|
      ensures RowHolds(after.cycles[c].reviewers[i]) && LogHolds(after.cycles[c].reviewers[i], now)
      ensures StatusFits(after.cycles[c], after.cycles[c].reviewers[i])
    {
      AskedHold(users, tell, delivers, c, now, i);
    }
    assert CycleHolds(after.cycles[c], now);
    assert forall k :: HasRecord(after, k) <==> HasRecord(t, k);
    assert !HasRecord(t, c);
  }

  lemma SweptCycleKeeps(s: State, c: nat, delivers: Delivery)
    requires Inv(s) && c < |s.cycles|
    ensures Inv(SweptCycle(s, c, delivers, s.clock))
  {
    var cycle := s.cycles[c];
    if cycle.status.Open? {
      if s.clock >= cycle.due {
        ClosingKeeps(s, c, ClosedUnattested, {});
      } else {
        var reviewers := SweptReviewers(cycle.reviewers, c, delivers, s.clock);
        forall i | 0 <= i < |reviewers|
          ensures RowHolds(reviewers[i]) && LogHolds(reviewers[i], s.clock)
          ensures reviewers[i].status == cycle.reviewers[i].status
        {
          SweepHolds(cycle.reviewers[i], s.clock, (k: nat) => delivers(c, i, k));
        }
        ReplacingKeeps(s, c, cycle.(reviewers := reviewers));
      }
    }
  }

  lemma {:induction false} SweptKeeps(s: State, n: nat, delivers: Delivery, now: int)
    requires Inv(s) && n <= |s.cycles| && s.clock <= now
    ensures Inv(Swept(s, n, delivers, now)) && Swept(s, n, delivers, now).clock == now
  {
    if n == 0 {
      ClockKeeps(s, now);
    } else {
      SweptKeeps(s, n - 1, delivers, now);
      SweptCycleKeeps(Swept(s, n - 1, delivers, now), n - 1, delivers);
    }
  }

  lemma OpenStepKeeps(s: State, org: Org, users: seq<User>, tell: bool, delivers: Delivery, now: int, after: State)
    requires Inv(s) && s.clock <= now && after == Accepted(s, Opened(s, org, users, tell, delivers, now))
    ensures Inv(after)
  {
    if Opened(s, org, users, tell, delivers, now).Ok? {
      OpenKeeps(s, org, users, tell, delivers, now);
    }
  }

  lemma ViewStepKeeps(s: State, c: nat, user: User, now: int, after: State)
    requires Inv(s) && s.clock <= now && after == ViewedBy(s, c, user, now)
    ensures Inv(after)
  {
    ViewKeeps(s, c, user, now);
  }

  lemma AttestStepKeeps(s: State, c: nat, user: User, mapped: set<StateId>, now: int, after: State)
    requires Inv(s) && s.clock <= now && after == Accepted(s, AttestedBy(s, c, user, mapped, now))
    ensures Inv(after)
  {
    if AttestedBy(s, c, user, mapped, now).Ok? {
      AttestKeeps(s, c, user, mapped, now);
    }
  }

  lemma SweepStepKeeps(s: State, delivers: Delivery, now: int, after: State)
    requires Inv(s) && s.clock <= now && after == Swept(s, |s.cycles|, delivers, now)
    ensures Inv(after)
  {
    SweptKeeps(s, |s.cycles|, delivers, now);
  }

  lemma NextKeeps(s: State, step: Step)
    requires Inv(s)
    ensures Inv(Next(s, step))
  {
    var now, after := s.clock + step.later, Next(s, step);
    match step
    case OpenCycle(org, users, tell, delivers, _) => OpenStepKeeps(s, org, users, tell, delivers, now, after);
    case View(c, user, _) => ViewStepKeeps(s, c, user, now, after);
    case Attest(c, user, mapped, _) => AttestStepKeeps(s, c, user, mapped, now, after);
    case Sweep(delivers, _) => SweepStepKeeps(s, delivers, now, after);
  }

  /** Over every run of openings, views, attestations and sweeps, whatever fails to be delivered. */
  lemma {:induction false} ReviewsOverRuns(s: State, steps: seq<Step>)
    requires Inv(s)
    ensures Inv(Run(s, steps))
    ensures OneOpenPerOrg(Run(s, steps).cycles) && RecordsHold(Run(s, steps))
  {
    if steps != [] {
      ReviewsOverRuns(s, steps[..|steps| - 1]);
      NextKeeps(Run(s, steps[..|steps| - 1]), steps[|steps| - 1]);
    }
  }

  /** What a closed cycle's rows say after any run: everybody attested, or who was asked and did not
      answer is told apart from who was never asked; and nothing says a review was attempted when
      nobody could be reached. */
  lemma WhatAClosedCycleSays(s: State, steps: seq<Step>, c: nat)
    requires Inv(s) && c < |Run(s, steps).cycles| && !Run(s, steps).cycles[c].status.Open?
    ensures var cycle := Run(s, steps).cycles[c];
            && (cycle.status.Completed? ==> AllAttested(cycle.reviewers))
            && (cycle.status.ClosedUndeliverable? <==> !cycle.status.Completed? && NobodyTold(cycle.reviewers))
            && forall i :: 0 <= i < |cycle.reviewers| && !cycle.reviewers[i].status.Attested?
                ==> ToldApart(cycle.reviewers[i])
  {
    ReviewsOverRuns(s, steps);
    var cycle := Run(s, steps).cycles[c];
    assert CycleHolds(cycle, Run(s, steps).clock);
    forall i | 0 <= i < |cycle.reviewers|
      ensures StatusFits(cycle, cycle.reviewers[i]) && RowHolds(cycle.reviewers[i])
    {
    }
  }

  ghost predicate ToldApart(r: Reviewer) {
    (r.status.NoResponse? <==> r.notified.Some?) && (r.status.NotNotified? <==> r.notified.None?)
  }

  // ---------------------------------------------------------------- what never changes again

  function SweptOne(cycle: Cycle, c: nat, delivers: Delivery, now: int): Cycle {
    if !cycle.status.Open? then cycle
    else if now >= cycle.due then ClosedCycle(cycle, ClosedUnattested, now)
    else cycle.(reviewers := SweptReviewers(cycle.reviewers, c, delivers, now))
  }

  /** A sweep treats each cycle by itself. */
  lemma {:induction false} SweptAt(s: State, n: nat, delivers: Delivery, now: int)
    requires n <= |s.cycles|
    ensures forall c :: 0 <= c < |s.cycles| ==> Swept(s, n, delivers, now).cycles[c] == if c < n
          then SweptOne(s.cycles[c], c, delivers, now) else s.cycles[c]
    ensures s.records <= Swept(s, n, delivers, now).records
  {
    if n > 0 {
      SweptAt(s, n - 1, delivers, now);
    }
  }

  /** Nobody on a closed cycle is still waiting, so a view finds no one to mark. */
  lemma ViewLeavesClosed(s: State, d: nat, user: User, now: int, c: nat)
    requires c < |s.cycles| && CycleHolds(s.cycles[c], s.clock) && !s.cycles[c].status.Open?
    ensures |ViewedBy(s, d, user, now).cycles| == |s.cycles| && ViewedBy(s, d, user, now).cycles[c] == s.cycles[c]
  {
    assert forall i :: 0 <= i < |s.cycles[c].reviewers| ==> StatusFits(s.cycles[c], s.cycles[c].reviewers[i]);
  }

  lemma NextLeavesClosed(s: State, step: Step, c: nat)
    requires c < |s.cycles| && CycleHolds(s.cycles[c], s.clock) && !s.cycles[c].status.Open?
    ensures c < |Next(s, step).cycles| && Next(s, step).cycles[c] == s.cycles[c]
  {
    if step.Sweep? {
      SweptAt(s, |s.cycles|, step.delivers, s.clock + step.later);
    } else if step.View? {
      ViewLeavesClosed(s, step.c, step.user, s.clock + step.later, c);
    }
  }

  lemma NextKeepsRecords(s: State, step: Step)
    ensures s.records <= Next(s, step).records
  {
    if step.Sweep? {
      SweptAt(s, |s.cycles|, step.delivers, s.clock + step.later);
    }
  }

  /** Once a cycle is closed, neither it nor any of its reviewers' rows changes, and records stay. */
  lemma {:induction false} FrozenOnceClosed(s: State, steps: seq<Step>, c: nat)
    requires Inv(s) && c < |s.cycles| && !s.cycles[c].status.Open?
    ensures c < |Run(s, steps).cycles| && Run(s, steps).cycles[c] == s.cycles[c]
    ensures s.records <= Run(s, steps).records
  {
    if steps != [] {
      var before := steps[..|steps| - 1];
      ReviewsOverRuns(s, before);
      FrozenOnceClosed(s, before, c);
      NextLeavesClosed(Run(s, before), steps[|steps| - 1], c);
      NextKeepsRecords(Run(s, before), steps[|steps| - 1]);
    }
  }

  /** A reviewer's row only goes on: first reached once, reminders only added, an attestation kept. */
  ghost predicate GoesOn(r: Reviewer, after: Reviewer) {
    && after.user == r.user && r.log <= after.log
    && (r.notified.Some? ==> after.notified == r.notified)
    && (r.status.Attested? ==> after.status.Attested? && after.attested == r.attested)
    && (r.viewed.Some? ==> after.viewed == r.viewed)
  }

  ghost predicate AllGoOn(before: seq<Reviewer>, after: seq<Reviewer>) {
    |after| == |before| && forall i :: 0 <= i < |before| ==> GoesOn(before[i], after[i])
  }

  /** After the step the cycle is there, and each row on it has gone on. */
  ghost predicate CycleGoesOn(s: State, after: State, c: nat)
    requires c < |s.cycles|
  {
    c < |after.cycles| && AllGoOn(s.cycles[c].reviewers, after.cycles[c].reviewers)
  }

  lemma OpenCaseGoesOn(s: State, step: Step, c: nat)
    requires c < |s.cycles| && step.OpenCycle?
    ensures CycleGoesOn(s, Next(s, step), c)
  {
    OpenStepGoesOn(s, step.org, step.users, step.tell, step.delivers, s.clock + step.later, c);
  }

  lemma AttestCaseGoesOn(s: State, step: Step, c: nat)
    requires c < |s.cycles| && step.Attest?
    ensures CycleGoesOn(s, Next(s, step), c)
  {
    AttestStepGoesOn(s, step.c, step.user, step.mapped, s.clock + step.later, c);
  }

  lemma ViewCaseGoesOn(s: State, step: Step, c: nat)
    requires c < |s.cycles| && CycleHolds(s.cycles[c], s.clock) && step.View?
    ensures CycleGoesOn(s, Next(s, step), c)
  {
    ViewGoesOn(s, step.c, step.user, s.clock + step.later, c);
  }

  lemma SweepCaseGoesOn(s: State, step: Step, c: nat)
    requires c < |s.cycles| && CycleHolds(s.cycles[c], s.clock) && step.Sweep?
    ensures CycleGoesOn(s, Next(s, step), c)
  {
    SweepGoesOn(s, c, step.delivers, s.clock + step.later);
  }

  lemma NextGoesOn(s: State, step: Step, c: nat)
    requires c < |s.cycles| && CycleHolds(s.cycles[c], s.clock)
    ensures CycleGoesOn(s, Next(s, step), c)
  {
    match step
    case OpenCycle(_, _, _, _, _) => OpenCaseGoesOn(s, step, c);
    case View(_, _, _) => ViewCaseGoesOn(s, step, c);
    case Attest(_, _, _, _) => AttestCaseGoesOn(s, step, c);
    case Sweep(_, _) => SweepCaseGoesOn(s, step, c);
  }

  lemma OpenStepGoesOn(s: State, org: Org, users: seq<User>, tell: bool, delivers: Delivery, now: int, c: nat)
    requires c < |s.cycles|
    ensures CycleGoesOn(s, Accepted(s, Opened(s, org, users, tell, delivers, now)), c)
  {
    if Opened(s, org, users, tell, delivers, now).Ok? {
      OpenGoesOn(s, org, users, tell, delivers, now, c);
    }
  }

  lemma AttestStepGoesOn(s: State, d: nat, user: User, mapped: set<StateId>, now: int, c: nat)
    requires c < |s.cycles|
    ensures CycleGoesOn(s, Accepted(s, AttestedBy(s, d, user, mapped, now)), c)
  {
    if AttestedBy(s, d, user, mapped, now).Ok? {
      AttestGoesOn(s, d, user, mapped, now, c);
    }
  }

  lemma OpenGoesOn(s: State, org: Org, users: seq<User>, tell: bool, delivers: Delivery, now: int, c: nat)
    requires c < |s.cycles| && Opened(s, org, users, tell, delivers, now).Ok?
    ensures var after := Opened(s, org, users, tell, delivers, now).value;
            c < |after.cycles| && after.cycles[c] == s.cycles[c]
  {
  }

  lemma ViewGoesOn(s: State, d: nat, user: User, now: int, c: nat)
    requires c < |s.cycles| && forall i :: 0 <= i < |s.cycles[c].reviewers| ==> RowHolds(s.cycles[c].reviewers[i])
    ensures AllGoOn(s.cycles[c].reviewers, ViewedBy(s, d, user, now).cycles[c].reviewers)
  {
  }

  lemma AttestGoesOn(s: State, d: nat, user: User, mapped: set<StateId>, now: int, c: nat)
    requires c < |s.cycles| && AttestedBy(s, d, user, mapped, now).Ok?
    ensures AllGoOn(s.cycles[c].reviewers, AttestedBy(s, d, user, mapped, now).value.cycles[c].reviewers)
  {
  }

  lemma SweepGoesOn(s: State, c: nat, delivers: Delivery, now: int)
    requires c < |s.cycles| && CycleHolds(s.cycles[c], s.clock) && s.clock <= now
    ensures AllGoOn(s.cycles[c].reviewers, Swept(s, |s.cycles|, delivers, now).cycles[c].reviewers)
  {
    SweptAt(s, |s.cycles|, delivers, now);
    LaterHolds(s.cycles[c], s.clock, now);
    SweptOneGoesOn(s.cycles[c], c, delivers, now);
  }

  lemma SweptOneGoesOn(cycle: Cycle, c: nat, delivers: Delivery, now: int)
    requires CycleHolds(cycle, now)
    ensures AllGoOn(cycle.reviewers, SweptOne(cycle, c, delivers, now).reviewers)
  {
    if cycle.status.Open? && now < cycle.due {
      forall i | 0 <= i < |cycle.reviewers|
        ensures GoesOn(cycle.reviewers[i], SweptOne(cycle, c, delivers, now).reviewers[i])
      {
        SweepHolds(cycle.reviewers[i], now, (k: nat) => delivers(c, i, k));
      }
    }
  }

  lemma {:induction false} RowsGoOn(s: State, steps: seq<Step>, c: nat)
    requires Inv(s) && c < |s.cycles|
    ensures c < |Run(s, steps).cycles| && AllGoOn(s.cycles[c].reviewers, Run(s, steps).cycles[c].reviewers)
  {
    if steps != [] {
      var before := steps[..|steps| - 1];
      ReviewsOverRuns(s, before);
      RowsGoOn(s, before, c);
      NextGoesOn(Run(s, before), steps[|steps| - 1], c);
    }
  }

  // ---------------------------------------------------------------- reminders, exactly

  ghost predicate AllDelivered(delivers: Delivery) {
    forall c, i, k :: delivers(c, i, k)
  }

  /** Whatever was missed before, after a sweep in which nothing fails every reviewer who has not attested
      has been reached, and was sent exactly the reminders whose day has come. */
  lemma SweepRemindsExactly(s: State, delivers: Delivery, later: nat, c: nat, i: nat)
    requires Inv(s) && AllDelivered(delivers) && c < |s.cycles| && i < |s.cycles[c].reviewers|
    requires s.cycles[c].status.Open? && s.clock + later < s.cycles[c].due
    requires !s.cycles[c].reviewers[i].status.Attested?
    ensures var after := Next(s, Sweep(delivers, later)).cycles[c].reviewers;
            |after| == |s.cycles[c].reviewers| && RemindedExactly(after[i], s.clock + later)
  {
    LogOf(s, c, i);
    SweepRemindsRow(s, delivers, later, c, i);
  }

  lemma LogOf(s: State, c: nat, i: nat)
    requires Inv(s) && c < |s.cycles| && s.cycles[c].status.Open? && i < |s.cycles[c].reviewers|
    ensures LogHolds(s.cycles[c].reviewers[i], s.clock)
  {
    assert CycleHolds(s.cycles[c], s.clock);
  }

  lemma SweepRemindsRow(s: State, delivers: Delivery, later: nat, c: nat, i: nat)
    requires c < |s.cycles| && s.cycles[c].status.Open? && s.clock + later < s.cycles[c].due
    requires i < |s.cycles[c].reviewers| && LogHolds(s.cycles[c].reviewers[i], s.clock) && AllDelivered(delivers)
    requires !s.cycles[c].reviewers[i].status.Attested?
    ensures var after := Next(s, Sweep(delivers, later)).cycles[c].reviewers;
            |after| == |s.cycles[c].reviewers| && RemindedExactly(after[i], s.clock + later)
  {
    var now := s.clock + later;
    SweepSendsTo(s, Swept(s, |s.cycles|, delivers, now), delivers, now, c);
    RemindsRow(s.cycles[c].reviewers, s.clock, delivers, now, c, i);
  }

  ghost predicate RemindedExactly(r: Reviewer, now: int) {
    r.notified.Some? && |r.log| == Reached(r, now) && forall k :: 0 <= k < |r.log| ==> r.log[k] == k + 1
  }

  lemma RemindsRow(rows: seq<Reviewer>, clock: int, delivers: Delivery, now: int, c: nat, i: nat)
    requires i < |rows| && LogHolds(rows[i], clock) && clock <= now && AllDelivered(delivers)
    requires !rows[i].status.Attested?
    ensures RemindedExactly(SweptReviewers(rows, c, delivers, now)[i], now)
  {
    if rows[i].notified.Some? {
      ReachedOnlyGrows(rows[i], clock, now);
    }
    RemindsExactly(rows[i], now, (k: nat) => delivers(c, i, k));
  }

  lemma SweepSendsTo(s: State, after: State, delivers: Delivery, now: int, c: nat)
    requires c < |s.cycles| && after == Swept(s, |s.cycles|, delivers, now)
    requires s.cycles[c].status.Open? && now < s.cycles[c].due
    ensures after.cycles[c].reviewers == SweptReviewers(s.cycles[c].reviewers, c, delivers, now)
  {
    SweptAt(s, |s.cycles|, delivers, now);
    assert after.cycles[c] == SweptOne(s.cycles[c], c, delivers, now);
  }

  lemma RemindsExactly(r: Reviewer, now: int, delivers: nat -> bool)
    requires LogHolds(r, now) && Sends(delivers) && !r.status.Attested?
    ensures RemindedExactly(SweptReviewer(r, now, delivers), now)
  {
    SweepHolds(r, now, delivers);
    ElapsedIs(0);
  }

  /** In any reachable state, whatever failed on the way, the reminders logged are 1 to k, each once,
      for a k no greater than the thresholds passed since the reviewer was first reached. */
  lemma RemindersInOrder(s: State, c: nat, i: nat)
    requires Inv(s) && c < |s.cycles| && i < |s.cycles[c].reviewers|
    ensures var r := s.cycles[c].reviewers[i];
            && (forall k :: 0 <= k < |r.log| ==> r.log[k] == k + 1)
            && (r.log != [] ==> r.notified.Some? && |r.log| <= Reached(r, s.clock))
  {
    var r := s.cycles[c].reviewers[i];
    var at := if s.cycles[c].closed.Some? then s.cycles[c].closed.value else s.clock;
    assert CycleHolds(s.cycles[c], s.clock);
    if r.notified.Some? {
      ReachedOnlyGrows(r, at, s.clock);
    }
  }

  // ---------------------------------------------------------------- as it runs

  class ReviewBoard {
    var cycles: seq<Cycle>
    var records: seq<Record>
    var clock: int

    constructor (clock: int)
      ensures View() == State([], [], clock) && Inv(View())
    {
      this.cycles, this.records, this.clock := [], [], clock;
    }

    function View(): State
      reads this
    {
      State(cycles, records, clock)
    }

    method OpenCycle(org: Org, users: seq<User>, tell: bool, delivers: Delivery,
                     now: int) returns (error: Option<CycleError>)
      modifies this
      ensures error.None? ==> Opened(old(View()), org, users, tell, delivers, now) == Ok(View())
      ensures error.Some?
            ==> Opened(old(View()), org, users, tell, delivers, now) == Err(error.value) && View() == old(View())
    {
      if OpenFor(cycles, org) {
        return Some(AlreadyOpen);
      }
      var asked := [];
      for i := 0 to |users|
        invariant asked == Asked(users, tell, delivers, |cycles|, now)[..i]
        invariant |asked| == i
      {
        var r := Reviewer(users[i], Requested, None, None, None, false, []);
        if tell {
          r := Told(r, delivers(|cycles|, i, 0), now);
        }
        asked := asked + [r];
      }
      assert asked == Asked(users, tell, delivers, |cycles|, now);
      cycles := cycles + [Cycle(org, now, now + RESPONSE_WINDOW, None, Open, asked)];
      clock := now;
      error := None;
    }

    method RecordView(c: nat, user: User, now: int)
      modifies this
      ensures View() == ViewedBy(old(View()), c, user, now)
    {
      if c < |cycles| {
        var i := ReviewerOf(cycles[c].reviewers, user);
        if i.Some? && cycles[c].reviewers[i.value].status.Requested? {
          var r := cycles[c].reviewers[i.value].(status := Viewed, viewed := Some(now));
          cycles := cycles[c := cycles[c].(reviewers := cycles[c].reviewers[i.value := r])];
          clock := now;
        }
      }
    }

    method CloseCycle(c: nat, status: CycleStatus, mapped: set<StateId>, now: int)
      requires c < |cycles|
      modifies this
      ensures View() == CloseAt(old(View()), c, status, mapped, now)
    {
      var reviewers := cycles[c].reviewers;
      var nobody := true;
      for i := 0 to |reviewers|
        invariant |reviewers| == |cycles[c].reviewers|
        invariant forall j :: 0 <= j < i ==> reviewers[j] == Ended(cycles[c].reviewers[j])
        invariant forall j :: i <= j < |reviewers| ==> reviewers[j] == cycles[c].reviewers[j]
        invariant nobody <==> forall j :: 0 <= j < i ==> cycles[c].reviewers[j].notified.None?
      {
        if reviewers[i].status.Requested? || reviewers[i].status.Viewed? {
          reviewers := reviewers[i := reviewers[i].(status := if reviewers[i].notified.Some? then NoResponse
              else NotNotified)];
        }
        nobody := nobody && reviewers[i].notified.None?;
      }
      var closing := if status.ClosedUnattested? && nobody then ClosedUndeliverable else status;
      assert reviewers == ClosedCycle(cycles[c], status, now).reviewers;
      cycles := cycles[c := cycles[c].(reviewers := reviewers, status := closing, closed := Some(now))];
      records := records + [Record(c, if status.Completed? then mapped else {})];
      clock := now;
    }

    method AttestCycle(c: nat, user: User, mapped: set<StateId>, now: int) returns (error: Option<CycleError>)
      modifies this
      ensures error.None? ==> AttestedBy(old(View()), c, user, mapped, now) == Ok(View())
      ensures error.Some? ==> AttestedBy(old(View()), c, user, mapped, now) == Err(error.value) && View() == old(View())
    {
      if c >= |cycles| {
        return Some(NotFound);
      }
      if !cycles[c].status.Open? {
        return Some(NotOpen);
      }
      var i := ReviewerOf(cycles[c].reviewers, user);
      if i.None? {
        return Some(NotAReviewer);
      }
      var r := cycles[c].reviewers[i.value];
      if r.status.Attested? {
        return Some(AlreadyAttested);
      }
      r := r.(status := Attested, attested := Some(now), viewed := if r.viewed.None? then Some(now) else r.viewed);
      cycles := cycles[c := cycles[c].(reviewers := cycles[c].reviewers[i.value := r])];
      clock := now;
      if AllAttested(cycles[c].reviewers) {
        CloseCycle(c, Completed, mapped, now);
      }
      error := None;
    }

    /** Reminders are sent until none is due or one fails. */
    method CatchUp(reviewer: Reviewer, now: int, delivers: nat -> bool) returns (r: Reviewer)
      ensures r == CaughtUp(reviewer, now, delivers, 0)
    {
      r := reviewer;
      var already := InLog(r.log);
      var attempt, going := 0, true;
      while going
        invariant already == InLog(r.log)
        invariant CaughtUp(reviewer, now, delivers, 0) == if going then CaughtUp(r, now, delivers, attempt) else r
        decreases going, Unsent(r.log)
      {
        var due := DueReminder(r, now, already);
        if due.None? {
          going := false;
        } else {
          var sent := delivers(attempt);
          attempt := attempt + 1;
          if sent {
            assert due.value in Unsent(r.log) && due.value !in Unsent(r.log + [due.value]);
            r := Told(r, true, now).(log := r.log + [due.value]);
            already := already + {due.value};
          } else {
            r := Told(r, false, now);
            going := false;
          }
        }
      }
    }

    method SweepCycle(c: nat, delivers: Delivery, now: int)
      requires c < |cycles|
      modifies this
      ensures View() == SweptCycle(old(View()).(clock := now), c, delivers, now)
    {
      clock := now;
      if !cycles[c].status.Open? {
        return;
      }
      if now >= cycles[c].due {
        CloseCycle(c, ClosedUnattested, {}, now);
        return;
      }
      var reviewers := SweepReviewers(cycles[c].reviewers, c, delivers, now);
      cycles := cycles[c := cycles[c].(reviewers := reviewers)];
    }

    method SweepReviewers(reviewers: seq<Reviewer>, c: nat, delivers: Delivery, now: int) returns (swept: seq<Reviewer>)
      ensures swept == SweptReviewers(reviewers, c, delivers, now)
    {
      swept := [];
      for i := 0 to |reviewers|
        invariant |swept| == i
        invariant forall j :: 0 <= j < i ==> swept[j] == SweptReviewers(reviewers, c, delivers, now)[j]
      {
        var r := reviewers[i];
        if r.notified.None? {
          r := Told(r, delivers(c, i, 0), now);
        } else {
          r := CatchUp(r, now, (k: nat) => delivers(c, i, k));
        }
        swept := swept + [r];
      }
    }

    method SweepAll(delivers: Delivery, now: int)
      modifies this
      ensures View() == Swept(old(View()), |old(cycles)|, delivers, now)
    {
      ghost var begin := View();
      clock := now;
      for c := 0 to |cycles|
        invariant |cycles| == |begin.cycles| && clock == now
        invariant View() == Swept(begin, c, delivers, now)
      {
        SweepCycle(c, delivers, now);
      }
    }
  }
}
