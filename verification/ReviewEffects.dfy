/** What each operation on a review cycle does, row by row, with none of its rules named. */
module ReviewEffects {
  import opened Common
  import opened ReviewCycles

  // ---------------------------------------------------------------- opening

  ghost predicate HasOpenCycle(s: State, org: Org) {
    exists c :: 0 <= c < |s.cycles| && s.cycles[c].org == org && s.cycles[c].status == Open
  }

  /** A reviewer just asked: told at once, or not, or in vain. */
  ghost predicate JustAsked(r: Reviewer, user: User, tell: bool, got: bool, now: int) {
    r == Reviewer(user, Requested, None, None, if tell && got then Some(now) else None, tell && !got, [])
  }

  /** Three weeks are given from the opening. */
  ghost predicate JustOpened(s: State, org: Org, users: seq<User>, tell: bool, delivers: Delivery, now: int,
                             cycle: Cycle) {
    && cycle.org == org && cycle.openedAt == now && cycle.due == now + 21 * 24 * 60 * 60
    && cycle.closed == None && cycle.status == Open && |cycle.reviewers| == |users|
    && forall i :: 0 <= i < |users| ==>
         JustAsked(cycle.reviewers[i], users[i], tell, delivers(|s.cycles|, i, 0), now)
  }

  /** Opening adds one cycle for everybody asked, or is refused while one is open. */
  lemma OpenEffect(s: State, org: Org, users: seq<User>, tell: bool, delivers: Delivery, now: int)
    ensures var r := Opened(s, org, users, tell, delivers, now);
            if HasOpenCycle(s, org) then r == Err(AlreadyOpen)
            else
              && r.Ok? && |r.value.cycles| == |s.cycles| + 1 && s.cycles <= r.value.cycles
              && r.value.records == s.records && r.value.clock == now
              && JustOpened(s, org, users, tell, delivers, now, r.value.cycles[|s.cycles|])
  {
  }

  // ---------------------------------------------------------------- viewing and attesting

  /** The first row of that user. */
  ghost predicate IsRowOf(reviewers: seq<Reviewer>, user: User, i: nat) {
    i < |reviewers| && reviewers[i].user == user && forall j :: 0 <= j < i ==> reviewers[j].user != user
  }

  lemma {:induction false} RowOfIs(reviewers: seq<Reviewer>, user: User)
    ensures forall i: nat :: IsRowOf(reviewers, user, i) ==> ReviewerOf(reviewers, user) == Some(i)
    ensures var i := ReviewerOf(reviewers, user);
            if i.Some? then IsRowOf(reviewers, user, i.value)
            else forall j :: 0 <= j < |reviewers| ==> reviewers[j].user != user
    decreases |reviewers|
  {
    if reviewers != [] && reviewers[0].user != user {
      RowOfIs(reviewers[1..], user);
      forall i: nat | IsRowOf(reviewers, user, i)
        ensures i > 0 && IsRowOf(reviewers[1..], user, i - 1)
      {
        assert reviewers[1..][i - 1] == reviewers[i];
      }
      forall j | 1 <= j < |reviewers|
        ensures reviewers[j] == reviewers[1..][j - 1]
      {
      }
    }
  }

  /** Cycle c with the row i of its reviewers written over. */
  ghost function WithRow(s: State, c: nat, i: nat, r: Reviewer): seq<Cycle>
    requires c < |s.cycles| && i < |s.cycles[c].reviewers|
  {
    s.cycles[c := s.cycles[c].(reviewers := s.cycles[c].reviewers[i := r])]
  }

  ghost predicate WaitsToSee(s: State, c: nat, user: User, i: nat) {
    c < |s.cycles| && IsRowOf(s.cycles[c].reviewers, user, i) && s.cycles[c].reviewers[i].status == Requested
  }

  /** A first view is recorded; anything else changes nothing. */
  lemma ViewEffect(s: State, c: nat, user: User, now: int)
    ensures forall i: nat :: WaitsToSee(s, c, user, i) ==>
              ViewedBy(s, c, user, now) == State(
                WithRow(s, c, i, s.cycles[c].reviewers[i].(status := Viewed, viewed := Some(now))), s.records, now)
    ensures (forall i: nat :: !WaitsToSee(s, c, user, i)) ==> ViewedBy(s, c, user, now) == s
  {
    if c < |s.cycles| {
      RowOfIs(s.cycles[c].reviewers, user);
    }
  }

  ghost predicate AllDone(reviewers: seq<Reviewer>) {
    forall i :: 0 <= i < |reviewers| ==> reviewers[i].status == Attested
  }

  /** One attestation: the row says so from now, seen now if it was not before. The last one completes the
      cycle, whose record is attached. */
  ghost predicate Attests(s: State, c: nat, i: nat, mapped: set<StateId>, now: int, after: State)
    requires c < |s.cycles| && i < |s.cycles[c].reviewers|
  {
    var was := s.cycles[c].reviewers[i];
    var row := was.(status := Attested, attested := Some(now), viewed := if was.viewed == None then Some(now)
                    else was.viewed);
    var cycles := WithRow(s, c, i, row);
    && after.clock == now
    && if AllDone(cycles[c].reviewers)
       then after.cycles == cycles[c := cycles[c].(status := Completed, closed := Some(now))]
            && after.records == s.records + [Record(c, mapped)]
       else after.cycles == cycles && after.records == s.records
  }

  /** An attestation, or exactly these refusals. */
  lemma AttestEffect(s: State, c: nat, user: User, mapped: set<StateId>, now: int)
    ensures var r := AttestedBy(s, c, user, mapped, now);
            if c >= |s.cycles| then r == Err(NotFound)
            else if s.cycles[c].status != Open then r == Err(NotOpen)
            else
              && ((forall i :: 0 <= i < |s.cycles[c].reviewers| ==> s.cycles[c].reviewers[i].user != user)
                    ==> r == Err(NotAReviewer))
              && forall i: nat :: IsRowOf(s.cycles[c].reviewers, user, i) ==>
                   if s.cycles[c].reviewers[i].status == Attested then r == Err(AlreadyAttested)
                   else r.Ok? && Attests(s, c, i, mapped, now, r.value)
  {
    if c < |s.cycles| && s.cycles[c].status.Open? {
      var reviewers := s.cycles[c].reviewers;
      RowOfIs(reviewers, user);
      var i := ReviewerOf(reviewers, user);
      if i.Some? && !reviewers[i.value].status.Attested? {
        AttestedIs(s, c, i.value, mapped, now);
      }
    }
  }

  lemma AttestedIs(s: State, c: nat, i: nat, mapped: set<StateId>, now: int)
    requires c < |s.cycles| && s.cycles[c].status.Open? && i < |s.cycles[c].reviewers|
    ensures Attests(s, c, i, mapped, now, Settled(s, c, AttestedCycle(s.cycles[c], i, now), mapped, now))
  {
    var cycle := AttestedCycle(s.cycles[c], i, now);
    if AllAttested(cycle.reviewers) {
      assert ClosedCycle(cycle, Completed, now).reviewers == cycle.reviewers;
    }
  }

  // ---------------------------------------------------------------- a sweep

  /** Still waiting when the time is up: told and silent, or never told. Everybody else is as they were. */
  ghost predicate WrittenOff(was: Reviewer, after: Reviewer) {
    if was.status == Requested || was.status == Viewed
    then after == was.(status := if was.notified == None then NotNotified else NoResponse)
    else after == was
  }

  ghost predicate Unreached(reviewers: seq<Reviewer>) {
    forall i :: 0 <= i < |reviewers| ==> reviewers[i].notified == None
  }

  /** Closed because its time is up. */
  ghost predicate TimedOut(was: Cycle, now: int, after: Cycle) {
    && after == was.(closed := Some(now), reviewers := after.reviewers,
                     status := if Unreached(was.reviewers) then ClosedUndeliverable else ClosedUnattested)
    && |after.reviewers| == |was.reviewers|
    && forall i :: 0 <= i < |was.reviewers| ==> WrittenOff(was.reviewers[i], after.reviewers[i])
  }

  /** Reminders come a week and a fortnight after somebody was first told. */
  ghost function DueBy(notified: int, now: int): nat {
    var days := (now - notified) / (24 * 60 * 60);
    if days >= 14 then 2 else if days >= 7 then 1 else 0
  }

  /** What the sweep sends, as far as it gets through: n reminders, in order. */
  ghost predicate Reminded(was: Reviewer, now: int, got: nat -> bool, n: nat, after: Reviewer)
    requires was.notified.Some?
  {
    var due := DueBy(was.notified.value, now);
    && |was.log| + n <= due && (forall k :: 0 <= k < n ==> got(k)) && (|was.log| + n < due ==> !got(n))
    && after == was.(log := after.log, failing := if |was.log| + n < due then true
                     else if n > 0 then false else was.failing)
    && |after.log| == |was.log| + n && was.log <= after.log
    && forall k :: |was.log| <= k < |after.log| ==> after.log[k] == k + 1
  }

  /** One reviewer after a sweep: the request again if they were never told, nothing once they have attested,
      and otherwise the reminders due that get through. */
  ghost predicate RowSwept(was: Reviewer, now: int, got: nat -> bool, after: Reviewer) {
    if was.notified == None then
      after == if got(0) then was.(notified := Some(now), failing := false) else was.(failing := true)
    else if was.status == Attested then after == was
    else exists n :: Reminded(was, now, got, n, after)
  }

  ghost predicate CycleSwept(was: Cycle, c: nat, delivers: Delivery, now: int, after: Cycle) {
    if was.status != Open then after == was
    else if now >= was.due then TimedOut(was, now, after)
    else
      && after == was.(reviewers := after.reviewers) && |after.reviewers| == |was.reviewers|
      && forall i :: 0 <= i < |was.reviewers| ==>
           RowSwept(was.reviewers[i], now, (k: nat) => delivers(c, i, k), after.reviewers[i])
  }

  lemma DueByIs(r: Reviewer, now: int)
    requires r.notified.Some?
    ensures Reached(r, now) == DueBy(r.notified.value, now)
  {
    ElapsedIs((now - r.notified.value) / DAY);
  }

  /** The deliveries from one attempt on. */
  function From(delivers: nat -> bool, attempt: nat): nat -> bool {
    (k: nat) => delivers(attempt + k)
  }

  lemma {:induction false} CaughtUpIs(r: Reviewer, now: int, delivers: nat -> bool, attempt: nat) returns (n: nat)
    requires r.notified.Some? && !r.status.Attested? && LogHolds(r, now)
    ensures Reminded(r, now, From(delivers, attempt), n, CaughtUp(r, now, delivers, attempt))
    decreases Unsent(r.log)
  {
    DueIsTheNext(r, now);
    DueByIs(r, now);
    n := 0;
    if |r.log| < Reached(r, now) && delivers(attempt) {
      var due := |r.log| + 1;
      var told := Told(r, true, now).(log := r.log + [due]);
      assert due in Unsent(r.log) && due !in Unsent(told.log) by {
        assert forall k :: 0 <= k < |r.log| ==> r.log[k] != due;
      }
      DueByIs(told, now);
      var m := CaughtUpIs(told, now, delivers, attempt + 1);
      n := m + 1;
      CaughtUpMore(r, now, delivers, attempt, told, m);
    }
  }

  lemma CaughtUpMore(r: Reviewer, now: int, delivers: nat -> bool, attempt: nat, told: Reviewer, m: nat)
    requires r.notified.Some? && |r.log| < DueBy(r.notified.value, now) && delivers(attempt)
    requires told == Told(r, true, now).(log := r.log + [|r.log| + 1])
    requires CaughtUp(r, now, delivers, attempt) == CaughtUp(told, now, delivers, attempt + 1)
    requires Reminded(told, now, From(delivers, attempt + 1), m, CaughtUp(told, now, delivers, attempt + 1))
    ensures Reminded(r, now, From(delivers, attempt), m + 1, CaughtUp(r, now, delivers, attempt))
  {
    var after := CaughtUp(r, now, delivers, attempt);
    forall k | 0 <= k < m + 1
      ensures From(delivers, attempt)(k)
    {
      assert k > 0 ==> From(delivers, attempt + 1)(k - 1);
    }
    assert told.log[|r.log|] == |r.log| + 1 && after.log[|r.log|] == told.log[|r.log|];
    assert From(delivers, attempt + 1)(m) == From(delivers, attempt)(m + 1);
  }

  lemma RowIsSwept(r: Reviewer, now: int, delivers: nat -> bool)
    requires LogHolds(r, now)
    ensures RowSwept(r, now, delivers, SweptReviewer(r, now, delivers))
  {
    if r.notified.Some? && !r.status.Attested? {
      var n := CaughtUpIs(r, now, delivers, 0);
      RemindedFromStart(r, now, delivers, n, CaughtUp(r, now, delivers, 0));
    }
  }

  lemma RemindedFromStart(r: Reviewer, now: int, delivers: nat -> bool, n: nat, after: Reviewer)
    requires r.notified.Some? && Reminded(r, now, From(delivers, 0), n, after)
    ensures Reminded(r, now, delivers, n, after)
  {
    assert forall k :: From(delivers, 0)(k) == delivers(k);
  }

  /** What a sweep makes of every cycle: one past its time is closed, one still open has its reviewers told
      or reminded, a closed one is as it was. */
  lemma SweepEffect(s: State, delivers: Delivery, later: nat, c: nat)
    requires Inv(s) && c < |s.cycles|
    ensures var after := Next(s, Sweep(delivers, later));
            |after.cycles| == |s.cycles| && CycleSwept(s.cycles[c], c, delivers, s.clock + later, after.cycles[c])
  {
    HoldsLater(s, c, s.clock + later);
    SweepSweeps(s, Next(s, Sweep(delivers, later)), delivers, s.clock + later, c);
  }

  lemma HoldsLater(s: State, c: nat, now: int)
    requires Inv(s) && c < |s.cycles| && s.clock <= now
    ensures CycleHolds(s.cycles[c], now)
  {
    LaterHolds(s.cycles[c], s.clock, now);
  }

  lemma SweepSweeps(s: State, after: State, delivers: Delivery, now: int, c: nat)
    requires c < |s.cycles| && CycleHolds(s.cycles[c], now) && after == Swept(s, |s.cycles|, delivers, now)
    ensures |after.cycles| == |s.cycles| && CycleSwept(s.cycles[c], c, delivers, now, after.cycles[c])
  {
    SweptAt(s, |s.cycles|, delivers, now);
    CycleIsSwept(s.cycles[c], c, delivers, now);
    assert after.cycles[c] == SweptOne(s.cycles[c], c, delivers, now);
  }

  lemma CycleIsSwept(cycle: Cycle, c: nat, delivers: Delivery, now: int)
    requires CycleHolds(cycle, now)
    ensures CycleSwept(cycle, c, delivers, now, SweptOne(cycle, c, delivers, now))
  {
    if cycle.status.Open? && now < cycle.due {
      forall i | 0 <= i < |cycle.reviewers|
        ensures RowSwept(cycle.reviewers[i], now, (k: nat) => delivers(c, i, k),
              SweptOne(cycle, c, delivers, now).reviewers[i])
      {
        RowIsSwept(cycle.reviewers[i], now, (k: nat) => delivers(c, i, k));
      }
    }
  }

  ghost predicate TimeIsUp(s: State, c: nat, now: int) {
    c < |s.cycles| && s.cycles[c].status == Open && now >= s.cycles[c].due
  }

  /** The records a sweep of the first n cycles adds: one for each whose time is up, attached to nothing. */
  ghost predicate RecordsAdded(s: State, n: nat, now: int, after: seq<Record>) {
    && s.records <= after
    && (forall k :: |s.records| <= k < |after| ==> after[k].links == {} && TimeIsUp(s, after[k].cycle, now))
    && forall c :: 0 <= c < n && TimeIsUp(s, c, now) ==> Record(c, {}) in after
  }

  lemma {:induction false} SweepRecords(s: State, n: nat, delivers: Delivery, now: int)
    requires n <= |s.cycles|
    ensures RecordsAdded(s, n, now, Swept(s, n, delivers, now).records)
  {
    if n > 0 {
      SweepRecords(s, n - 1, delivers, now);
      var before := Swept(s, n - 1, delivers, now);
      SweptAt(s, n - 1, delivers, now);
      OneMoreRecord(s, n - 1, now, before.records, SweptCycle(before, n - 1, delivers, now).records);
    }
  }

  lemma OneMoreRecord(s: State, n: nat, now: int, before: seq<Record>, after: seq<Record>)
    requires n < |s.cycles| && RecordsAdded(s, n, now, before)
    requires after == if TimeIsUp(s, n, now) then before + [Record(n, {})] else before
    ensures RecordsAdded(s, n + 1, now, after)
  {
    if TimeIsUp(s, n, now) {
      assert after[|before|] == Record(n, {});
      assert forall r :: r in before ==> r in after;
    }
  }

  /** A step is its operation at its own time; what is refused changes nothing. */
  lemma OpenStepIs(s: State, org: Org, users: seq<User>, tell: bool, delivers: Delivery, later: nat)
    ensures Next(s, OpenCycle(org, users, tell, delivers, later))
         == Accepted(s, Opened(s, org, users, tell, delivers, s.clock + later))
  {
  }

  lemma RowStepsAre(s: State, c: nat, user: User, mapped: set<StateId>, later: nat)
    ensures Next(s, View(c, user, later)) == ViewedBy(s, c, user, s.clock + later)
    ensures Next(s, Attest(c, user, mapped, later)) == Accepted(s, AttestedBy(s, c, user, mapped, s.clock + later))
  {
  }

  lemma RefusedIsNothing(s: State, r: Result<State, CycleError>)
    ensures Accepted(s, r) == if r.Ok? then r.value else s
  {
  }
}
