/** What a run must satisfy to pass, stated without the evaluator's loops. */
module SloContract {
  import opened Wrappers
  import opened SloTypes
  import opened SloCapacity
  import opened SloSamples
  import opened SloWindows
  import opened SloRecovery
  import opened Sorting

  /** The first plan for a class among the first n. */
  function PlanUpTo(planned: seq<PlannedRequests>, n: nat, c: RequestClass): Option<nat>
    requires n <= |planned|
  {
    if n == 0 then None
    else
      var before := PlanUpTo(planned, n - 1, c);
      if before.None? && planned[n-1].class_ == c then Some(planned[n-1].count) else before
  }

  function PlanOf(run: Run, c: RequestClass): nat {
    match PlanUpTo(run.planned, |run.planned|, c)
    case Some(count) => count
    case None => 0
  }

  predicate PlanEntryValid(planned: seq<PlannedRequests>, i: nat)
    requires i < |planned|
  {
    && KnownClass(planned[i].class_)
    && 1 <= planned[i].count <= MAX_REQUEST_RECORDS
    && forall j :: 0 <= j < i ==> planned[j].class_ != planned[i].class_
  }

  predicate PlanValid(run: Run) {
    |run.planned| == 2 && forall i: nat :: i < |run.planned| ==> PlanEntryValid(run.planned, i)
  }

  /** seen maps each known class among the first n plans to its first count. */
  ghost predicate PlansSeen(planned: seq<PlannedRequests>, n: nat, seen: map<RequestClass, nat>)
    requires n <= |planned|
  {
    && (forall c :: c in seen ==> KnownClass(c) && PlanUpTo(planned, n, c) == Some(seen[c]))
    && (forall c :: KnownClass(c) && c !in seen ==> PlanUpTo(planned, n, c).None?)
  }

  lemma {:induction false} PlanSeenEarlier(planned: seq<PlannedRequests>, n: nat, c: RequestClass)
    requires n <= |planned|
    ensures PlanUpTo(planned, n, c).Some? <==> exists j :: 0 <= j < n && planned[j].class_ == c
  {
    if n > 0 {
      PlanSeenEarlier(planned, n - 1, c);
    }
  }

  /** Looking the class up decides whether it repeats. */
  lemma {:induction false} SeePlan(planned: seq<PlannedRequests>, n: nat, seen: map<RequestClass, nat>)
    requires n < |planned| && PlansSeen(planned, n, seen)
    ensures var p := planned[n];
      && (PlanEntryValid(planned, n) <==>
           KnownClass(p.class_) && p.class_ !in seen && 1 <= p.count <= MAX_REQUEST_RECORDS)
      && PlansSeen(planned, n + 1, if KnownClass(p.class_) && p.class_ !in seen
           then seen[p.class_ := p.count]
           else seen)
  {
    PlanSeenEarlier(planned, n, planned[n].class_);
  }

  predicate Expected(s: Scenario, id: string) {
    exists i :: 0 <= i < |s.faults| && s.faults[i].id == id
  }

  /** The first event with that identifier among the first n. */
  function EventUpTo(faults: seq<FaultEvent>, n: nat, id: string): Option<FaultEvent>
    requires n <= |faults|
  {
    if n == 0 then None
    else
      var before := EventUpTo(faults, n - 1, id);
      if before.None? && faults[n-1].id == id then Some(faults[n-1]) else before
  }

  function EventOf(run: Run, id: string): Option<FaultEvent> { EventUpTo(run.faults, |run.faults|, id) }

  /** seen maps each expected identifier among the first n events to its first event. */
  ghost predicate EventsSeen(s: Scenario, faults: seq<FaultEvent>, n: nat, seen: map<string, FaultEvent>)
    requires n <= |faults|
  {
    && (forall id :: id in seen ==> Expected(s, id) && EventUpTo(faults, n, id) == Some(seen[id]))
    && (forall id :: Expected(s, id) && id !in seen ==> EventUpTo(faults, n, id).None?)
  }

  lemma {:induction false} EventSeenEarlier(faults: seq<FaultEvent>, n: nat, id: string)
    requires n <= |faults|
    ensures EventUpTo(faults, n, id).Some? <==> exists j :: 0 <= j < n && faults[j].id == id
  {
    if n > 0 {
      EventSeenEarlier(faults, n - 1, id);
    }
  }

  lemma {:induction false} SeeEvent(s: Scenario, run: Run, start: Instant, n: nat, seen: map<string, FaultEvent>)
    requires n < |run.faults| && EventsSeen(s, run.faults, n, seen)
    ensures var e := run.faults[n];
      && (EventValid(s, run, start, n) <==> Expected(s, e.id) && e.id !in seen && EventTimed(run, start, e))
      && EventsSeen(s, run.faults, n + 1, if Expected(s, e.id) && e.id !in seen then seen[e.id := e] else seen)
  {
    EventSeenEarlier(run.faults, n, run.faults[n].id);
  }

  predicate EventTimed(run: Run, start: Instant, e: FaultEvent) {
    && start <= e.startedAt < run.endedAt
    && e.endedAt.Some? && e.startedAt < e.endedAt.value <= run.endedAt
  }

  predicate EventValid(s: Scenario, run: Run, start: Instant, i: nat)
    requires i < |run.faults|
  {
    && Expected(s, run.faults[i].id)
    && (forall j :: 0 <= j < i ==> run.faults[j].id != run.faults[i].id)
    && EventTimed(run, start, run.faults[i])
  }

  predicate EventsValid(s: Scenario, run: Run, start: Instant) {
    && (forall i: nat :: i < |run.faults| ==> EventValid(s, run, start, i))
    && (forall i :: 0 <= i < |s.faults| ==> EventOf(run, s.faults[i].id).Some?)
  }

  ghost predicate HeaderValid(s: Scenario, run: Run) {
    && run.schemaVersion == RUN_SCHEMA
    && run.scenarioID == s.id
    && ContractID(run.runID)
    && WindowValid(run, MeasurementStart(s, run))
  }

  ghost predicate RequestsValid(run: Run, start: Instant) {
    && (forall i: nat :: i < |run.requests| ==> RequestValid(run, i))
    && |Samples(run, start, ReadIdempotent)| == PlanOf(run, ReadIdempotent)
    && |Samples(run, start, Mutating)| == PlanOf(run, Mutating)
  }

  /** The ledger is complete, well-formed and carries full capacity evidence. */
  ghost predicate Intact(s: Scenario, run: Run) {
    var start := MeasurementStart(s, run);
    && HeaderValid(s, run)
    && PlanValid(run)
    && Gapless(run, start)
    && ExclusionsProven(run, start)
    && EventsValid(s, run, start)
    && RequestsValid(run, start)
  }

  predicate MutationsSafe(run: Run) {
    forall i: nat :: i < |run.requests| ==> MutationSafe(run, i)
  }

  /** The eligible samples of a class in schedule order. */
  function Ordered(samples: seq<Sample>): seq<Sample> { Filter(InScheduleOrder(samples), IsEligible) }

  ghost predicate DowntimeWithin(samples: seq<Sample>, limit: Duration, runEndedAt: Instant) {
    var f := Ordered(samples);
    forall lo: nat, hi: nat :: MaximalFailedRun(f, lo, hi) ==> EndOfRun(f, hi, runEndedAt) - f[lo].scheduled <= limit
  }

  /** Enough samples, failures within the exact rate, no missing or unknown result, no long outage. */
  ghost predicate ClassMeets(samples: seq<Sample>, target: ClassTarget, runEndedAt: Instant) {
    && Count(samples, IsEligible) >= target.minEligible
    && Count(samples, IsFailure) * PPM <= Count(samples, IsEligible) * target.maxErrorRatePPM
    && (forall x :: x in samples && x.eligible ==> !x.missing && !x.unknown)
    && DowntimeWithin(samples, target.maxDowntime, runEndedAt)
  }

  ghost predicate RecoveryMeets(samples: seq<Sample>, event: Option<FaultEvent>, r: RecoveryTarget) {
    && event.Some?
    && var anchor := AnchorTime(event.value, r.anchor);
      anchor.Some? && RecoversWithin(samples, anchor.value, r.successStreak, r.maxDuration)
  }

  ghost predicate ClassSatisfied(s: Scenario, run: Run, c: RequestClass)
    requires ValidScenario(s) && KnownClass(c)
  {
    ClassMeets(Samples(run, MeasurementStart(s, run), c), TargetOf(s, c), run.endedAt)
  }

  ghost predicate ClassRecovered(s: Scenario, run: Run, f: FaultExpectation, i: nat)
    requires f.recovery.Some? && i < |f.recovery.value.classes|
  {
    RecoveryMeets(Samples(run, MeasurementStart(s, run), f.recovery.value.classes[i]), EventOf(run, f.id),
        f.recovery.value)
  }

  ghost predicate FaultRecovered(s: Scenario, run: Run, f: FaultExpectation) {
    f.recovery.Some? ==> forall i: nat :: i < |f.recovery.value.classes| ==> ClassRecovered(s, run, f, i)
  }

  /** The contract the evaluator decides. */
  ghost predicate MeetsContract(s: Scenario, run: Run)
    requires ValidScenario(s)
  {
    && Intact(s, run)
    && MutationsSafe(run)
    && ClassSatisfied(s, run, ReadIdempotent)
    && ClassSatisfied(s, run, Mutating)
    && forall i :: 0 <= i < |s.faults| ==> FaultRecovered(s, run, s.faults[i])
  }
}
