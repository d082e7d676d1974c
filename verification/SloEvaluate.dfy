/** The evaluator: its state, its loops and the verdict. */
module SloEvaluate {
  import opened Wrappers
  import opened SloTypes
  import opened SloArithmetic
  import opened SloCapacity
  import opened SloSamples
  import opened SloWindows
  import opened SloRecovery
  import opened SloContract
  import opened SloClasses
  import opened Sorting

  /** A Go slice has fewer elements than this. */
  const MAX_SLICE := 0x8000_0000_0000_0000

  function Lookup(m: map<RequestClass, nat>, c: RequestClass): nat { if c in m then m[c] else 0 }

  function SamplesIn(m: map<RequestClass, seq<Sample>>, c: RequestClass): seq<Sample> { if c in m then m[c] else [] }

  /** A check that found something grew its list; one that did not left it alone. */
  predicate Grown(before: seq<Violation>, after: seq<Violation>, clean: bool) {
    before <= after && (|before| == |after| <==> clean)
  }

  ghost predicate ValidUpTo(run: Run, n: nat)
    requires n <= |run.requests|
  {
    n == 0 || (ValidUpTo(run, n - 1) && RequestValid(run, n - 1))
  }

  ghost predicate SafeUpTo(run: Run, n: nat)
    requires n <= |run.requests|
  {
    n == 0 || (SafeUpTo(run, n - 1) && MutationSafe(run, n - 1))
  }

  lemma {:induction false} ValidUpToAll(run: Run, n: nat)
    requires n <= |run.requests|
    ensures ValidUpTo(run, n) <==> forall i: nat :: i < n ==> RequestValid(run, i)
  {
    if n > 0 { ValidUpToAll(run, n - 1); }
  }

  lemma {:induction false} SafeUpToAll(run: Run, n: nat)
    requires n <= |run.requests|
    ensures SafeUpTo(run, n) <==> forall i: nat :: i < n ==> MutationSafe(run, i)
  {
    if n > 0 { SafeUpToAll(run, n - 1); }
  }

  lemma {:induction false} AllKnown(run: Run, n: nat)
    requires n <= |run.requests| && ValidUpTo(run, n)
    ensures forall j :: 0 <= j < n ==> KnownClass(run.requests[j].class_)
  {
    if n > 0 { AllKnown(run, n - 1); }
  }

  class EvaluationState {
    const scenario: Scenario
    const run: Run
    const start: Instant
    var planned: map<RequestClass, nat>
    var recorded: map<RequestClass, nat>
    var requests: map<RequestClass, seq<Sample>>
    var faultEvents: map<string, FaultEvent>
    var exclusions: seq<ExclusionInterval>
    var integrity: seq<Violation>
    var mutationSafety: seq<Violation>

    constructor (scenario: Scenario, run: Run)
      ensures this.scenario == scenario && this.run == run && start == MeasurementStart(scenario, run)
      ensures planned == map[] && recorded == map[] && requests == map[] && faultEvents == map[]
      ensures exclusions == [] && integrity == [] && mutationSafety == []
    {
      this.scenario, this.run, this.start := scenario, run, MeasurementStart(scenario, run);
      planned, recorded, requests, faultEvents := map[], map[], map[], map[];
      exclusions, integrity, mutationSafety := [], [], [];
    }

    method ValidatePlannedRequests()
      requires planned == map[]
      modifies this`planned, this`integrity
      ensures Grown(old(integrity), integrity, PlanValid(run))
      ensures forall c :: KnownClass(c) ==> Lookup(planned, c) == PlanOf(run, c)
    {
      if |run.planned| != 2 {
        integrity := integrity + ["invalid_planned_classes"];
      }
      ghost var base, clean := integrity, true;
      for n := 0 to |run.planned|
        invariant Grown(base, integrity, clean)
        invariant clean <==> forall i: nat :: i < n ==> PlanEntryValid(run.planned, i)
        invariant PlansSeen(run.planned, n, planned)
      {
        SeePlan(run.planned, n, planned);
        clean := clean && PlanEntryValid(run.planned, n);
        var p := run.planned[n];
        if !KnownClass(p.class_) {
          integrity := integrity + ["unknown_planned_class"];
          continue;
        }
        if p.class_ in planned {
          integrity := integrity + ["duplicate_planned_class"];
          continue;
        }
        if p.count == 0 || p.count > MAX_REQUEST_RECORDS {
          integrity := integrity + ["invalid_planned_count"];
        }
        planned := planned[p.class_ := p.count];
      }
    }

    method ValidateCapacity() returns (valid: bool)
      modifies this`integrity
      ensures valid <==> Gapless(run, start)
      ensures Grown(old(integrity), integrity, Gapless(run, start))
    {
      valid := true;
      if run.capacity == [] {
        integrity := integrity + ["unknown_capacity_interval"];
        return false;
      }
      var expectedStart := start;
      for n := 0 to |run.capacity|
        invariant expectedStart == BoundaryBefore(run.capacity, start, n)
        invariant valid <==> forall i: nat :: i < n ==> IntervalSound(run, start, i)
        invariant Grown(old(integrity), integrity, valid)
      {
        var c := run.capacity[n];
        ghost var before := valid;
        if c.startedAt != expectedStart {
          valid := false;
          integrity := integrity + ["unknown_capacity_interval"];
        }
        if !(c.startedAt < c.endedAt && start <= c.startedAt && c.endedAt <= run.endedAt) {
          valid := false;
          integrity := integrity + ["invalid_capacity_interval"];
        }
        if c.availableDC > 2 {
          valid := false;
          integrity := integrity + ["invalid_capacity_value"];
        }
        assert valid <==> before && IntervalSound(run, start, n);
        expectedStart := c.endedAt;
      }
      if expectedStart != run.endedAt {
        valid := false;
        integrity := integrity + ["unknown_capacity_interval"];
      }
    }

    /** Called only after the window and the capacity timeline were found valid. */
    method ValidateExclusions()
      requires WindowValid(run, start) && Gapless(run, start) && exclusions == []
      modifies this`integrity, this`exclusions
      ensures exclusions == AppliedExclusions(run, start)
      ensures Grown(old(integrity), integrity, ExclusionsProven(run, start))
    {
      var valid := true;
      var precedingEnd := start;
      for n := 0 to |run.exclusions|
        invariant precedingEnd == if n == 0 then start else run.exclusions[n-1].endedAt
        invariant exclusions == []
        invariant valid <==> forall i: nat :: i < n ==> ExclusionProven(run, start, i)
        invariant Grown(old(integrity), integrity, valid)
      {
        var e := run.exclusions[n];
        var bounds := e.startedAt < e.endedAt && start <= e.startedAt && e.endedAt <= run.endedAt &&
            precedingEnd <= e.startedAt;
        ghost var before := valid;
        if !bounds {
          valid := false;
          integrity := integrity + ["invalid_exclusion_interval"];
        }
        if !e.reason.AllDataCentresUnavailable? {
          valid := false;
          integrity := integrity + ["invalid_exclusion_reason"];
        }
        if bounds {
          var covered := ZeroCapacityCovers(run, start, e);
          assert covered <==> Justified(run, e);
          if !covered {
            valid := false;
            integrity := integrity + ["unproven_all_dc_outage"];
          }
        }
        assert valid <==> before && ExclusionProven(run, start, n);
        precedingEnd := e.endedAt;
      }
      if valid {
        exclusions := exclusions + run.exclusions;
      }
    }

    method ValidateFaultEvents(validWindow: bool)
      requires faultEvents == map[] && validWindow == WindowValid(run, start)
      modifies this`integrity, this`faultEvents
      ensures old(integrity) <= integrity
      ensures validWindow ==> Grown(old(integrity), integrity, EventsValid(scenario, run, start))
      ensures forall id :: Expected(scenario, id) ==>
                EventOf(run, id) == if id in faultEvents then Some(faultEvents[id]) else None
    {
      ghost var clean := true;
      hide EventValid;
      for n := 0 to |run.faults|
        invariant old(integrity) <= integrity
        invariant validWindow ==> Grown(old(integrity), integrity, clean)
        invariant clean <==> forall i: nat :: i < n ==> EventValid(scenario, run, start, i)
        invariant EventsSeen(scenario, run.faults, n, faultEvents)
      {
        SeeEvent(scenario, run, start, n, faultEvents);
        clean := clean && EventValid(scenario, run, start, n);
        var e := run.faults[n];
        if !Expected(scenario, e.id) {
          integrity := integrity + ["unexpected_fault_event"];
          continue;
        }
        if e.id in faultEvents {
          integrity := integrity + ["duplicate_fault_event"];
          continue;
        }
        if validWindow {
          if !(start <= e.startedAt && e.startedAt < run.endedAt) {
            integrity := integrity + ["fault_outside_measured_window"];
          }
          if !(e.endedAt.Some? && e.startedAt < e.endedAt.value && e.endedAt.value <= run.endedAt) {
            integrity := integrity + ["unknown_fault_interval"];
          }
        }
        faultEvents := faultEvents[e.id := e];
      }
      RequireExpectedEvents();
    }

    /** The last loop of the event validation: an expected fault without an event is a violation. */
    method RequireExpectedEvents()
      requires EventsSeen(scenario, run.faults, |run.faults|, faultEvents)
      modifies this`integrity
      ensures Grown(old(integrity), integrity, forall i :: 0 <= i < |scenario.faults| ==>
          EventOf(run, scenario.faults[i].id).Some?)
    {
      ghost var clean := true;
      for n := 0 to |scenario.faults|
        invariant Grown(old(integrity), integrity, clean)
        invariant clean <==> forall i :: 0 <= i < n ==> EventOf(run, scenario.faults[i].id).Some?
      {
        assert Expected(scenario, scenario.faults[n].id);
        clean := clean && EventOf(run, scenario.faults[n].id).Some?;
        if scenario.faults[n].id !in faultEvents {
          integrity := integrity + ["missing_fault_event"];
        }
      }
    }

    /** Everything in the ledger except its requests is in order. */
    ghost predicate FrameIntact() {
      && HeaderValid(scenario, run)
      && PlanValid(run)
      && Gapless(run, start)
      && ExclusionsProven(run, start)
      && EventsValid(scenario, run, start)
    }

    /** What the checks before the requests leave behind. */
    ghost predicate Framed()
      reads this
    {
      && start == MeasurementStart(scenario, run)
      && exclusions == AppliedExclusions(run, start)
      && (forall c :: KnownClass(c) ==> Lookup(planned, c) == PlanOf(run, c))
      && (forall id :: Expected(scenario, id) ==>
           EventOf(run, id) == if id in faultEvents then Some(faultEvents[id]) else None)
    }

    method ValidateRun()
      requires start == MeasurementStart(scenario, run)
      requires planned == map[] && faultEvents == map[] && exclusions == [] && integrity == []
      modifies this`planned, this`faultEvents, this`exclusions, this`integrity
      ensures Framed()
      ensures integrity == [] <==> FrameIntact()
      ensures run.exclusions != [] && (!Gapless(run, start) || !ExclusionsProven(run, start)) ==>
          exclusions == [] && integrity != []
    {
      hide PlanValid, Gapless, ExclusionsProven, EventsValid, ContractID, Expected;
      if run.schemaVersion != RUN_SCHEMA {
        integrity := integrity + ["unsupported_run_schema"];
      }
      if run.scenarioID != scenario.id {
        integrity := integrity + ["scenario_id_mismatch"];
      }
      if !ContractID(run.runID) {
        integrity := integrity + ["invalid_run_id"];
      }
      var validWindow := run.startedAt != 0 && run.endedAt != 0 && run.startedAt < run.endedAt && start < run.endedAt;
      if !validWindow {
        integrity := integrity + ["invalid_run_window"];
      }
      assert integrity == [] <==> HeaderValid(scenario, run);
      ValidatePlannedRequests();
      var capacityValid := false;
      if validWindow {
        capacityValid := ValidateCapacity();
      }
      if capacityValid {
        ValidateExclusions();
      } else if run.exclusions != [] {
        integrity := integrity + ["untrusted_exclusions"];
      }
      ValidateFaultEvents(validWindow);
    }

    method CheckAttempt(r: Request, n: nat) returns (valid: bool)
      requires n < |r.attempts|
      modifies this`integrity
      ensures valid == AttemptValid(r, n, run.endedAt)
      ensures Grown(old(integrity), integrity, valid)
    {
      var a := r.attempts[n];
      valid := true;
      if a.number != (n + 1) % 0x1_0000_0000 {
        valid := false;
        integrity := integrity + ["invalid_attempt_sequence"];
      }
      if !TimingValid(r, a, run.endedAt) {
        valid := false;
        integrity := integrity + ["invalid_attempt_timing"];
      }
      if a.outcome.OtherAttempt? {
        valid := false;
        integrity := integrity + ["unknown_attempt_outcome"];
      }
    }

    /** Judges the attempts of one request; no attempt list can make a retry or an untimed attempt a success. */
    method EvaluateAttempts(r: Request) returns (finished: Instant, successful: bool, unknown: bool, retried: bool)
      modifies this`integrity
      ensures Grown(old(integrity), integrity, AttemptsValid(r, run.endedAt))
      ensures finished == if r.missing then 0 else LastFinish(r.attempts)
      ensures successful == Succeeded(r, run.endedAt)
      ensures unknown == ResultUnknown(r)
      ensures retried == (!r.missing && |r.attempts| > 1)
    {
      hide AttemptValid, LastFinish;
      finished, successful, unknown, retried := 0, false, false, false;
      LastFinishNone(r.attempts);
      if r.missing {
        if r.attempts != [] {
          integrity := integrity + ["missing_request_has_attempts"];
        }
        return;
      }
      if r.attempts == [] {
        unknown := true;
        integrity := integrity + ["request_without_result"];
        return;
      }
      retried := |r.attempts| > 1;
      var allValid, allSuccessful := true, true;
      for n := 0 to |r.attempts|
        invariant Grown(old(integrity), integrity, allValid)
        invariant allValid <==> forall i: nat :: i < n ==> AttemptValid(r, i, run.endedAt)
        invariant allSuccessful <==> forall i :: 0 <= i < n ==> r.attempts[i].outcome.AttemptSuccess?
        invariant unknown <==>
            exists i :: 0 <= i < n && !r.attempts[i].outcome.AttemptSuccess? && !r.attempts[i].outcome.AttemptFailure?
        invariant finished == LastFinish(r.attempts[..n])
      {
        var a := r.attempts[n];
        var valid := CheckAttempt(r, n);
        allValid := allValid && valid;
        if a.outcome.AttemptUnknown? || a.outcome.OtherAttempt? {
          unknown := true;
        }
        if !a.outcome.AttemptSuccess? {
          allSuccessful := false;
        }
        LastFinishNext(r.attempts, n);
        if a.finishedAt > finished {
          finished := a.finishedAt;
        }
      }
      assert r.attempts[..|r.attempts|] == r.attempts;
      successful := allValid && allSuccessful && |r.attempts| == 1;
    }

    method EvaluateMutation(i: nat, requestSuccessful: bool, seenKeys: set<string>) returns (seen: set<string>)
      requires i < |run.requests| && KnownClass(run.requests[i].class_)
      requires requestSuccessful == Succeeded(run.requests[i], run.endedAt)
      requires KeysSeen(run, i, seenKeys)
      modifies this`mutationSafety
      ensures Grown(old(mutationSafety), mutationSafety, MutationSafe(run, i))
      ensures KeysSeen(run, i + 1, seen)
    {
      hide EarlierKey, KeysSeen, OpaqueID, Succeeded;
      SeeKey(run, i, seenKeys);
      KeysSeenExactly(run, i, seenKeys);
      var r := run.requests[i];
      seen := seenKeys;
      if !r.class_.Mutating? {
        if r.mutation.Some? {
          mutationSafety := mutationSafety + ["mutation_ledger_on_read"];
        }
        return;
      }
      if r.mutation.None? {
        mutationSafety := mutationSafety + ["missing_mutation_ledger"];
        return;
      }
      var m := r.mutation.value;
      if !OpaqueID(m.idempotencyKey) {
        mutationSafety := mutationSafety + ["invalid_idempotency_key"];
      }
      if m.idempotencyKey in seenKeys {
        mutationSafety := mutationSafety + ["duplicate_idempotency_key"];
      }
      seen := seenKeys + {m.idempotencyKey};
      if |r.attempts| > 1 {
        mutationSafety := mutationSafety + ["mutating_retry"];
      }
      if !m.ledgerKnown {
        mutationSafety := mutationSafety + ["unknown_mutation_ledger"];
      }
      if m.appliedCount > 1 {
        mutationSafety := mutationSafety + ["duplicate_mutation"];
      }
      if requestSuccessful && m.appliedCount != 1 {
        mutationSafety := mutationSafety + ["acknowledged_mutation_not_applied_once"];
      }
    }

    /** The samples and the counts of the first n requests. */
    ghost predicate Collected(n: nat)
      requires n <= |run.requests|
      reads this
    {
      CollectedClass(n, ReadIdempotent) && CollectedClass(n, Mutating)
    }

    ghost predicate CollectedClass(n: nat, c: RequestClass)
      requires n <= |run.requests|
      reads this
    {
      && SamplesIn(requests, c) == SamplesUpTo(run, start, c, n)
      && Lookup(recorded, c) == |SamplesUpTo(run, start, c, n)|
    }

    /** The checks on a request's identity and schedule. */
    method CheckRequest(i: nat, seenIDs: set<string>) returns (ids: set<string>)
      requires i < |run.requests| && KnownClass(run.requests[i].class_) && IDsSeen(run, i, seenIDs)
      modifies this`integrity
      ensures IDsSeen(run, i + 1, ids) && old(integrity) <= integrity
      ensures (forall j :: 0 <= j < i ==> KnownClass(run.requests[j].class_)) ==>
                Grown(old(integrity), integrity,
                      && OpaqueID(run.requests[i].id)
                      && (forall j :: 0 <= j < i ==> run.requests[j].id != run.requests[i].id)
                      && ScheduleValid(run, run.requests[i].scheduledAt))
    {
      var r := run.requests[i];
      if !OpaqueID(r.id) {
        integrity := integrity + ["invalid_request_id"];
      }
      if r.id in seenIDs {
        integrity := integrity + ["duplicate_request_id"];
      }
      ids := seenIDs + {r.id};
      if !ScheduleValid(run, r.scheduledAt) {
        integrity := integrity + ["request_outside_run"];
      }
    }

    /** One request of a known class: its violations and its sample. */
    method EvaluateRequest(i: nat, seenIDs: set<string>, seenKeys: set<string>)
      returns (ids: set<string>, keys: set<string>, sample: Sample)
      requires i < |run.requests| && KnownClass(run.requests[i].class_)
      requires exclusions == AppliedExclusions(run, start)
      requires IDsSeen(run, i, seenIDs) && KeysSeen(run, i, seenKeys)
      modifies this`integrity, this`mutationSafety
      ensures IDsSeen(run, i + 1, ids) && KeysSeen(run, i + 1, keys)
      ensures old(integrity) <= integrity
      ensures (forall j :: 0 <= j < i ==> KnownClass(run.requests[j].class_)) ==>
                Grown(old(integrity), integrity, RequestValid(run, i))
      ensures Grown(old(mutationSafety), mutationSafety, MutationSafe(run, i))
      ensures sample == SampleOf(run, start, i)
    {
      var r := run.requests[i];
      ids := CheckRequest(i, seenIDs);
      var eligible := ScheduleValid(run, r.scheduledAt) && start <= r.scheduledAt && r.scheduledAt < run.endedAt
                      && !Excluded(exclusions, r.scheduledAt);
      var finished, successful, unknown, retried := EvaluateAttempts(r);
      keys := EvaluateMutation(i, successful, seenKeys);
      sample := Sample(i, r.class_, r.scheduledAt, finished, eligible, successful, r.missing, unknown, retried);
    }

    method Collect(i: nat, sample: Sample)
      requires i < |run.requests| && KnownClass(run.requests[i].class_)
      requires Collected(i) && sample == SampleOf(run, start, i)
      modifies this`recorded, this`requests
      ensures Collected(i + 1)
    {
      var c := run.requests[i].class_;
      recorded := recorded[c := Lookup(recorded, c) + 1];
      requests := requests[c := SamplesIn(requests, c) + [sample]];
    }

    /** One iteration of the ledger loop. */
    method EvaluateNext(n: nat, seenIDs: set<string>, seenKeys: set<string>) returns (ids: set<string>,
                        keys: set<string>)
      requires n < |run.requests| && exclusions == AppliedExclusions(run, start)
      requires Collected(n) && IDsSeen(run, n, seenIDs) && KeysSeen(run, n, seenKeys)
      modifies this`integrity, this`mutationSafety, this`recorded, this`requests
      ensures Collected(n + 1) && IDsSeen(run, n + 1, ids) && KeysSeen(run, n + 1, keys)
      ensures old(integrity) <= integrity
      ensures ValidUpTo(run, n) ==> Grown(old(integrity), integrity, ValidUpTo(run, n + 1))
      ensures SafeUpTo(run, n) ==> Grown(old(mutationSafety), mutationSafety, SafeUpTo(run, n + 1))
      ensures old(mutationSafety) <= mutationSafety
    {
      if !KnownClass(run.requests[n].class_) {
        SeeKey(run, n, seenKeys);
        integrity := integrity + ["unknown_request_class"];
        return seenIDs, seenKeys;
      }
      if ValidUpTo(run, n) { AllKnown(run, n); }
      var sample;
      ids, keys, sample := EvaluateRequest(n, seenIDs, seenKeys);
      Collect(n, sample);
    }

    /** All requests, without the comparison against the plan. */
    method EvaluateLedger()
      requires exclusions == AppliedExclusions(run, start)
      requires requests == map[] && recorded == map[] && mutationSafety == []
      modifies this`integrity, this`mutationSafety, this`recorded, this`requests
      ensures Collected(|run.requests|)
      ensures Grown(old(integrity), integrity, ValidUpTo(run, |run.requests|))
      ensures mutationSafety == [] <==> SafeUpTo(run, |run.requests|)
    {
      var ids, keys := {}, {};
      for n := 0 to |run.requests|
        invariant Collected(n)
        invariant IDsSeen(run, n, ids) && KeysSeen(run, n, keys)
        invariant Grown(old(integrity), integrity, ValidUpTo(run, n))
        invariant mutationSafety == [] <==> SafeUpTo(run, n)
      {
        ids, keys := EvaluateNext(n, ids, keys);
      }
    }

    method EvaluateRequests()
      requires Framed() && requests == map[] && recorded == map[] && mutationSafety == []
      modifies this`integrity, this`mutationSafety, this`recorded, this`requests
      ensures Collected(|run.requests|)
      ensures Grown(old(integrity), integrity, RequestsValid(run, start))
      ensures mutationSafety == [] <==> MutationsSafe(run)
    {
      EvaluateLedger();
      ValidUpToAll(run, |run.requests|);
      SafeUpToAll(run, |run.requests|);
      if Lookup(recorded, ReadIdempotent) != Lookup(planned, ReadIdempotent) {
        integrity := integrity + ["planned_recorded_mismatch"];
      }
      if Lookup(recorded, Mutating) != Lookup(planned, Mutating) {
        integrity := integrity + ["planned_recorded_mismatch"];
      }
    }

    /** The whole ledger: what is wrong with it, and the samples it yields. */
    method Judge()
      requires start == MeasurementStart(scenario, run)
      requires planned == map[] && faultEvents == map[] && exclusions == [] && integrity == []
      requires requests == map[] && recorded == map[] && mutationSafety == []
      modifies this
      ensures Evaluated()
      ensures integrity == [] <==> Intact(scenario, run)
      ensures mutationSafety == [] <==> MutationsSafe(run)
    {
      ValidateRun();
      ghost var frame := FrameIntact();
      EvaluateRequests();
      assert integrity == [] <==> frame && RequestsValid(run, start);
    }

    method CheckClass(c: RequestClass) returns (summary: ClassSummary, downtime: seq<DowntimeWindow>, check: Check)
      requires Evaluated() && ValidScenario(scenario) && KnownClass(c) && |run.requests| < MAX_SLICE
      ensures check.passed <==> ClassSatisfied(scenario, run, c)
      ensures ClassReported(scenario, run, c, summary, downtime)
    {
      var violations;
      summary, downtime, violations := ClassResult(run, start, SamplesIn(requests, c), Lookup(planned, c),
                                                         Lookup(recorded, c), TargetOf(scenario, c));
      check := NewCheck("class", violations);
    }

    ghost predicate Evaluated()
      reads this
    {
      Framed() && Collected(|run.requests|)
    }

    /** The recovery of one class from one fault, measured from the configured anchor. */
    method RecoveryResult(f: FaultExpectation, c: RequestClass) returns (summary: RecoverySummary,
                          violations: seq<Violation>)
      requires Evaluated() && f.recovery.Some? && KnownClass(c) && Expected(scenario, f.id)
      ensures violations == [] <==> RecoveryMeets(Samples(run, start, c), EventOf(run, f.id), f.recovery.value)
      ensures summary.passed <==> violations == []
      ensures summary.recoveredAt.Some? ==>
                summary.anchorAt <= summary.recoveredAt.value &&
                    summary.duration == summary.recoveredAt.value - summary.anchorAt
      ensures Summarizes(scenario, run, f, c, summary)
    {
      hide HasStreak, IsRecovery, RecoversWithin, Expected;
      var recovery := f.recovery.value;
      summary := RecoverySummary(f.id, f.target, c, 0, None, 0, recovery.maxDuration, false);
      violations := [];
      if f.id !in faultEvents {
        return summary, ["recovery_event_missing"];
      }
      var anchorTime := AnchorTime(faultEvents[f.id], recovery.anchor);
      if anchorTime.None? {
        return summary, ["recovery_anchor_unknown"];
      }
      var anchor := anchorTime.value;
      var recovered := FindStableRecovery(InScheduleOrder(SamplesIn(requests, c)), anchor, recovery.successStreak);
      RecoveryDecides(run, start, c, anchor, recovery, recovered);
      if recovered.Some? {
        var elapsed := recovered.value - anchor;
        var duration := if elapsed < 0 then 0 else elapsed;
        summary := summary.(anchorAt := anchor, recoveredAt := recovered, duration := duration,
                            passed := duration <= recovery.maxDuration);
        if !summary.passed {
          violations := ["recovery_time_exceeded"];
        }
      } else {
        var elapsed := run.endedAt - anchor;
        summary := summary.(anchorAt := anchor, duration := if elapsed < 0 then 0 else elapsed);
        violations := ["recovery_not_observed"];
      }
    }

    method FaultResults(f: FaultExpectation) returns (summaries: seq<RecoverySummary>, checks: seq<Check>)
      requires Evaluated() && Expected(scenario, f.id)
      requires f.recovery.Some? ==> forall c :: c in f.recovery.value.classes ==> KnownClass(c)
      ensures AllPassed(checks) <==> FaultRecovered(scenario, run, f)
      ensures SameVerdicts(summaries, checks)
      ensures ListsRecoveries(scenario, run, PairsOf(f), summaries)
    {
      hide ClassRecovered, Evaluated, Summarizes;
      summaries, checks := [], [];
      if f.recovery.None? {
        return;
      }
      for n := 0 to |f.recovery.value.classes|
        invariant AllPassed(checks) <==> forall i: nat :: i < n ==> ClassRecovered(scenario, run, f, i)
        invariant SameVerdicts(summaries, checks)
        invariant |summaries| == n
        invariant forall i :: 0 <= i < n ==> Summarizes(scenario, run, f, f.recovery.value.classes[i], summaries[i])
      {
        var summary, check := CheckRecovery(f, n);
        AllPassedAppend(checks, check);
        summaries, checks := summaries + [summary], checks + [check];
      }
    }

    method CheckRecovery(f: FaultExpectation, i: nat) returns (summary: RecoverySummary, check: Check)
      requires Evaluated() && f.recovery.Some? && i < |f.recovery.value.classes| && Expected(scenario, f.id)
      requires KnownClass(f.recovery.value.classes[i])
      ensures check.passed <==> ClassRecovered(scenario, run, f, i)
      ensures summary.passed == check.passed
      ensures Summarizes(scenario, run, f, f.recovery.value.classes[i], summary)
    {
      hide Summarizes, RecoveryMeets;
      var violations;
      summary, violations := RecoveryResult(f, f.recovery.value.classes[i]);
      check := NewCheck("recovery", violations);
    }

    method RecoveryResults() returns (summaries: seq<RecoverySummary>, checks: seq<Check>)
      requires Evaluated() && ValidScenario(scenario)
      ensures AllPassed(checks) <==>
          forall i :: 0 <= i < |scenario.faults| ==> FaultRecovered(scenario, run, scenario.faults[i])
      ensures SameVerdicts(summaries, checks)
      ensures ListsRecoveries(scenario, run, RecoveryPairs(scenario.faults, |scenario.faults|), summaries)
    {
      hide FaultRecovered, Evaluated, ListsRecoveries, SameVerdicts, AllPassed, PairsOf;
      NothingListed(scenario, run);
      summaries, checks := [], [];
      for n := 0 to |scenario.faults|
        invariant AllPassed(checks) <==> forall i :: 0 <= i < n ==> FaultRecovered(scenario, run, scenario.faults[i])
        invariant SameVerdicts(summaries, checks)
        invariant ListsRecoveries(scenario, run, RecoveryPairs(scenario.faults, n), summaries)
      {
        assert Expected(scenario, scenario.faults[n].id);
        var s, c := FaultResults(scenario.faults[n]);
        ListsConcat(scenario, run, RecoveryPairs(scenario.faults, n), summaries, PairsOf(scenario.faults[n]), s);
        SameVerdictsConcat(summaries, checks, s, c);
        AllPassedConcat(checks, c);
        summaries, checks := summaries + s, checks + c;
      }
    }
  }

  lemma {:induction false} KeysSeenExactly(run: Run, i: nat, seen: set<string>)
    requires i <= |run.requests| && KeysSeen(run, i, seen)
    ensures forall key :: key in seen <==> EarlierKey(run, i, key)
  {
    hide EarlierKey;
  }

  /** The summary counts the class's samples exactly, and the windows are its maximal failed runs. */
  ghost predicate ClassReported(scenario: Scenario, run: Run, c: RequestClass, summary: ClassSummary,
                                downtime: seq<DowntimeWindow>)
    requires ValidScenario(scenario) && KnownClass(c) && |run.requests| < MAX_SLICE
  {
    var samples := Samples(run, MeasurementStart(scenario, run), c);
    && summary.class_ == c && TallyOf(samples).eligible == TallyOf(samples).successful + TallyOf(samples).failed < WORD
    && SummaryFor(summary, TallyOf(samples), TargetOf(scenario, c).maxErrorRatePPM)
    && ListsDowntime(c, Ordered(samples), run.endedAt, downtime)
  }

  /** One class's recovery from one fault, in the order the classes of the fault are listed. */
  function PairsOf(f: FaultExpectation): seq<(FaultExpectation, RequestClass)> {
    if f.recovery.None? then []
    else
      var classes := f.recovery.value.classes;
      seq(|classes|, i requires 0 <= i < |classes| => (f, classes[i]))
  }

  /** Every class of every fault that has a recovery target, in scenario order. */
  function RecoveryPairs(faults: seq<FaultExpectation>, n: nat): seq<(FaultExpectation, RequestClass)>
    requires n <= |faults|
  {
    if n == 0 then [] else RecoveryPairs(faults, n - 1) + PairsOf(faults[n-1])
  }

  /**
   * The entry of one class and fault: the verdict is that of the samples, and the instant is the latest finish of the
   * earliest long enough block of successes from the anchor on, if there is one.
   */
  ghost predicate Summarizes(scenario: Scenario, run: Run, f: FaultExpectation, c: RequestClass,
                             summary: RecoverySummary) {
    && f.recovery.Some?
    && var target, event := f.recovery.value, EventOf(run, f.id);
      var samples := Samples(run, MeasurementStart(scenario, run), c);
      var anchor := if event.None? then None else AnchorTime(event.value, target.anchor);
      && summary.faultID == f.id && summary.target == f.target && summary.class_ == c &&
           summary.maxDuration == target.maxDuration
      && (summary.passed <==> RecoveryMeets(samples, event, target))
      && if anchor.None? then summary.anchorAt == 0 && summary.recoveredAt.None? && summary.duration == 0
         else
           && summary.anchorAt == anchor.value
           && RecoveredAt(samples, anchor.value, target.successStreak, summary.recoveredAt)
           && summary.duration ==
                Elapsed(anchor.value, if summary.recoveredAt.Some? then summary.recoveredAt.value else run.endedAt)
  }

  function Elapsed(from: Instant, to: Instant): Duration { if to < from then 0 else to - from }

  /** at is given exactly when it is the recovery instant of the samples. */
  ghost predicate RecoveredAt(samples: seq<Sample>, anchor: Instant, streak: nat, recovered: Option<Instant>) {
    forall at :: recovered == Some(at) <==>
      exists j :: IsRecovery(Filter(InScheduleOrder(samples), AtOrAfter(anchor)), j, Needed(streak), at)
  }

  ghost predicate ListsRecoveries(scenario: Scenario, run: Run, pairs: seq<(FaultExpectation, RequestClass)>,
                                  list: seq<RecoverySummary>) {
    |list| == |pairs| && forall i :: 0 <= i < |pairs| ==> Summarizes(scenario, run, pairs[i].0, pairs[i].1, list[i])
  }

  lemma {:induction false} ListsConcat(scenario: Scenario, run: Run, pairs: seq<(FaultExpectation, RequestClass)>,
                                       list: seq<RecoverySummary>,
                                       pairs': seq<(FaultExpectation, RequestClass)>, list': seq<RecoverySummary>)
    requires ListsRecoveries(scenario, run, pairs, list) && ListsRecoveries(scenario, run, pairs', list')
    ensures ListsRecoveries(scenario, run, pairs + pairs', list + list')
  {
    hide Summarizes;
  }

  lemma {:induction false} NothingListed(scenario: Scenario, run: Run)
    ensures ListsRecoveries(scenario, run, [], []) && SameVerdicts([], []) && AllPassed([])
  {}

  lemma {:induction false} SameVerdictsConcat(a: seq<RecoverySummary>, b: seq<Check>, a': seq<RecoverySummary>,
                                              b': seq<Check>)
    requires SameVerdicts(a, b) && SameVerdicts(a', b')
    ensures SameVerdicts(a + a', b + b')
  {}

  /** Each recovery summary says what its check says. */
  predicate SameVerdicts(summaries: seq<RecoverySummary>, checks: seq<Check>) {
    |summaries| == |checks| && forall i :: 0 <= i < |checks| ==> summaries[i].passed == checks[i].passed
  }

  function NewCheck(name: string, violations: seq<Violation>): Check { Check(name, violations == [], violations) }

  predicate AllPassed(checks: seq<Check>) {
    forall i :: 0 <= i < |checks| ==> checks[i].passed
  }

  lemma {:induction false} AllPassedAppend(a: seq<Check>, c: Check)
    ensures AllPassed(a + [c]) <==> AllPassed(a) && c.passed
  {
    AllPassedConcat(a, [c]);
    assert [c][0] == c;
  }

  lemma {:induction false} AllPassedConcat(a: seq<Check>, b: seq<Check>)
    ensures AllPassed(a + b) <==> AllPassed(a) && AllPassed(b)
  {
    if AllPassed(a + b) {
      assert forall i :: 0 <= i < |a| ==> a[i] == (a + b)[i];
      assert forall i :: 0 <= i < |b| ==> b[i] == (a + b)[|a| + i];
    }
  }

  /** The result of the streak scan decides whether the class recovers within the limit, and its clamp is dead. */
  lemma {:induction false} RecoveryDecides(run: Run, start: Instant, c: RequestClass, anchor: Instant,
                                           r: RecoveryTarget, recovered: Option<Instant>)
    requires var f := Filter(InScheduleOrder(Samples(run, start, c)), AtOrAfter(anchor));
      var k := Needed(r.successStreak);
      && (recovered.None? ==> !HasStreak(f, k))
      && (recovered.Some? ==> exists j :: IsRecovery(f, j, k, recovered.value))
    ensures recovered.Some? ==> anchor <= recovered.value
    ensures RecoversWithin(Samples(run, start, c), anchor, r.successStreak, r.maxDuration) <==>
            recovered.Some? && recovered.value - anchor <= r.maxDuration
    ensures RecoveredAt(Samples(run, start, c), anchor, r.successStreak, recovered)
  {
    var s := Samples(run, start, c);
    var f, k := Filter(InScheduleOrder(s), AtOrAfter(anchor)), Needed(r.successStreak);
    if recovered.Some? {
      var j :| IsRecovery(f, j, k, recovered.value);
      SamplesSound(run, start, c);
      SamePermutation(InScheduleOrder(s), s);
      RecoveryNotBeforeAnchor(InScheduleOrder(s), run, start, anchor, k, j);
      forall i, at | IsRecovery(f, i, k, at) ensures at == recovered.value {
        RecoveryUnique(f, i, j, k, at, recovered.value);
      }
    } else {
      forall j, at ensures !IsRecovery(f, j, k, at) {
        assert j >= 0 ==> !Streak(f, j, k);
      }
    }
  }

  /**
   * Both classes are reported, the downtime of the first before that of the second;
       there is one recovery entry for each
   * class of each fault with a recovery target, in order; and a pass means every recovery passed.
   */
  ghost predicate Reported(scenario: Scenario, run: Run, report: Report)
    requires ValidScenario(scenario) && |run.requests| < MAX_SLICE
  {
    && |report.classes| == 2
    && (exists n :: 0 <= n <= |report.downtime|
          && ClassReported(scenario, run, ReadIdempotent, report.classes[0], report.downtime[..n])
          && ClassReported(scenario, run, Mutating, report.classes[1], report.downtime[n..]))
    && ListsRecoveries(scenario, run, RecoveryPairs(scenario.faults, |scenario.faults|), report.recovery)
    && (report.passed ==> forall i :: 0 <= i < |report.recovery| ==> report.recovery[i].passed)
  }

  /** Evaluation of a valid scenario: the report passes exactly when the run meets the contract. */
  method EvaluateValid(scenario: Scenario, run: Run) returns (report: Report)
    requires |run.requests| < MAX_SLICE && ValidScenario(scenario)
    ensures report.passed <==> MeetsContract(scenario, run)
    ensures Reported(scenario, run, report)
  {
    hide ValidScenario, Intact, MutationsSafe, ClassSatisfied, FaultRecovered, ClassReported, ListsRecoveries,
        RecoveryPairs;
    var state := new EvaluationState(scenario, run);
    state.Judge();
    var ledgerChecks := [NewCheck("integrity", state.integrity), NewCheck("mutation_safety", state.mutationSafety)];
    AllPassedTwo(ledgerChecks[0], ledgerChecks[1]);
    var read, readDown, readCheck := state.CheckClass(ReadIdempotent);
    var write, writeDown, writeCheck := state.CheckClass(Mutating);
    var classChecks := [readCheck, writeCheck];
    AllPassedTwo(readCheck, writeCheck);
    var recovery, recoveryChecks := state.RecoveryResults();
    AllPassedConcat(ledgerChecks, classChecks);
    AllPassedConcat(ledgerChecks + classChecks, recoveryChecks);
    var checks := ledgerChecks + classChecks + recoveryChecks;
    report := Report(AllPassed(checks), [read, write], readDown + writeDown, recovery, checks);
    assert report.downtime[..|readDown|] == readDown && report.downtime[|readDown|..] == writeDown;
  }

  lemma {:induction false} AllPassedTwo(a: Check, b: Check)
    ensures AllPassed([a, b]) <==> a.passed && b.passed
  {
    assert [a, b][0] == a && [a, b][1] == b;
  }

  /** A valid scenario gets a report, and the report passes exactly when the run meets the contract. */
  method Evaluate(scenario: Scenario, run: Run) returns (r: Result<Report>)
    requires |run.requests| < MAX_SLICE
    ensures r.Ok? <==> ValidScenario(scenario)
    ensures r.Ok? ==> (r.value.passed <==> MeetsContract(scenario, run))
    ensures r.Ok? ==> Reported(scenario, run, r.value)
  {
    if !ValidScenario(scenario) {
      return Err("invalid scenario");
    }
    hide *;
    var report := EvaluateValid(scenario, run);
    return Ok(report);
  }
}
