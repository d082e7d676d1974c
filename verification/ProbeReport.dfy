/** From probe evidence to the SLO verdict: what a passing report proves end to end. */
module ProbeReport {
  import opened Wrappers
  import opened ProbeTypes
  import opened ProbeReconcile
  import opened ProbeVerdict
  import opened ProbeClean
  import opened ProbeExact
  import opened Sorting
  import S = SloTypes
  import SS = SloSamples
  import SC = SloContract
  import SE = SloEvaluate

  datatype ReportInput = ReportInput(runID: string, client: Snapshot, internal: InternalSnapshot,
                                     capacity: seq<S.CapacityInterval>, exclusions: seq<S.ExclusionInterval>,
                                         cleanupComplete: bool)
  datatype ReportResult = ReportResult(run: S.Run, report: S.Report, reconciliation: Reconciliation)

  function SpecClass(c: TrafficClass): S.RequestClass {
    match c
    case ReadTraffic => S.ReadIdempotent
    case MutatingTraffic => S.Mutating
    case OtherTraffic(_) => S.OtherClass("")
  }

  function SpecOutcome(o: Outcome): S.AttemptOutcome {
    match o
    case Success => S.AttemptSuccess
    case Unknown => S.AttemptUnknown
    case _ => S.AttemptFailure
  }

  // ---- Internal records by identifier, valid or not

  /** The internal records under one identifier. */
  function Matching(records: seq<InternalRecord>, n: nat, id: string): seq<InternalRecord>
    requires n <= |records|
  {
    if n == 0 then []
    else Matching(records, n - 1, id) + (if records[n-1].requestID == id then [records[n-1]] else [])
  }

  predicate Applied(r: InternalRecord) { r.class_.MutatingTraffic? && r.outcome.Success? }

  method AppliedMutationCount(records: seq<InternalRecord>) returns (count: nat)
    ensures count == Count(records, Applied)
  {
    count := 0;
    for n := 0 to |records|
      invariant count == Count(records[..n], Applied)
    {
      assert records[..n+1][..n] == records[..n];
      if records[n].class_.MutatingTraffic? && records[n].outcome.Success? {
        count := count + 1;
      }
    }
    assert records[..|records|] == records;
  }

  method IndexMatching(records: seq<InternalRecord>) returns (byID: map<string, seq<InternalRecord>>)
    ensures forall id :: Matching(records, |records|, id) == if id in byID then byID[id] else []
  {
    hide Matching;
    byID := map[];
    MatchingStart(records);
    for n := 0 to |records|
      invariant forall id :: Matching(records, n, id) == if id in byID then byID[id] else []
    {
      var r := records[n];
      MatchingNext(records, n);
      byID := byID[r.requestID := (if r.requestID in byID then byID[r.requestID] else []) + [r]];
    }
  }

  lemma {:induction false} MatchingStart(records: seq<InternalRecord>)
    ensures forall id :: Matching(records, 0, id) == []
  {}

  lemma {:induction false} MatchingNext(records: seq<InternalRecord>, n: nat)
    requires n < |records|
    ensures forall id :: id != records[n].requestID ==> Matching(records, n + 1, id) == Matching(records, n, id)
    ensures Matching(records, n + 1, records[n].requestID) == Matching(records, n, records[n].requestID) + [records[n]]
  {}

  // ---- The observation of one request

  ghost function MutationOf(input: ReportInput, invalid: seq<string>, c: ClientRecord): Option<S.Mutation> {
    if !c.class_.MutatingTraffic? then None
    else
      var matching := Matching(input.internal.records, |input.internal.records|, c.requestID);
      Some(S.Mutation(c.idempotencyKey, input.internal.isComplete && c.requestID !in invalid &&
          matching != [], Count(matching, Applied)))
  }

  function AttemptOf(startedAt: int, c: ClientRecord): S.Attempt {
    S.Attempt(1, if c.dispatched then startedAt + c.startedOffset else startedAt + c.scheduledOffset,
              startedAt + c.finishedOffset, SpecOutcome(c.outcome))
  }

  ghost function ObservationOf(input: ReportInput, invalid: seq<string>, c: ClientRecord): S.Request {
    S.Request(c.requestID, SpecClass(c.class_), input.client.startedAt + c.scheduledOffset, c.outcome.Unknown?,
              if c.outcome.Unknown? then [] else [AttemptOf(input.client.startedAt, c)], MutationOf(input, invalid, c))
  }

  ghost predicate Observed(input: ReportInput, invalid: seq<string>, requests: seq<S.Request>) {
    && |requests| == |input.client.records|
    && forall i :: 0 <= i < |requests| ==> requests[i] == ObservationOf(input, invalid, input.client.records[i])
  }

  predicate IsRead(c: ClientRecord) { c.class_.ReadTraffic? }
  predicate IsMutating(c: ClientRecord) { c.class_.MutatingTraffic? }

  method Observe(input: ReportInput, invalid: seq<string>, byID: map<string, seq<InternalRecord>>,
                 c: ClientRecord) returns (r: S.Request)
    requires forall id ::
        Matching(input.internal.records, |input.internal.records|, id) == if id in byID then byID[id] else []
    ensures r == ObservationOf(input, invalid, c)
  {
    var mutation := None;
    if c.class_.MutatingTraffic? {
      var matching := if c.requestID in byID then byID[c.requestID] else [];
      var count := AppliedMutationCount(matching);
      mutation :=
          Some(S.Mutation(c.idempotencyKey, input.internal.isComplete && c.requestID !in invalid &&
          |matching| > 0, count));
    }
    var attempts := if c.outcome.Unknown? then [] else [AttemptOf(input.client.startedAt, c)];
    r :=
        S.Request(c.requestID, SpecClass(c.class_), input.client.startedAt +
        c.scheduledOffset, c.outcome.Unknown?, attempts, mutation);
  }

  // ---- Fault markers

  predicate IsMarker(e: Event, id: string) { e.kind.MarkerWritten? && e.marker.faultID == id }

  function MarkersOf(events: seq<Event>, id: string): seq<Event> {
    if events == [] then []
    else MarkersOf(events[..|events|-1], id) + (if IsMarker(events[|events|-1], id) then [events[|events|-1]] else [])
  }

  function MarkerEvents(events: seq<Event>, phase: MarkerPhase, requireSuccess: bool): seq<Event> {
    if events == [] then []
    else
      var e := events[|events|-1];
      MarkerEvents(events[..|events|-1], phase, requireSuccess) +
      (if e.marker.phase == phase && (requireSuccess ==> e.marker.result.ResultSuccess?) then [e] else [])
  }

  function Terminal(markers: seq<Event>): seq<Event> {
    var recovered := MarkerEvents(markers, PhaseRecovered, true);
    if recovered == [] then MarkerEvents(markers, PhaseAfter, true) else recovered
  }

  predicate AnyFailed(markers: seq<Event>) {
    exists i :: 0 <= i < |markers| && markers[i].marker.result.ResultFailure?
  }

  /** One start, one successful end after it, and no failed marker. */
  predicate MarkersSound(markers: seq<Event>) {
    var starts, terminal := MarkerEvents(markers, PhaseStarted, false), Terminal(markers);
    |starts| == 1 && |terminal| == 1 && starts[0].offset < terminal[0].offset && !AnyFailed(markers)
  }

  /** The fault event the markers yield, if they have a single start. */
  function EventOfMarkers(startedAt: int, id: string, markers: seq<Event>): Option<S.FaultEvent> {
    var starts, terminal := MarkerEvents(markers, PhaseStarted, false), Terminal(markers);
    if |starts| != 1 then None
    else Some(S.FaultEvent(id, startedAt + starts[0].offset,
                           if |terminal| == 1 && starts[0].offset < terminal[0].offset
                               then Some(startedAt + terminal[0].offset) else None))
  }

  function FaultEventsUpTo(s: S.Scenario, client: Snapshot, n: nat): seq<S.FaultEvent>
    requires n <= |s.faults|
  {
    if n == 0 then []
    else
      var e := EventOfMarkers(client.startedAt, s.faults[n-1].id, MarkersOf(client.events, s.faults[n-1].id));
      FaultEventsUpTo(s, client, n - 1) + (if e.Some? then [e.value] else [])
  }

  ghost predicate NoStrayMarker(s: S.Scenario, events: seq<Event>) {
    forall i :: 0 <= i < |events| && events[i].kind.MarkerWritten? ==> SC.Expected(s, events[i].marker.faultID)
  }

  ghost predicate FaultsMarked(s: S.Scenario, client: Snapshot, n: nat)
    requires n <= |s.faults|
  {
    forall i :: 0 <= i < n ==> MarkersSound(MarkersOf(client.events, s.faults[i].id))
  }

  /** The markers of one fault: its event, and violations unless they are sound. */
  method FaultEventFor(startedAt: int, id: string, markers: seq<Event>) returns (event: Option<S.FaultEvent>,
                       violations: seq<S.Violation>)
    ensures event == EventOfMarkers(startedAt, id, markers)
    ensures violations == [] <==> MarkersSound(markers)
  {
    var starts := MarkerEvents(markers, PhaseStarted, false);
    if |starts| != 1 {
      return None, ["fault_start_marker_invalid"];
    }
    violations := [];
    var begin := startedAt + starts[0].offset;
    var end := None;
    var terminal := Terminal(markers);
    if |terminal| != 1 {
      violations := violations + ["fault_end_marker_invalid"];
    } else if startedAt + terminal[0].offset <= begin {
      violations := violations + ["fault_marker_order_invalid"];
    } else {
      end := Some(startedAt + terminal[0].offset);
    }
    if AnyFailed(markers) {
      violations := violations + ["fault_marker_failed"];
    }
    event := Some(S.FaultEvent(id, begin, end));
  }

  method SpecFaultEvents(s: S.Scenario, client: Snapshot) returns (faults: seq<S.FaultEvent>,
                         violations: seq<S.Violation>)
    ensures faults == FaultEventsUpTo(s, client, |s.faults|)
    ensures violations == [] <==> FaultsMarked(s, client, |s.faults|) && NoStrayMarker(s, client.events)
  {
    faults, violations := [], [];
    hide MarkersSound, EventOfMarkers, MarkersOf;
    for n := 0 to |s.faults|
      invariant faults == FaultEventsUpTo(s, client, n)
      invariant violations == [] <==> FaultsMarked(s, client, n)
    {
      var e, v := FaultEventFor(client.startedAt, s.faults[n].id, MarkersOf(client.events, s.faults[n].id));
      if e.Some? {
        faults := faults + [e.value];
      }
      violations := violations + v;
    }
    ghost var marked := violations == [];
    for n := 0 to |client.events|
      invariant violations == [] <==>
          marked && forall i :: 0 <= i < n && client.events[i].kind.MarkerWritten? ==>
          SC.Expected(s, client.events[i].marker.faultID)
    {
      if client.events[n].kind.MarkerWritten? && !SC.Expected(s, client.events[n].marker.faultID) {
        violations := violations + ["unexpected_fault_marker"];
      }
    }
  }

  // ---- The run

  ghost predicate IsSpecRun(s: S.Scenario, input: ReportInput, invalid: seq<string>, run: S.Run) {
    && run.schemaVersion == S.RUN_SCHEMA && run.scenarioID == s.id && run.runID == input.runID
    && run.startedAt == input.client.startedAt && run.endedAt == input.client.startedAt + input.client.finishedOffset
    && run.planned == [S.PlannedRequests(S.ReadIdempotent, Count(input.client.records, IsRead)),
                       S.PlannedRequests(S.Mutating, Count(input.client.records, IsMutating))]
    && run.capacity == input.capacity && run.exclusions == input.exclusions
    && run.faults == FaultEventsUpTo(s, input.client, |s.faults|)
    && Observed(input, invalid, run.requests)
  }

  method BuildSpecRun(s: S.Scenario, input: ReportInput, invalid: seq<string>) returns (run: S.Run,
                      markerViolations: seq<S.Violation>)
    ensures IsSpecRun(s, input, invalid, run)
    ensures markerViolations == [] <==>
        FaultsMarked(s, input.client, |s.faults|) && NoStrayMarker(s, input.client.events)
  {
    var byID := IndexMatching(input.internal.records);
    var requests, readCount, writeCount := [], 0, 0;
    var records := input.client.records;
    hide ObservationOf;
    for n := 0 to |records|
      invariant |requests| == n && forall i :: 0 <= i < n ==> requests[i] == ObservationOf(input, invalid, records[i])
      invariant readCount == Count(records[..n], IsRead) && writeCount == Count(records[..n], IsMutating)
    {
      assert records[..n+1][..n] == records[..n];
      if records[n].class_.ReadTraffic? {
        readCount := readCount + 1;
      }
      if records[n].class_.MutatingTraffic? {
        writeCount := writeCount + 1;
      }
      var r := Observe(input, invalid, byID, records[n]);
      requests := requests + [r];
    }
    assert records[..|records|] == records;
    var faults;
    faults, markerViolations := SpecFaultEvents(s, input.client);
    run :=
        S.Run(S.RUN_SCHEMA, s.id, input.runID, input.client.startedAt, input.client.startedAt +
        input.client.finishedOffset,
                 [S.PlannedRequests(S.ReadIdempotent, readCount), S.PlannedRequests(S.Mutating, writeCount)],
                 input.capacity, input.exclusions, faults, requests);
  }

  /** The violations the report derives from the reconciliation. */
  method ReconciliationViolations(r: Reconciliation) returns (violations: seq<S.Violation>)
    ensures violations == [] <==> NothingReported(r)
  {
    violations := if r.isComplete then [] else ["reconciliation_incomplete"];
    violations := violations + (if r.missing == [] then [] else ["missing_internal_results"]);
    violations := violations + (if r.lostResponses == [] then [] else ["lost_client_responses"]);
    violations := violations + (if r.unexpected == [] then [] else ["unexpected_internal_results"]);
    violations := violations + (if r.duplicate == [] then [] else ["duplicate_results"]);
    violations := violations + (if r.late == [] then [] else ["late_results"]);
    var reordered := 0;
    for n := 0 to |r.reordered|
      invariant reordered == Count(r.reordered[..n], InternalStage)
    {
      assert r.reordered[..n+1][..n] == r.reordered[..n];
      if r.reordered[n].stage.InternalLedger? {
        reordered := reordered + 1;
      }
    }
    assert r.reordered[..|r.reordered|] == r.reordered;
    violations := violations + (if reordered == 0 then [] else ["reordered_results"]);
    violations := violations + (if r.invalid == [] then [] else ["invalid_ledger_records"]);
  }

  // ---- What a passing report proves

  lemma {:induction false} MatchingNone(records: seq<InternalRecord>, n: nat, id: string)
    requires n <= |records| && forall m :: 0 <= m < n ==> records[m].requestID != id
    ensures Matching(records, n, id) == []
  {
    if n > 0 { MatchingNone(records, n - 1, id); }
  }

  lemma {:induction false} MatchingOne(records: seq<InternalRecord>, n: nat, id: string, k: nat)
    requires k < n <= |records| && records[k].requestID == id && forall m ::
        0 <= m < n && records[m].requestID == id ==> m == k
    ensures Matching(records, n, id) == [records[k]]
  {
    if k == n - 1 {
      MatchingNone(records, n - 1, id);
    } else {
      MatchingOne(records, n - 1, id, k);
    }
  }

  /** The mutation was sent, acknowledged and applied by exactly one internal record. */
  ghost predicate AppliedOnce(sha: string -> string, c: ClientRecord, records: seq<InternalRecord>) {
    && c.dispatched
    && exists k ::
         0 <= k < |records| && Answers(sha, c, records[k]) && OnlyOne(c.requestID, records, k) && Applied(records[k])
  }

  ghost predicate ExactlyOnce(sha: string -> string, input: ReportInput) {
    forall i :: 0 <= i < |input.client.records| && input.client.records[i].class_.MutatingTraffic? ==>
      AppliedOnce(sha, input.client.records[i], input.internal.records)
  }

  /** A settled mutating request whose observation is safe and well-formed was applied exactly once. */
  lemma {:induction false} SafeObservationAppliedOnce(sha: string -> string, input: ReportInput, invalid: seq<string>,
                                                      run: S.Run, i: nat)
    requires i < |input.client.records| == |run.requests|
    requires Accounted(sha, input.client.records[i], input.internal.records)
    requires input.client.records[i].class_.MutatingTraffic?
    requires run.requests[i] == ObservationOf(input, invalid, input.client.records[i])
    requires SS.AttemptsValid(run.requests[i], run.endedAt) && SS.MutationSafe(run, i)
    ensures AppliedOnce(sha, input.client.records[i], input.internal.records)
  {
    var c, records := input.client.records[i], input.internal.records;
    var matching := Matching(records, |records|, c.requestID);
    hide S.OpaqueID, SS.EarlierKey;
    assert matching != [];
    if !c.dispatched {
      MatchingNone(records, |records|, c.requestID);
      assert false;
    }
    var k :| 0 <= k < |records| && Answers(sha, c, records[k]) && OnlyOne(c.requestID, records, k);
    MatchingOne(records, |records|, c.requestID, k);
    SucceededObservation(input, invalid, run, i);
    assert Count([records[k]], Applied) == 1;
  }

  lemma {:induction false} SucceededObservation(input: ReportInput, invalid: seq<string>, run: S.Run, i: nat)
    requires i < |input.client.records| == |run.requests| && input.client.records[i].outcome.Success?
    requires run.requests[i] == ObservationOf(input, invalid, input.client.records[i])
    requires SS.AttemptsValid(run.requests[i], run.endedAt)
    ensures SS.Succeeded(run.requests[i], run.endedAt)
  {
    assert SS.AttemptValid(run.requests[i], 0, run.endedAt);
  }

  /** The whole demand of the report on its evidence. */
  ghost predicate Demanded(sha: string -> string, s: S.Scenario, input: ReportInput, run: S.Run)
    requires S.ValidScenario(s)
  {
    && Settled(sha, input.client, input.internal)
    && FaultsMarked(s, input.client, |s.faults|) && NoStrayMarker(s, input.client.events)
    && input.cleanupComplete
    && SC.MeetsContract(s, run)
  }

  /** What the demand implies for every single request of both ledgers. */
  lemma {:induction false} DemandedIsExactlyOnce(sha: string -> string, s: S.Scenario, input: ReportInput,
                                                 invalid: seq<string>, run: S.Run)
    requires S.ValidScenario(s) && IsSpecRun(s, input, invalid, run) && Demanded(sha, s, input, run)
    ensures Correspond(sha, input.client.records, input.internal.records)
    ensures ExactlyOnce(sha, input)
  {
    var records := input.client.records;
    assert Observed(input, invalid, run.requests) && Correspond(sha, records, input.internal.records);
    assert SC.RequestsValid(run, S.MeasurementStart(s, run)) && SC.MutationsSafe(run);
    hide S.ValidScenario, Demanded, IsSpecRun;
    forall i | 0 <= i < |records| &&
        records[i].class_.MutatingTraffic? ensures AppliedOnce(sha, records[i], input.internal.records) {
      assert SS.RequestValid(run, i) && SS.MutationSafe(run, i);
      SafeObservationAppliedOnce(sha, input, invalid, run, i);
    }
  }

  /** Reconciles, evaluates and merges the checks; the report passes exactly when everything demanded holds. */
  method BuildReport(sha: string -> string, s: S.Scenario, input: ReportInput) returns (r: Result<ReportResult>)
    requires |input.client.records| < SE.MAX_SLICE
    ensures r.Ok? <==> S.ValidScenario(s)
    ensures r.Ok? ==> IsSpecRun(s, input, r.value.reconciliation.invalid, r.value.run)
    ensures r.Ok? ==> (r.value.report.passed <==> Demanded(sha, s, input, r.value.run))
    ensures r.Ok? && r.value.report.passed ==>
        Correspond(sha, input.client.records, input.internal.records) && ExactlyOnce(sha, input)
  {
    var reconciliation := Reconcile(sha, input.client, input.internal);
    SettledExact(sha, input.client, input.internal, reconciliation);
    hide Describes, Settled, NothingReported;
    var run, markerViolations := BuildSpecRun(s, input, reconciliation.invalid);
    var evaluated := SE.Evaluate(s, run);
    if evaluated.Err? {
      return Err(evaluated.error);
    }
    var report := evaluated.value;
    var violations := ReconciliationViolations(reconciliation);
    var cleanup := if input.cleanupComplete then [] else ["cleanup_incomplete"];
    report := AppendReportCheck(report, "probe/reconciliation", violations);
    report := AppendReportCheck(report, "probe/markers", markerViolations);
    report := AppendReportCheck(report, "probe/cleanup", cleanup);
    hide SC.MeetsContract, S.ValidScenario, FaultsMarked, NoStrayMarker, IsSpecRun;
    if report.passed {
      DemandedIsExactlyOnce(sha, s, input, reconciliation.invalid, run);
    }
    return Ok(ReportResult(run, report, reconciliation));
  }

  function AppendReportCheck(report: S.Report, name: string, violations: seq<S.Violation>): (r: S.Report)
    ensures r.passed <==> report.passed && violations == []
  {
    report.(checks := report.checks + [S.Check(name, violations == [], violations)], passed := report.passed &&
        violations == [])
  }
}
