/** The SLO scenario, the request ledger and the report of the tunnel evaluator. */
module SloTypes {
  import opened Wrappers

  /** An instant in nanoseconds; 0 is Go's zero time. Instants before it are negative. */
  type Instant = int
  type Duration = int

  const PPM := 1_000_000
  const MAX_SCENARIO_DURATION: Duration := 24 * 3600 * 1_000_000_000
  const MAX_REQUEST_RECORDS := 10_000_000
  const MAX_RECOVERY_STREAK := 10_000
  const SCENARIO_SCHEMA := "marketmesh.tunnel.slo.scenario/v1"
  const RUN_SCHEMA := "marketmesh.tunnel.slo.run/v1"

  datatype ScenarioKind = PlannedRolling | EmergencyOutage | OtherKind(name: string)
  datatype RequestClass = ReadIdempotent | Mutating | OtherClass(name: string)
  datatype FaultTarget = GatewayIn | GatewayOut | InternalService | KubernetesService
                       | Network | DataCentre | OtherTarget(name: string)
  datatype FaultMode = RollingUpdate | PodOutage | ServiceEndpointsOutage | NetworkPartition
                     | DataCentreOutage | OtherMode(name: string)
  datatype RecoveryAnchor = FaultStarted | FaultEnded | OtherAnchor(name: string)
  datatype AttemptOutcome = AttemptUnknown | AttemptSuccess | AttemptFailure | OtherAttempt(name: string)
  datatype ExclusionReason = AllDataCentresUnavailable | OtherReason(name: string)

  datatype ClassTarget = ClassTarget(class_: RequestClass, minEligible: nat, maxErrorRatePPM: nat,
                                     maxDowntime: Duration)
  datatype RecoveryTarget = RecoveryTarget(anchor: RecoveryAnchor, maxDuration: Duration, successStreak: nat,
                                           classes: seq<RequestClass>)
  datatype FaultExpectation = FaultExpectation(id: string, target: FaultTarget, mode: FaultMode,
                                               recovery: Option<RecoveryTarget>)
  datatype Scenario = Scenario(schemaVersion: string, id: string, kind: ScenarioKind, warmUp: Duration,
                               targets: seq<ClassTarget>, faults: seq<FaultExpectation>)

  datatype PlannedRequests = PlannedRequests(class_: RequestClass, count: nat)
  datatype CapacityInterval = CapacityInterval(startedAt: Instant, endedAt: Instant, availableDC: nat)
  datatype ExclusionInterval = ExclusionInterval(startedAt: Instant, endedAt: Instant, reason: ExclusionReason)
  datatype FaultEvent = FaultEvent(id: string, startedAt: Instant, endedAt: Option<Instant>)
  datatype Attempt = Attempt(number: nat, startedAt: Instant, finishedAt: Instant, outcome: AttemptOutcome)
  datatype Mutation = Mutation(idempotencyKey: string, ledgerKnown: bool, appliedCount: nat)
  datatype Request = Request(id: string, class_: RequestClass, scheduledAt: Instant, missing: bool,
                             attempts: seq<Attempt>, mutation: Option<Mutation>)
  datatype Run = Run(schemaVersion: string, scenarioID: string, runID: string, startedAt: Instant, endedAt: Instant,
                     planned: seq<PlannedRequests>, capacity: seq<CapacityInterval>,
                     exclusions: seq<ExclusionInterval>, faults: seq<FaultEvent>, requests: seq<Request>)

  /** One request as the evaluator sees it. */
  datatype Sample = Sample(index: nat, class_: RequestClass, scheduled: Instant, finished: Instant, eligible: bool,
                           successful: bool, missing: bool, unknown: bool, retried: bool)

  datatype ErrorBudget = ErrorBudget(ratePPM: nat, allowed: nat, consumed: nat, remaining: nat)
  datatype ClassSummary = ClassSummary(class_: RequestClass, planned: nat, recorded: nat, eligible: nat,
                                       successful: nat,
                                       failed: nat, missing: nat, unknown: nat, retried: nat, availabilityPPM: nat,
                                       budget: ErrorBudget)
  datatype DowntimeWindow = DowntimeWindow(class_: RequestClass, startedAt: Instant, endedAt: Instant,
                                           duration: Duration)
  datatype RecoverySummary = RecoverySummary(faultID: string, target: FaultTarget, class_: RequestClass,
                                             anchorAt: Instant,
                                             recoveredAt: Option<Instant>, duration: Duration, maxDuration: Duration,
                                                 passed: bool)
  /** A violation is kept by its stable code; the message text is not modelled. */
  type Violation = string
  datatype Check = Check(name: string, passed: bool, violations: seq<Violation>)
  datatype Report = Report(passed: bool, classes: seq<ClassSummary>, downtime: seq<DowntimeWindow>,
                           recovery: seq<RecoverySummary>, checks: seq<Check>)

  predicate KnownClass(c: RequestClass) { c.ReadIdempotent? || c.Mutating? }

  predicate Lower(c: char) { 'a' <= c <= 'z' }
  predicate Upper(c: char) { 'A' <= c <= 'Z' }
  predicate Digit(c: char) { '0' <= c <= '9' }

  /** ^[A-Za-z0-9][A-Za-z0-9._:-]{0,127}$ */
  predicate OpaqueID(s: string) {
    && 1 <= |s| <= 128
    && (Lower(s[0]) || Upper(s[0]) || Digit(s[0]))
    && forall i :: 0 <= i < |s| ==> Lower(s[i]) || Upper(s[i]) || Digit(s[i]) || s[i] in "._:-"
  }

  /** ^[a-z0-9][a-z0-9._-]{0,63}$ */
  predicate ContractID(s: string) {
    && 1 <= |s| <= 64
    && (Lower(s[0]) || Digit(s[0]))
    && forall i :: 0 <= i < |s| ==> Lower(s[i]) || Digit(s[i]) || s[i] in "._-"
  }

  predicate FaultPair(target: FaultTarget, mode: FaultMode) {
    match target
    case GatewayIn | GatewayOut | InternalService => mode.RollingUpdate? || mode.PodOutage?
    case KubernetesService => mode.RollingUpdate? || mode.ServiceEndpointsOutage?
    case Network => mode.NetworkPartition?
    case DataCentre => mode.DataCentreOutage?
    case OtherTarget(_) => false
  }

  predicate ValidTarget(kind: ScenarioKind, t: ClassTarget) {
    && KnownClass(t.class_)
    && 1 <= t.minEligible <= MAX_REQUEST_RECORDS
    && t.maxErrorRatePPM <= PPM
    && t.maxDowntime <= MAX_SCENARIO_DURATION
    && (kind.PlannedRolling? ==> t.maxErrorRatePPM == 0 && t.maxDowntime == 0)
  }

  predicate ValidRecovery(kind: ScenarioKind, f: FaultExpectation) {
    match kind
    case PlannedRolling => f.mode.RollingUpdate? && f.recovery.None?
    case EmergencyOutage =>
      && !f.mode.RollingUpdate?
      && f.recovery.Some?
      && var r := f.recovery.value;
        && !r.anchor.OtherAnchor?
        && 0 < r.maxDuration <= MAX_SCENARIO_DURATION
        && 1 <= r.successStreak <= MAX_RECOVERY_STREAK
        && r.classes != []
        && (forall c :: c in r.classes ==> KnownClass(c))
        && (forall i, j :: 0 <= i < j < |r.classes| ==> r.classes[i] != r.classes[j])
    case OtherKind(_) => true
  }

  /** The scenarios the evaluator does not refuse. */
  predicate ValidScenario(s: Scenario) {
    && s.schemaVersion == SCENARIO_SCHEMA
    && ContractID(s.id)
    && !s.kind.OtherKind?
    && s.warmUp <= MAX_SCENARIO_DURATION
    && |s.targets| == 2
    && s.targets[0].class_ != s.targets[1].class_
    && ValidTarget(s.kind, s.targets[0])
    && ValidTarget(s.kind, s.targets[1])
    && s.faults != []
    && (forall i, j :: 0 <= i < j < |s.faults| ==> s.faults[i].id != s.faults[j].id)
    && (forall f :: f in s.faults ==> ContractID(f.id) && FaultPair(f.target, f.mode) && ValidRecovery(s.kind, f))
  }

  function TargetOf(s: Scenario, c: RequestClass): ClassTarget
    requires ValidScenario(s) && KnownClass(c)
  {
    if s.targets[0].class_ == c then s.targets[0] else s.targets[1]
  }

  function MeasurementStart(s: Scenario, run: Run): Instant { run.startedAt + s.warmUp }
}
