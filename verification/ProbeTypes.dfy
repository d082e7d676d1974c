/** Ledgers, events and validators of the tunnel traffic probe. */
module ProbeTypes {
  import opened Sorting

  type Duration = int

  datatype TrafficClass = ReadTraffic | MutatingTraffic | OtherTraffic(name: string)
  datatype Outcome = Unknown | Success | Timeout | Canceled | Backpressure | Unavailable | Rejected
                   | InternalError | InvalidMetadata | OtherOutcome(name: string)
  datatype DataCenter = NoDataCenter | DataCenterA | DataCenterB | OtherDataCenter(name: string)

  datatype Request = Request(id: string, idempotencyKey: string, class_: TrafficClass, sequence: nat)
  datatype Response = Response(outcome: Outcome, routeID: string, dataCenter: DataCenter, source: string,
                               internalSequence: nat, duplicate: bool)

  datatype MarkerPhase = PhaseStarted | PhaseRecovered | PhaseAfter | PhaseBefore | PhaseSteady | PhaseRecovering
  datatype MarkerResult = ResultUnknown | ResultSuccess | ResultFailure
  datatype Marker = Marker(faultID: string, phase: MarkerPhase, result: MarkerResult)

  datatype EventKind = RunStarted | RequestScheduled | RequestStarted | RequestFinished
                     | MarkerWritten | RunStopping | RunFinished
  datatype Event = Event(sequence: nat, offset: Duration, kind: EventKind, class_: TrafficClass, requestID: string,
                         outcome: Outcome, marker: Marker)

  datatype ClientRecord = ClientRecord(
    requestID: string, idempotencyKey: string, class_: TrafficClass, sequence: nat,
    scheduledOffset: Duration, startedOffset: Duration, deadlineOffset: Duration, finishedOffset: Duration,
    latency: Duration, outcome: Outcome, routeID: string, dataCenter: DataCenter, source: string,
    internalSequence: nat, completionSequence: nat, duplicate: bool, dispatched: bool)

  datatype InternalRecord = InternalRecord(
    requestID: string, digest: string, class_: TrafficClass, sequence: nat, attempts: nat,
    acceptedOffset: Duration, completedOffset: Duration, outcome: Outcome, routeID: string,
    dataCenter: DataCenter, source: string)

  datatype Snapshot = Snapshot(startedAt: int, finishedOffset: Duration, records: seq<ClientRecord>, events: seq<Event>,
                               isComplete: bool, incompleteReasons: seq<string>)
  datatype InternalSnapshot = InternalSnapshot(records: seq<InternalRecord>, isComplete: bool,
                                               incompleteReasons: seq<string>)

  predicate LowerHex(c: char) { '0' <= c <= '9' || 'a' <= c <= 'f' }

  /** A request identifier: 16 bytes in lower-case hexadecimal. */
  predicate ValidRequestID(s: string) { |s| == 32 && forall i :: 0 <= i < |s| ==> LowerHex(s[i]) }

  predicate ValidDigest(s: string) { |s| == 64 && forall i :: 0 <= i < |s| ==> LowerHex(s[i]) }

  predicate SafeChar(c: char) {
    'a' <= c <= 'z' || 'A' <= c <= 'Z' || '0' <= c <= '9' || c == '-' || c == '_' || c == '.'
  }

  predicate ValidDimension(s: string, allowEmpty: bool) {
    if s == "" then allowEmpty
    else
      && |s| <= 64
      && (forall i :: 0 <= i < |s| ==> SafeChar(s[i]))
      && s[0] != '-' && s[0] != '_' && s[0] != '.'
  }

  predicate ValidDataCenter(d: DataCenter, allowUnknown: bool) {
    match d
    case NoDataCenter => allowUnknown
    case DataCenterA | DataCenterB => true
    case OtherDataCenter(_) => false
  }

  predicate ValidClass(c: TrafficClass) { !c.OtherTraffic? }

  predicate ValidOutcome(o: Outcome) { !o.Unknown? && !o.OtherOutcome? }

  predicate ValidWhere(routeID: string, dataCenter: DataCenter, source: string, outcome: Outcome) {
    && ValidDimension(routeID, !outcome.Success?)
    && ValidDataCenter(dataCenter, !outcome.Success?)
    && ValidDimension(source, !outcome.Success?)
  }

  /** What a record must look like depending on whether its request was sent. */
  predicate LifecycleValid(r: ClientRecord) {
    if r.dispatched then
      && !r.outcome.Backpressure?
      && r.startedOffset < r.deadlineOffset
      && r.startedOffset <= r.finishedOffset
      && r.latency == r.finishedOffset - r.startedOffset
    else
      && (r.outcome.Backpressure? || r.outcome.Canceled?)
      && r.startedOffset == 0 && r.deadlineOffset == 0 && r.latency == 0
      && r.routeID == "" && r.dataCenter.NoDataCenter? && r.source == "" && r.internalSequence == 0
      && !r.duplicate
  }

  predicate ValidClientRecord(r: ClientRecord) {
    && ValidRequestID(r.requestID) && ValidClass(r.class_)
    && r.sequence != 0 && r.completionSequence != 0
    && (r.class_.MutatingTraffic? ==> r.idempotencyKey == r.requestID)
    && (r.class_.ReadTraffic? ==> r.idempotencyKey == "")
    && ValidOutcome(r.outcome)
    && 0 <= r.scheduledOffset <= r.finishedOffset
    && ValidWhere(r.routeID, r.dataCenter, r.source, r.outcome)
    && LifecycleValid(r)
  }

  predicate ValidInternalRecord(r: InternalRecord) {
    && ValidRequestID(r.requestID) && ValidClass(r.class_)
    && (r.class_.MutatingTraffic? ==> ValidDigest(r.digest))
    && (r.class_.ReadTraffic? ==> r.digest == "")
    && r.sequence != 0 && r.attempts != 0
    && ValidOutcome(r.outcome)
    && r.acceptedOffset <= r.completedOffset
    && ValidWhere(r.routeID, r.dataCenter, r.source, r.outcome)
  }

  predicate SemanticallyMatch(c: ClientRecord, i: InternalRecord) {
    && c.requestID == i.requestID && c.class_ == i.class_ && c.routeID == i.routeID
    && c.dataCenter == i.dataCenter && c.source == i.source && c.internalSequence == i.sequence
  }

  function ClassName(c: TrafficClass): string {
    match c
    case ReadTraffic => "read"
    case MutatingTraffic => "mutating"
    case OtherTraffic(name) => name
  }

  function DataCenterName(d: DataCenter): string {
    match d
    case NoDataCenter => ""
    case DataCenterA => "dc-a"
    case DataCenterB => "dc-b"
    case OtherDataCenter(name) => name
  }

  /** Where a ledger sequence was counted: the source if it is named, else the data centre. */
  function Origin(source: string, d: DataCenter): string { if source != "" then source else DataCenterName(d) }

  function SequenceKey(source: string, d: DataCenter, c: TrafficClass): string {
    if source != "" then source + "/" + ClassName(c) else DataCenterName(d) + "/" + ClassName(c)
  }

  lemma {:induction false} LastChar(origin: string, c: TrafficClass)
    requires ValidClass(c)
    ensures var k := origin + ("/" + ClassName(c)); k[|k|-1] == (if c.ReadTraffic? then 'd' else 'g')
  {}

  /** For valid classes the key determines the origin and the class, whatever characters the origin has. */
  lemma {:induction false} SequenceKeyInjective(s1: string, d1: DataCenter, c1: TrafficClass, s2: string,
                                                d2: DataCenter, c2: TrafficClass)
    requires ValidClass(c1) && ValidClass(c2)
    ensures SequenceKey(s1, d1, c1) == SequenceKey(s2, d2, c2) <==> Origin(s1, d1) == Origin(s2, d2) && c1 == c2
  {
    var k1, k2 := SequenceKey(s1, d1, c1), SequenceKey(s2, d2, c2);
    assert k1 == Origin(s1, d1) + ("/" + ClassName(c1));
    assert k2 == Origin(s2, d2) + ("/" + ClassName(c2));
    LastChar(Origin(s1, d1), c1);
    LastChar(Origin(s2, d2), c2);
    if k1 == k2 {
      SplitEqual(Origin(s1, d1), Origin(s2, d2), "/" + ClassName(c1), "/" + ClassName(c2));
    }
  }

  /** A record without a source shares its key with one whose source is spelled like its data centre. */
  lemma {:induction false} KeysCanCollide(c: TrafficClass)
    ensures SequenceKey("", DataCenterA, c) == SequenceKey("dc-a", DataCenterB, c)
  {}
}
