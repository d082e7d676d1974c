/**
 * The probe runner as interleaved steps of schedulers, workers, the invoker, markers and steady looks over the journal.
 */
module ProbeRunner {
  import opened ProbeTypes
  import opened ProbeJournal
  import opened JournalFacts
  import opened Sorting

  datatype Config = Config(timeout: Duration, readCapacity: nat, mutatingCapacity: nat)
  datatype ContextError = NoError | DeadlineExceeded | ContextCanceled

  function Plain(o: Outcome): Response { Response(o, "", NoDataCenter, "", 0, false) }

  /** What the worker makes of the invoker's answer. */
  function Normalize(a: Response, error: ContextError): Response {
    if error.DeadlineExceeded? && !a.outcome.Success? then Plain(Timeout)
    else if error.ContextCanceled? && !a.outcome.Success? then Plain(Canceled)
    else if !ValidOutcome(a.outcome) then Plain(InternalError)
    else if !ValidDimension(a.routeID, !a.outcome.Success?) || !ValidDataCenter(a.dataCenter, !a.outcome.Success?)
            || !ValidDimension(a.source, true) then Plain(InvalidMetadata)
    else a
  }

  /** Where a scheduled request is: with its scheduler, in a queue, or with a worker. */
  datatype Phase = Offered | Refused | Queued | Taken | Starting | Cancelling | Invoking | Answering(a: Response,
      panicked: bool) | Panicking

  datatype Runner = Runner(j: Journal, held: map<string, Phase>, readQueue: seq<string>, mutatingQueue: seq<string>,
                           readSequence: nat, mutatingSequence: nat, cancelled: bool)

  datatype Action =
    | ScheduleNext(mutating: bool, id: string, t1: Duration, t2: Duration)
    | Offer(id: string)
    | FinishRefused(id: string, t1: Duration, t2: Duration)
    | Take(mutating: bool)
    | CheckContext(id: string)
    | FinishCancelled(id: string, t1: Duration, t2: Duration)
    | StartRequest(id: string, t1: Duration, t2: Duration)
    | Return(id: string, a: Response, error: ContextError, panicked: bool)
    | FinishAnswered(id: string, t1: Duration, t2: Duration)
    | MarkPanic(id: string)
    | WriteEvent(e: Event, now: Duration)
    | Observe(now: Duration)
    | MarkReason(reason: string)
    | CancelRun

  predicate InPhase(s: Runner, id: string, p: Phase) { id in s.held && s.held[id] == p }

  function ClassOf(mutating: bool): TrafficClass { if mutating then MutatingTraffic else ReadTraffic }

  function SequenceOf(s: Runner, mutating: bool): nat { if mutating then s.mutatingSequence else s.readSequence }
  function QueueOf(s: Runner, mutating: bool): seq<string> { if mutating then s.mutatingQueue else s.readQueue }
  function WithQueue(s: Runner, mutating: bool, q: seq<string>): Runner {
    if mutating then s.(mutatingQueue := q) else s.(readQueue := q)
  }
  function WithSequence(s: Runner, mutating: bool, n: nat): Runner {
    if mutating then s.(mutatingSequence := n) else s.(readSequence := n)
  }
  function CapacityOf(cfg: Config, mutating: bool): nat { if mutating then cfg.mutatingCapacity else cfg.readCapacity }

  function NextRequest(mutating: bool, id: string, sequence: nat): Request {
    Request(id, if mutating then id else "", ClassOf(mutating), sequence)
  }

  /** The scheduler draws an identifier and records the request. */
  function DoSchedule(s: Runner, mutating: bool, id: string, t1: Duration, t2: Duration): Runner {
    var n := SequenceOf(s, mutating) + 1;
    var s1 := WithSequence(s, mutating, n);
    if !ValidRequestID(id) then s1.(j := Marked(s.j, "invalid_request_id"))
    else
      var (j, ok) := Scheduled(s.j, NextRequest(mutating, id, n), t1, t2);
      if ok then s1.(j := j, held := s.held[id := Offered]) else s1.(j := j, cancelled := true)
  }

  /** A terminal result is written and the request leaves its holder. */
  function DoFinish(s: Runner, id: string, a: Response, t1: Duration, t2: Duration): Runner {
    var (j, ok) := Finished(s.j, id, a, t1, t2);
    s.(j := j, held := s.held - {id}, cancelled := s.cancelled || !ok)
  }

  /** One step; an action that is not enabled changes nothing. */
  function Step(cfg: Config, s: Runner, x: Action): Runner {
    match x
    case ScheduleNext(mutating, id, t1, t2) => DoSchedule(s, mutating, id, t1, t2)
    case Offer(id) =>
      if !InPhase(s, id, Offered) || id !in s.j.records then s
      else
        var mutating := s.j.records[id].class_.MutatingTraffic?;
        if |QueueOf(s, mutating)| < CapacityOf(cfg, mutating)
        then WithQueue(s, mutating, QueueOf(s, mutating) + [id]).(held := s.held[id := Queued])
        else s.(held := s.held[id := Refused])
    case FinishRefused(id, t1, t2) =>
      if !InPhase(s, id, Refused) then s else DoFinish(s, id, Plain(Backpressure), t1, t2)
    case Take(mutating) =>
      var q := QueueOf(s, mutating);
      if q == [] then s else WithQueue(s, mutating, q[1..]).(held := s.held[q[0] := Taken])
    case CheckContext(id) =>
      if !InPhase(s, id, Taken) then s else s.(held := s.held[id := if s.cancelled then Cancelling else Starting])
    case FinishCancelled(id, t1, t2) =>
      if !InPhase(s, id, Cancelling) then s else DoFinish(s, id, Plain(Canceled), t1, t2)
    case StartRequest(id, t1, t2) =>
      if !InPhase(s, id, Starting) then s
      else
        var (j, ok) := Started(s.j, id, cfg.timeout, t1, t2);
        if ok then s.(j := j, held := s.held[id := Invoking]) else s.(j := j, held := s.held - {id}, cancelled := true)
    case Return(id, a, error, panicked) =>
      if !InPhase(s, id, Invoking) then s
      else s.(held := s.held[id := Answering(Normalize(if panicked then Plain(InternalError) else a, error), panicked)])
    case FinishAnswered(id, t1, t2) =>
      if id !in s.held || !s.held[id].Answering? then s
      else
        var finished := DoFinish(s, id, s.held[id].a, t1, t2);
        if s.held[id].panicked then finished.(held := finished.held[id := Panicking]) else finished
    case MarkPanic(id) =>
      if !InPhase(s, id, Panicking) then s
      else s.(j := Marked(s.j, "invoker_panic"), held := s.held - {id}, cancelled := true)
    case WriteEvent(e, now) =>
      if e.kind.RequestScheduled? || e.kind.RequestFinished? || e.kind.RequestStarted? then s
      else
        var (j, ok) := Append(s.j, e, now);
        if ok then s.(j := j) else s.(j := j, cancelled := true)
    case Observe(now) => if s.j.reasons != [] then s else s.(j := Read(s.j, now).0)
    case MarkReason(reason) => s.(j := Marked(s.j, reason))
    case CancelRun => s.(cancelled := true)
  }

  function Initial(maxRecords: nat, maxEvents: nat, now: Duration): Runner {
    var start := Event(0, 0, RunStarted, NO_CLASS, "", Unknown, NO_MARKER);
    Runner(Append(EmptyJournal(maxRecords, maxEvents), start, now).0, map[], [], [], 0, 0, false)
  }

  /** The state after a whole interleaving. */
  function Execute(cfg: Config, s: Runner, actions: seq<Action>): Runner {
    if actions == [] then s else Step(cfg, Execute(cfg, s, actions[..|actions|-1]), actions[|actions|-1])
  }

  // ---- What a record looks like in each phase

  /** A record whose request was not sent yet. */
  predicate Unsent(c: ClientRecord) {
    && !c.dispatched && c.startedOffset == 0 && c.deadlineOffset == 0 && c.latency == 0 && c.routeID == ""
    && c.dataCenter.NoDataCenter? && c.source == "" && c.internalSequence == 0 && !c.duplicate
  }

  predicate InFlight(cfg: Config, c: ClientRecord, last: Duration) {
    c.dispatched && c.scheduledOffset <= c.startedOffset <= last && c.deadlineOffset == c.startedOffset + cfg.timeout
  }

  predicate Identified(c: ClientRecord, counter: nat) {
    && ValidRequestID(c.requestID) && ValidClass(c.class_) && 1 <= c.sequence <= counter
    && (c.class_.MutatingTraffic? ==> c.idempotencyKey == c.requestID)
    && (c.class_.ReadTraffic? ==> c.idempotencyKey == "")
  }

  /** The two answers the runner lets through although the ledger check refuses them. */
  predicate Tolerated(dispatched: bool, outcome: Outcome, source: string) {
    dispatched && (outcome.Backpressure? || (outcome.Success? && source == ""))
  }

  /** All that a terminal record satisfies; only Tolerated separates it from a valid one. */
  predicate Concluded(c: ClientRecord) {
    && 0 <= c.scheduledOffset <= c.finishedOffset
    && ValidOutcome(c.outcome) && c.completionSequence != 0
    && ValidDimension(c.routeID, !c.outcome.Success?) && ValidDataCenter(c.dataCenter, !c.outcome.Success?) &&
         ValidDimension(c.source, true)
    && (if c.dispatched then
          c.startedOffset < c.deadlineOffset && c.startedOffset <= c.finishedOffset &&
              c.latency == c.finishedOffset - c.startedOffset
        else Unsent(c) && (c.outcome.Backpressure? || c.outcome.Canceled?))
  }

  lemma {:induction false} ConcludedValid(c: ClientRecord, counter: nat)
    requires Identified(c, counter) && Concluded(c)
    ensures ValidClientRecord(c) <==> !Tolerated(c.dispatched, c.outcome, c.source)
  {
    hide ValidRequestID;
  }

  predicate NormalAnswer(a: Response) {
    && ValidOutcome(a.outcome)
    && ValidDimension(a.routeID, !a.outcome.Success?) && ValidDataCenter(a.dataCenter, !a.outcome.Success?) &&
         ValidDimension(a.source, true)
  }

  lemma {:induction false} NormalizeIsNormal(a: Response, error: ContextError)
    ensures NormalAnswer(Normalize(a, error))
  {}

  /** The invoker's contract: it leaves backpressure to the queue and names the source of a success. */
  predicate Obeys(a: Response) { !a.outcome.Backpressure? && (a.outcome.Success? ==> a.source != "") }

  lemma {:induction false} NormalizeObeys(a: Response, error: ContextError)
    requires Obeys(a)
    ensures !Tolerated(true, Normalize(a, error).outcome, Normalize(a, error).source)
  {}

  predicate Early(p: Phase) { p.Offered? || p.Refused? || p.Queued? || p.Taken? || p.Starting? || p.Cancelling? }

  /** The state of one record beside the phase it is held in; obey says that the invoker kept its contract. */
  predicate RecordGood(cfg: Config, obey: bool, c: ClientRecord, held: map<string, Phase>, last: Duration,
                       counter: nat) {
    && Identified(c, counter) && 0 <= c.scheduledOffset <= last
    && (c.outcome.Unknown? ==>
          (c.requestID in held ==> match held[c.requestID]
                                   case Panicking => false
                                   case Invoking => InFlight(cfg, c, last)
                                   case Answering(a, _) =>
                                       InFlight(cfg, c, last) && NormalAnswer(a) &&
                                       (obey ==> !Tolerated(true, a.outcome, a.source))
                                   case _ => Unsent(c)))
    && (!c.outcome.Unknown? ==>
          && (c.requestID in held ==> held[c.requestID].Panicking?)
          && Concluded(c) && (obey ==> !Tolerated(c.dispatched, c.outcome, c.source)))
  }

  function CounterOf(s: Runner, c: TrafficClass): nat {
    if c.MutatingTraffic? then s.mutatingSequence else s.readSequence
  }

  ghost predicate RecordsGood(cfg: Config, obey: bool, s: Runner) {
    forall id :: id in s.j.records ==>
        RecordGood(cfg, obey, s.j.records[id], s.held, s.j.lastOffset, CounterOf(s, s.j.records[id].class_))
  }

  /** A queue holds distinct requests of its class, all in the queued phase. */
  ghost predicate QueueGood(s: Runner, mutating: bool) {
    var q := QueueOf(s, mutating);
    && NoRepeats(q)
    && forall i :: 0 <= i < |q| ==>
         InPhase(s, q[i], Queued) && q[i] in s.j.records && s.j.records[q[i]].class_ == ClassOf(mutating)
  }

  ghost predicate HeldGood(s: Runner) { forall id :: id in s.held ==> id in s.j.records }

  ghost predicate Good(cfg: Config, obey: bool, s: Runner) {
    && JournalGood(s.j) && 0 <= s.j.lastOffset
    && RecordsGood(cfg, obey, s)
    && HeldGood(s) && QueueGood(s, true) && QueueGood(s, false)
  }

  /** Everything holds as long as no reason was recorded; the log's order holds in any case. */
  ghost predicate Inv(cfg: Config, obey: bool, s: Runner) {
    JournalLogged(s.j) && (s.j.reasons == [] ==> Good(cfg, obey, s))
  }
}
