/**
 * The journal's start does not look at the record's state; that it only ever meets a fresh one is the runner's doing.
 */
module RunnerStarts {
  import opened ProbeTypes
  import opened ProbeJournal
  import opened ProbeRunner
  import opened RunnerInvariant
  import opened Sorting

  // ---- What start itself accepts

  /** Start succeeds exactly for a known record, a clock that does not go back and a log with room. */
  lemma {:induction false} StartExact(j: Journal, id: string, timeout: Duration, t1: Duration, t2: Duration)
    ensures Started(j, id, timeout, t1, t2).1 <==>
        id in j.records && j.lastOffset <= t1 <= t2 && |j.events| < j.maxEvents
  {}

  const ANSWERED := FreshRecord(Request("a", "", ReadTraffic, 1), 0).(dispatched := true, outcome := Success)
  const ANSWERED_JOURNAL := EmptyJournal(1, 1).(records := map["a" := ANSWERED], order := ["a"])

  /** A journal by itself starts a dispatched and finished record once more. */
  lemma {:induction false} StartsAgain()
    ensures ANSWERED_JOURNAL.records["a"].dispatched && !ANSWERED_JOURNAL.records["a"].outcome.Unknown?
    ensures Started(ANSWERED_JOURNAL, "a", 1, 0, 0).1
  {
    StartExact(ANSWERED_JOURNAL, "a", 1, 0, 0);
  }

  // ---- What the runner hands to start, with or without reasons in the journal

  predicate Fresh(c: ClientRecord) { !c.dispatched && c.outcome.Unknown? }

  /** Requests before their start are held with a fresh record. */
  ghost predicate HeldFresh(s: Runner) {
    forall id :: id in s.held && Early(s.held[id]) && id in s.j.records ==> Fresh(s.j.records[id])
  }

  ghost predicate ClassesKnown(j: Journal) { forall id :: id in j.records ==> ValidClass(j.records[id].class_) }

  ghost predicate StartSafe(s: Runner) {
    HeldGood(s) && HeldFresh(s) && ClassesKnown(s.j) && QueueGood(s, true) && QueueGood(s, false)
  }

  /** Only one record changes, and none loses its class. */
  ghost predicate OnlyTouches(j: Journal, j': Journal, id: string) {
    forall x :: x in j.records ==>
        x in j'.records && j'.records[x].class_ == j.records[x].class_ && (x != id ==> j'.records[x] == j.records[x])
  }

  ghost predicate Keeps(j: Journal, j': Journal) {
    forall x :: x in j.records ==> x in j'.records && j'.records[x] == j.records[x]
  }

  lemma {:induction false} AppendRecords(j: Journal, e: Event, now: Duration)
    ensures Append(j, e, now).0.records == j.records
  {}

  lemma {:induction false} ScheduledKeeps(j: Journal, r: Request, t1: Duration, t2: Duration)
    requires ClassesKnown(j) && ValidClass(r.class_)
    ensures Keeps(j, Scheduled(j, r, t1, t2).0) && ClassesKnown(Scheduled(j, r, t1, t2).0)
    ensures Scheduled(j, r, t1, t2).1 ==>
              r.id !in j.records && r.id in Scheduled(j, r, t1, t2).0.records &&
                  Fresh(Scheduled(j, r, t1, t2).0.records[r.id])
  {
    hide Append, ValidClass;
    var read := Read(j, t1).0;
    AppendRecords(read.(records := read.records[r.id := FreshRecord(r, t1)], order := read.order + [r.id]),
                  RequestEvent(RequestScheduled, r.class_, r.id, Unknown), t2);
  }

  lemma {:induction false} StartedTouches(j: Journal, id: string, timeout: Duration, t1: Duration, t2: Duration)
    requires ClassesKnown(j)
    ensures OnlyTouches(j, Started(j, id, timeout, t1, t2).0, id) && ClassesKnown(Started(j, id, timeout, t1, t2).0)
  {
    hide Append, ValidClass;
    if id in j.records {
      var read := Read(j, t1).0;
      var record := read.records[id].(startedOffset := t1, deadlineOffset := t1 + timeout, dispatched := true);
      AppendRecords(read.(records := read.records[id := record]),
          RequestEvent(RequestStarted, record.class_, id, Unknown), t2);
    }
  }

  lemma {:induction false} FinishedTouches(j: Journal, id: string, a: Response, t1: Duration, t2: Duration)
    requires ClassesKnown(j)
    ensures OnlyTouches(j, Finished(j, id, a, t1, t2).0, id) && ClassesKnown(Finished(j, id, a, t1, t2).0)
  {
    hide Append, ValidClass;
    if id in j.records {
      AppendRecords(Read(j, t1).0, RequestEvent(RequestFinished, j.records[id].class_, id, a.outcome), t2);
    }
  }

  /** Nothing moves; records may be added. */
  lemma {:induction false} SafeSame(s: Runner, s': Runner)
    requires StartSafe(s) && Keeps(s.j, s'.j) && ClassesKnown(s'.j)
    requires s'.held == s.held && s'.readQueue == s.readQueue && s'.mutatingQueue == s.mutatingQueue
    ensures StartSafe(s')
  {
    hide Early, Fresh, ValidClass, NoRepeats;
  }

  /** One request moves outside the queues; the queues stay. */
  lemma {:induction false} SafeMove(s: Runner, s': Runner, id: string)
    requires StartSafe(s) && OtherwiseHeld(s, s', id) && !InPhase(s, id, Queued) && OnlyTouches(s.j, s'.j, id)
    requires ClassesKnown(s'.j)
    requires id in s'.held ==> id in s'.j.records && (Early(s'.held[id]) ==> Fresh(s'.j.records[id]))
    ensures StartSafe(s')
  {
    hide Early, Fresh, QueueGood, ValidClass;
    QueueFrame(s, s', true, id);
    QueueFrame(s, s', false, id);
  }

  lemma {:induction false} SafeSchedule(s: Runner, mutating: bool, id: string, t1: Duration, t2: Duration)
    requires StartSafe(s)
    ensures StartSafe(DoSchedule(s, mutating, id, t1, t2))
  {
    hide Scheduled, Fresh, ValidRequestID, QueueGood, HeldFresh;
    var s', r := DoSchedule(s, mutating, id, t1, t2), NextRequest(mutating, id, SequenceOf(s, mutating) + 1);
    ScheduledKeeps(s.j, r, t1, t2);
    if ValidRequestID(id) && Scheduled(s.j, r, t1, t2).1 {
      SafeMove(s, s', id);
    } else {
      SafeSame(s, s');
    }
  }

  lemma {:induction false} SafeOffer(cfg: Config, s: Runner, id: string)
    requires StartSafe(s)
    ensures StartSafe(Step(cfg, s, Offer(id)))
  {
    hide QueueGood, NoRepeats, Fresh;
    if InPhase(s, id, Offered) && id in s.j.records {
      var mutating, s' := s.j.records[id].class_.MutatingTraffic?, Step(cfg, s, Offer(id));
      if |QueueOf(s, mutating)| < CapacityOf(cfg, mutating) {
        QueueFrame(s, s', !mutating, id);
        QueueAppend(s, s', mutating, id);
      } else {
        SafeMove(s, s', id);
      }
    }
  }

  lemma {:induction false} SafeTake(cfg: Config, s: Runner, mutating: bool)
    requires StartSafe(s)
    ensures StartSafe(Step(cfg, s, Take(mutating)))
  {
    hide QueueGood, NoRepeats, Fresh;
    if QueueOf(s, mutating) != [] {
      var s' := Step(cfg, s, Take(mutating));
      QueueHead(s, mutating);
      QueueTail(s, s', mutating);
      QueueOther(s, s', !mutating, QueueOf(s, mutating)[0]);
    }
  }

  lemma {:induction false} SafeFinish(s: Runner, s': Runner, id: string, a: Response, t1: Duration, t2: Duration)
    requires StartSafe(s) && id in s.held && !s.held[id].Queued? && s'.j == Finished(s.j, id, a, t1, t2).0
    requires s'.held == s.held - {id} || s'.held == (s.held - {id})[id := Panicking]
    requires s'.readQueue == s.readQueue && s'.mutatingQueue == s.mutatingQueue
    ensures StartSafe(s')
  {
    hide Finished, QueueGood, HeldFresh, ClassesKnown;
    FinishedTouches(s.j, id, a, t1, t2);
    SafeMove(s, s', id);
  }

  lemma {:induction false} SafeStart(cfg: Config, s: Runner, id: string, t1: Duration, t2: Duration)
    requires StartSafe(s)
    ensures StartSafe(Step(cfg, s, StartRequest(id, t1, t2)))
  {
    hide Started, QueueGood, HeldFresh, ClassesKnown;
    if InPhase(s, id, Starting) {
      StartedTouches(s.j, id, cfg.timeout, t1, t2);
      SafeMove(s, Step(cfg, s, StartRequest(id, t1, t2)), id);
    }
  }

  /** A request changes its phase and the journal stays, or gets a reason. */
  lemma {:induction false} SafePhase(s: Runner, s': Runner, id: string)
    requires StartSafe(s) && id in s.held && !s.held[id].Queued? && s'.j.records == s.j.records
    requires s'.held == s.held - {id} || (id in s'.held && s'.held == s.held[id := s'.held[id]])
    requires id in s'.held && Early(s'.held[id]) ==> Early(s.held[id])
    requires s'.readQueue == s.readQueue && s'.mutatingQueue == s.mutatingQueue
    ensures StartSafe(s')
  {
    hide QueueGood, ValidClass, Early, Fresh;
    SafeMove(s, s', id);
  }

  lemma {:induction false} SafeStep(cfg: Config, s: Runner, x: Action)
    requires StartSafe(s)
    ensures StartSafe(Step(cfg, s, x))
  {
    hide StartSafe, Finished, Started, Scheduled, Append, Normalize;
    var s' := Step(cfg, s, x);
    match x
    case ScheduleNext(mutating, id, t1, t2) => SafeSchedule(s, mutating, id, t1, t2);
    case Offer(id) => SafeOffer(cfg, s, id);
    case FinishRefused(id, t1, t2) => if InPhase(s, id, Refused) { SafeFinish(s, s', id, Plain(Backpressure), t1, t2); }
    case Take(mutating) => SafeTake(cfg, s, mutating);
    case CheckContext(id) => if InPhase(s, id, Taken) { SafePhase(s, s', id); }
    case FinishCancelled(id, t1, t2) =>
      if InPhase(s, id, Cancelling) { SafeFinish(s, s', id, Plain(Canceled), t1, t2); }
    case StartRequest(id, t1, t2) => SafeStart(cfg, s, id, t1, t2);
    case Return(id, _, _, _) => if InPhase(s, id, Invoking) { SafePhase(s, s', id); }
    case FinishAnswered(id, t1, t2) =>
      if id in s.held && s.held[id].Answering? { SafeFinish(s, s', id, s.held[id].a, t1, t2); }
    case MarkPanic(id) => if InPhase(s, id, Panicking) { SafePhase(s, s', id); }
    case WriteEvent(e, now) => SafeWrite(cfg, s, e, now);
    case Observe(_) => SafeRecords(s, s');
    case MarkReason(_) => SafeRecords(s, s');
    case CancelRun => SafeRecords(s, s');
  }

  lemma {:induction false} SafeRecords(s: Runner, s': Runner)
    requires StartSafe(s) && s'.j.records == s.j.records
    requires s'.held == s.held && s'.readQueue == s.readQueue && s'.mutatingQueue == s.mutatingQueue
    ensures StartSafe(s')
  {
    hide QueueGood, HeldFresh, ValidClass;
    SafeSame(s, s');
  }

  lemma {:induction false} SafeWrite(cfg: Config, s: Runner, e: Event, now: Duration)
    requires StartSafe(s)
    ensures StartSafe(Step(cfg, s, WriteEvent(e, now)))
  {
    hide StartSafe;
    SafeRecords(s, Step(cfg, s, WriteEvent(e, now)));
  }

  lemma {:induction false} SafeRun(cfg: Config, s: Runner, actions: seq<Action>)
    requires StartSafe(s)
    ensures StartSafe(Execute(cfg, s, actions))
  {
    hide StartSafe, Step;
    if actions != [] {
      SafeRun(cfg, s, actions[..|actions|-1]);
      SafeStep(cfg, Execute(cfg, s, actions[..|actions|-1]), actions[|actions|-1]);
    }
  }

  /** In every reachable state, with or without reasons, the start step meets an undispatched and unfinished record. */
  lemma {:induction false} StartsOnlyFresh(cfg: Config, maxRecords: nat, maxEvents: nat, t0: Duration,
                                           actions: seq<Action>, id: string)
    requires InPhase(Execute(cfg, Initial(maxRecords, maxEvents, t0), actions), id, Starting)
    ensures var j := Execute(cfg, Initial(maxRecords, maxEvents, t0), actions).j;
      id in j.records && !j.records[id].dispatched && j.records[id].outcome.Unknown?
  {
    assert StartSafe(Initial(maxRecords, maxEvents, t0));
    SafeRun(cfg, Initial(maxRecords, maxEvents, t0), actions);
  }
}
