/** What every complete snapshot guarantees, whatever the interleaving was. */
module RunnerTheorems {
  import opened ProbeTypes
  import opened ProbeJournal
  import opened JournalFacts
  import opened ProbeRunner
  import opened RunnerInvariant
  import opened LedgerIndex
  import opened Sorting

  /** With obey, every answer of the invoker keeps its contract. */
  predicate Permitted(obey: bool, x: Action) { obey && x.Return? ==> Obeys(x.a) }

  predicate AllPermitted(obey: bool, actions: seq<Action>) {
    forall i :: 0 <= i < |actions| ==> Permitted(obey, actions[i])
  }

  // ---- One step

  lemma {:induction false} FinishReasons(s: Runner, id: string, a: Response, t1: Duration, t2: Duration)
    requires DoFinish(s, id, a, t1, t2).j.reasons == []
    ensures s.j.reasons == []
  {
    FinishedClean(s.j, id, a, t1, t2);
  }

  /** No step takes a reason back. */
  lemma {:induction false} StepReasons(cfg: Config, s: Runner, x: Action)
    requires Step(cfg, s, x).j.reasons == []
    ensures s.j.reasons == []
  {
    hide DoFinish, Scheduled, Started, Append, Normalize, ValidRequestID;
    match x
    case ScheduleNext(mutating, id, t1, t2) => ScheduledReasons(s, mutating, id, t1, t2);
    case FinishRefused(id, t1, t2) => if InPhase(s, id, Refused) { FinishReasons(s, id, Plain(Backpressure), t1, t2); }
    case FinishCancelled(id, t1, t2) => if InPhase(s, id, Cancelling) { FinishReasons(s, id, Plain(Canceled), t1, t2); }
    case StartRequest(id, t1, t2) => if InPhase(s, id, Starting) { StartedClean(s.j, id, cfg.timeout, t1, t2); }
    case FinishAnswered(id, t1, t2) =>
      if id in s.held && s.held[id].Answering? { FinishReasons(s, id, s.held[id].a, t1, t2); }
    case WriteEvent(e, now) => if Step(cfg, s, x) != s { AppendClean(s.j, e, now); }
    case _ =>
  }

  lemma {:induction false} ScheduledReasons(s: Runner, mutating: bool, id: string, t1: Duration, t2: Duration)
    requires DoSchedule(s, mutating, id, t1, t2).j.reasons == []
    ensures s.j.reasons == []
  {
    if ValidRequestID(id) { ScheduledClean(s.j, NextRequest(mutating, id, SequenceOf(s, mutating) + 1), t1, t2); }
    hide Scheduled, ValidRequestID;
  }

  /** A step that records no reason keeps everything. */
  lemma {:induction false} StepGood(cfg: Config, obey: bool, s: Runner, x: Action)
    requires cfg.timeout > 0 && Good(cfg, obey, s) && Permitted(obey, x) && Step(cfg, s, x).j.reasons == []
    ensures Good(cfg, obey, Step(cfg, s, x))
  {
    hide Good, DoFinish, DoSchedule, Scheduled, Started, Append, Normalize, JournalGood, RecordsGood, QueueGood,
        HeldRecordGood;
    match x
    case ScheduleNext(mutating, id, t1, t2) => ScheduleKeeps(cfg, obey, s, mutating, id, t1, t2);
    case Offer(id) =>
      if InPhase(s, id, Offered) && id in s.j.records {
        EnqueueKeeps(cfg, obey, s, id, s.j.records[id].class_.MutatingTraffic?);
        EarlyPhases(cfg, obey, s, id, Refused);
        MovePhase(cfg, obey, s, id, Refused);
      }
    case FinishRefused(id, t1, t2) =>
      if InPhase(s, id, Refused) { FinishKeeps(cfg, obey, s, id, Plain(Backpressure), t1, t2, Step(cfg, s, x)); }
    case Take(mutating) => if QueueOf(s, mutating) != [] { TakeKeeps(cfg, obey, s, mutating); }
    case CheckContext(id) =>
      if InPhase(s, id, Taken) {
        var p := if s.cancelled then Cancelling else Starting;
        EarlyPhases(cfg, obey, s, id, p);
        MovePhase(cfg, obey, s, id, p);
      }
    case FinishCancelled(id, t1, t2) =>
      if InPhase(s, id, Cancelling) { FinishKeeps(cfg, obey, s, id, Plain(Canceled), t1, t2, Step(cfg, s, x)); }
    case StartRequest(id, t1, t2) =>
      if InPhase(s, id, Starting) {
        StartedClean(s.j, id, cfg.timeout, t1, t2);
        StartKeeps(cfg, obey, s, id, t1, t2);
      }
    case Return(id, a, error, panicked) =>
      if InPhase(s, id, Invoking) {
        var answer := if panicked then Plain(InternalError) else a;
        AnsweredPhase(cfg, obey, s, id, answer, error, panicked);
        MovePhase(cfg, obey, s, id, Answering(Normalize(answer, error), panicked));
      }
    case FinishAnswered(id, t1, t2) =>
      if id in s.held && s.held[id].Answering? { FinishKeeps(cfg, obey, s, id, s.held[id].a, t1, t2, Step(cfg, s, x)); }
    case WriteEvent(e, now) => StepWrite(cfg, obey, s, e, now);
    case Observe(now) => if s.j.reasons == [] { ObserveKeeps(cfg, obey, s, now); }
    case MarkPanic(id) =>
    case MarkReason(reason) =>
    case CancelRun => SameGood(cfg, obey, s, s.(cancelled := true));
  }

  lemma {:induction false} SameGood(cfg: Config, obey: bool, s: Runner, s': Runner)
    requires Good(cfg, obey, s) && s' == s.(cancelled := s'.cancelled)
    ensures Good(cfg, obey, s')
  {
    hide JournalGood, RecordGood;
  }

  lemma {:induction false} StepWrite(cfg: Config, obey: bool, s: Runner, e: Event, now: Duration)
    requires Good(cfg, obey, s) && Step(cfg, s, WriteEvent(e, now)).j.reasons == []
    ensures Good(cfg, obey, Step(cfg, s, WriteEvent(e, now)))
  {
    hide Good, Append;
    if !(e.kind.RequestScheduled? || e.kind.RequestFinished? || e.kind.RequestStarted?) {
      AppendClean(s.j, e, now);
      WriteKeeps(cfg, obey, s, e, now);
    }
  }

  /** The log stays in order and every scheduled request keeps its record, with or without reasons. */
  lemma {:induction false} StepLogged(cfg: Config, s: Runner, x: Action)
    requires JournalLogged(s.j) && Linked(s.j)
    ensures JournalLogged(Step(cfg, s, x).j) && Linked(Step(cfg, s, x).j)
  {
    hide JournalLogged, Normalize, ValidRequestID, Linked, Scheduled, Started, Finished, Append;
    match x
    case ScheduleNext(mutating, id, t1, t2) =>
      var r := NextRequest(mutating, id, SequenceOf(s, mutating) + 1);
      ScheduledKeepsLog(s.j, r, t1, t2);
      ScheduledLinked(s.j, r, t1, t2);
      MarkedLogged(s.j, "invalid_request_id");
    case FinishRefused(id, t1, t2) => FinishedLogged(s.j, id, Plain(Backpressure), t1, t2);
    case FinishCancelled(id, t1, t2) => FinishedLogged(s.j, id, Plain(Canceled), t1, t2);
    case StartRequest(id, t1, t2) =>
      StartedKeepsLog(s.j, id, cfg.timeout, t1, t2);
      StartedLinked(s.j, id, cfg.timeout, t1, t2);
    case FinishAnswered(id, t1, t2) =>
      if id in s.held && s.held[id].Answering? { FinishedLogged(s.j, id, s.held[id].a, t1, t2); }
    case WriteEvent(e, now) =>
      AppendKeepsLog(s.j, e, now);
      AppendLinked(s.j, e, now);
    case Observe(now) => ReadLogged(s.j, now);
    case MarkPanic(id) => MarkedLogged(s.j, "invoker_panic");
    case MarkReason(reason) => MarkedLogged(s.j, reason);
    case _ =>
  }

  lemma {:induction false} MarkedLogged(j: Journal, reason: string)
    requires JournalLogged(j) && Linked(j)
    ensures JournalLogged(Marked(j, reason)) && Linked(Marked(j, reason))
  {}

  lemma {:induction false} ReadLogged(j: Journal, now: Duration)
    requires JournalLogged(j) && Linked(j)
    ensures JournalLogged(Read(j, now).0) && Linked(Read(j, now).0)
  {
    hide JournalLogged;
    ReadKeepsLog(j, now);
  }

  lemma {:induction false} AppendLinked(j: Journal, e: Event, now: Duration)
    requires Linked(j)
    ensures Linked(Append(j, e, now).0)
    ensures Append(j, e, now).0.records == j.records && Append(j, e, now).0.order == j.order
  {}

  lemma {:induction false} ScheduledLinked(j: Journal, r: Request, t1: Duration, t2: Duration)
    requires Linked(j)
    ensures Linked(Scheduled(j, r, t1, t2).0)
  {
    var read := Read(j, t1).0;
    var added := read.(records := read.records[r.id := FreshRecord(r, t1)], order := read.order + [r.id]);
    AppendLinked(added, RequestEvent(RequestScheduled, r.class_, r.id, Unknown), t2);
    hide Append;
  }

  lemma {:induction false} StartedLinked(j: Journal, id: string, timeout: Duration, t1: Duration, t2: Duration)
    requires Linked(j)
    ensures Linked(Started(j, id, timeout, t1, t2).0)
  {
    var read := Read(j, t1).0;
    if id in read.records {
      var record := read.records[id].(startedOffset := t1, deadlineOffset := t1 + timeout, dispatched := true);
      AppendLinked(read.(records := read.records[id := record]),
          RequestEvent(RequestStarted, record.class_, id, Unknown), t2);
    }
    hide Append;
  }

  lemma {:induction false} FinishedLogged(j: Journal, id: string, a: Response, t1: Duration, t2: Duration)
    requires JournalLogged(j) && Linked(j)
    ensures JournalLogged(Finished(j, id, a, t1, t2).0) && Linked(Finished(j, id, a, t1, t2).0)
  {
    FinishedKeepsLog(j, id, a, t1, t2);
    var read := Read(j, t1).0;
    if id in read.records {
      AppendLinked(read, RequestEvent(RequestFinished, read.records[id].class_, id, a.outcome), t2);
    }
    hide Append, JournalLogged;
  }

  // ---- Whole runs

  ghost predicate RunInv(cfg: Config, obey: bool, s: Runner) { Linked(s.j) && Inv(cfg, obey, s) }

  lemma {:induction false} InitialInv(cfg: Config, obey: bool, maxRecords: nat, maxEvents: nat, now: Duration)
    ensures RunInv(cfg, obey, Initial(maxRecords, maxEvents, now))
  {
    var j := EmptyJournal(maxRecords, maxEvents);
    var start := Event(0, 0, RunStarted, NO_CLASS, "", Unknown, NO_MARKER);
    AppendKeepsLog(j, start, now);
    assert TerminalIDs(j.records) == {};
    assert JournalGood(j);
    var s := Initial(maxRecords, maxEvents, now);
    if s.j.reasons == [] {
      AppendClean(j, start, now);
      AppendKeepsGood(j, start, now);
    }
    hide Append, JournalGood, JournalLogged;
  }

  /** Every interleaving of any length keeps the invariant. */
  lemma {:induction false} ExecuteInv(cfg: Config, obey: bool, s: Runner, actions: seq<Action>)
    requires cfg.timeout > 0 && RunInv(cfg, obey, s) && AllPermitted(obey, actions)
    ensures RunInv(cfg, obey, Execute(cfg, s, actions))
  {
    if actions != [] {
      var front, x := actions[..|actions|-1], actions[|actions|-1];
      ExecuteInv(cfg, obey, s, front);
      var t := Execute(cfg, s, front);
      StepLogged(cfg, t, x);
      hide Good, Step, JournalLogged, Linked;
      if Step(cfg, t, x).j.reasons == [] {
        StepReasons(cfg, t, x);
        StepGood(cfg, obey, t, x);
      }
    }
  }

  // ---- Complete snapshots

  /** Two terminal records never share an identifier, a class and sequence, or a completion number. */
  lemma {:induction false} RecordsApart(j: Journal, i: nat, k: nat)
    requires JournalGood(j) && Linked(j) && i < k < |j.order|
    requires !j.records[j.order[i]].outcome.Unknown? && !j.records[j.order[k]].outcome.Unknown?
    ensures !Clashes(j.records[j.order[i]], j.records[j.order[k]])
  {
    var a, b := j.records[j.order[i]], j.records[j.order[k]];
    assert j.order[i] != j.order[k];
    assert RecordLinked(j.records, j.events, j.order[i]) && RecordLinked(j.records, j.events, j.order[k]);
    assert SequencesDiffer(a, b);
    hide LinksGood, CountsGood;
  }

  /** In a complete snapshot the only invalid records are those with a tolerated answer. */
  lemma {:induction false} CompleteIsValid(cfg: Config, obey: bool, s: Runner, startedAt: int, now: Duration)
    requires RunInv(cfg, obey, s) && SnapshotOf(s.j, startedAt, now).isComplete
    ensures var snap := SnapshotOf(s.j, startedAt, now);
      && (forall i :: 0 <= i < |snap.records| ==>
            (ValidClientRecord(snap.records[i]) <==>
                !Tolerated(snap.records[i].dispatched, snap.records[i].outcome, snap.records[i].source)))
      && (obey ==> forall i :: 0 <= i < |snap.records| ==> ValidClientRecord(snap.records[i]))
  {
    CompleteSnapshot(s.j, startedAt, now);
    RecordsListed(s.j, |s.j.order|);
    GoodParts(cfg, obey, s);
    hide SnapshotReasons, JournalGood, ValidClientRecord, Tolerated, Concluded, ValidRequestID;
    var snap := SnapshotOf(s.j, startedAt, now);
    forall i | 0 <= i < |snap.records|
      ensures ValidClientRecord(snap.records[i]) <==>
          !Tolerated(snap.records[i].dispatched, snap.records[i].outcome, snap.records[i].source)
      ensures obey ==> !Tolerated(snap.records[i].dispatched, snap.records[i].outcome, snap.records[i].source)
    {
      var id := s.j.order[i];
      var c := s.j.records[id];
      assert RecordGood(cfg, obey, c, s.held, s.j.lastOffset, CounterOf(s, c.class_));
      ConcludedValid(c, CounterOf(s, c.class_));
    }
  }

  lemma {:induction false} CompleteIsApart(cfg: Config, obey: bool, s: Runner, startedAt: int, now: Duration)
    requires RunInv(cfg, obey, s) && SnapshotOf(s.j, startedAt, now).isComplete
    ensures PairwiseApart(SnapshotOf(s.j, startedAt, now).records)
  {
    CompleteSnapshot(s.j, startedAt, now);
    RecordsListed(s.j, |s.j.order|);
    GoodParts(cfg, obey, s);
    hide SnapshotReasons, JournalGood, Clashes, RecordsGood, QueueGood;
    var snap := SnapshotOf(s.j, startedAt, now);
    forall i, k | 0 <= i < k < |snap.records| ensures !Clashes(snap.records[i], snap.records[k]) {
      RecordsApart(s.j, i, k);
    }
  }

  lemma {:induction false} CompleteCounts(cfg: Config, obey: bool, s: Runner, startedAt: int, now: Duration)
    requires RunInv(cfg, obey, s) && SnapshotOf(s.j, startedAt, now).isComplete
    ensures var snap := SnapshotOf(s.j, startedAt, now);
      Count(snap.events, IsScheduleEvent) == Count(snap.events, IsFinishEvent) == |snap.records|
  {
    CompleteSnapshot(s.j, startedAt, now);
    RecordsListed(s.j, |s.j.order|);
    GoodParts(cfg, obey, s);
    hide SnapshotReasons, RecordsGood, QueueGood, LinksGood, SequencesDistinct;
    forall x ensures x in s.j.order <==> x in TerminalIDs(s.j.records) {
      if x in s.j.order {
        var i :| 0 <= i < |s.j.order| && s.j.order[i] == x;
      }
    }
    DistinctSize(s.j.order, TerminalIDs(s.j.records));
  }

  /**
   * For every interleaving: a complete snapshot is a valid client ledger if the invoker keeps its contract, and its
   * events add up.
   */
  lemma {:induction false} RunYieldsValidLedger(cfg: Config, maxRecords: nat, maxEvents: nat, t0: Duration,
                                                actions: seq<Action>, startedAt: int, now: Duration)
    requires cfg.timeout > 0 && AllPermitted(true, actions)
    ensures var s := Execute(cfg, Initial(maxRecords, maxEvents, t0), actions);
      && Linked(s.j)
      && var snap := SnapshotOf(s.j, startedAt, now);
        snap.isComplete ==>
            ClientLedgerValid(snap.records) &&
            Count(snap.events, IsScheduleEvent) == Count(snap.events, IsFinishEvent) == |snap.records|
  {
    InitialInv(cfg, true, maxRecords, maxEvents, t0);
    ExecuteInv(cfg, true, Initial(maxRecords, maxEvents, t0), actions);
    var s := Execute(cfg, Initial(maxRecords, maxEvents, t0), actions);
    hide Inv, Execute, Initial, SnapshotOf;
    if SnapshotOf(s.j, startedAt, now).isComplete {
      CompleteIsValid(cfg, true, s, startedAt, now);
      CompleteIsApart(cfg, true, s, startedAt, now);
      CompleteCounts(cfg, true, s, startedAt, now);
    }
  }

  /** Without the contract: a record of a complete snapshot is invalid exactly when its answer is a tolerated one. */
  lemma {:induction false} RunYieldsExactValidity(cfg: Config, maxRecords: nat, maxEvents: nat, t0: Duration,
                                                  actions: seq<Action>, startedAt: int, now: Duration)
    requires cfg.timeout > 0
    ensures var s := Execute(cfg, Initial(maxRecords, maxEvents, t0), actions);
      && Linked(s.j) && LogInOrder(s.j.events, s.j.lastOffset)
      && var snap := SnapshotOf(s.j, startedAt, now);
        snap.isComplete ==>
          && PairwiseApart(snap.records)
          && Count(snap.events, IsScheduleEvent) == Count(snap.events, IsFinishEvent) == |snap.records|
          && forall i :: 0 <= i < |snap.records| ==>
               (ValidClientRecord(snap.records[i]) <==>
                   !Tolerated(snap.records[i].dispatched, snap.records[i].outcome, snap.records[i].source))
  {
    InitialInv(cfg, false, maxRecords, maxEvents, t0);
    ExecuteInv(cfg, false, Initial(maxRecords, maxEvents, t0), actions);
    var s := Execute(cfg, Initial(maxRecords, maxEvents, t0), actions);
    assert LogInOrder(s.j.events, s.j.lastOffset);
    hide Inv, Execute, Initial, SnapshotOf, LogInOrder;
    if SnapshotOf(s.j, startedAt, now).isComplete {
      CompleteIsValid(cfg, false, s, startedAt, now);
      CompleteIsApart(cfg, false, s, startedAt, now);
      CompleteCounts(cfg, false, s, startedAt, now);
    }
  }

  /**
   * In every reachable state without a reason, records and finish events refer to each other, as the steady check
   * relies on.
   */
  lemma {:induction false} ReachableLinks(cfg: Config, maxRecords: nat, maxEvents: nat, t0: Duration,
                                          actions: seq<Action>)
    requires cfg.timeout > 0
    ensures var s := Execute(cfg, Initial(maxRecords, maxEvents, t0), actions);
      s.j.reasons == [] ==> LinksGood(s.j.records, s.j.events)
  {
    InitialInv(cfg, false, maxRecords, maxEvents, t0);
    ExecuteInv(cfg, false, Initial(maxRecords, maxEvents, t0), actions);
    hide Execute, Initial, LinksGood;
  }

  // ---- The contract is needed

  lemma {:induction false} ExecuteSnoc(cfg: Config, s: Runner, actions: seq<Action>, x: Action)
    ensures Execute(cfg, s, actions + [x]) == Step(cfg, Execute(cfg, s, actions), x)
  {
    assert (actions + [x])[..|actions|] == actions;
  }

  function ZeroID(): string { seq(32, _ => '0') }

  /** One read alone in a run, answered with a. */
  function AnswerRun(a: Response): seq<Action> {
    [ScheduleNext(false, ZeroID(), 1, 1), Offer(ZeroID()), Take(false), CheckContext(ZeroID()),
        StartRequest(ZeroID(), 2, 2),
     Return(ZeroID(), a, NoError, false), FinishAnswered(ZeroID(), 3, 3)]
  }

  lemma {:induction false} NormalizeNormal(a: Response)
    requires NormalAnswer(a)
    ensures Normalize(a, NoError) == a
  {}

  function OneScheduled(): Runner {
    Runner(WithScheduled(Initial(1, 10, 0).j, NextRequest(false, ZeroID(), 1), 1, 1), map[ZeroID() := Offered], [], [],
        1, 0, false)
  }

  function OneStarted(): Runner
    requires ZeroID() in OneScheduled().j.records
  {
    OneScheduled().(j := WithStarted(OneScheduled().j, ZeroID(), 1, 2, 2), held := map[ZeroID() := Invoking])
  }

  lemma {:induction false} FirstStep()
    ensures var cfg := Config(1, 1, 1); var s0 := Initial(1, 10, 0);
      Step(cfg, s0, ScheduleNext(false, ZeroID(), 1, 1)) == OneScheduled()
  {
    var s0, r := Initial(1, 10, 0), NextRequest(false, ZeroID(), 1);
    assert ValidRequestID(ZeroID());
    assert Scheduled(s0.j, r, 1, 1) == (WithScheduled(s0.j, r, 1, 1), true);
    assert s0.held[ZeroID() := Offered] == map[ZeroID() := Offered];
  }

  lemma {:induction false} MiddleSteps()
    ensures ZeroID() in OneScheduled().j.records
    ensures var cfg, id, s1 := Config(1, 1, 1), ZeroID(), OneScheduled();
      Step(cfg, Step(cfg, Step(cfg, Step(cfg, s1, Offer(id)), Take(false)), CheckContext(id)),
          StartRequest(id, 2, 2)) == OneStarted()
  {
    var cfg, id, s1 := Config(1, 1, 1), ZeroID(), OneScheduled();
    var s2 := Step(cfg, s1, Offer(id));
    assert s2 == s1.(readQueue := [id], held := map[id := Queued]) by {
      assert s1.held[id := Queued] == map[id := Queued];
      assert [] + [id] == [id];
    }
    var s3 := Step(cfg, s2, Take(false));
    assert s3 == s1.(held := map[id := Taken]) by {
      assert s2.held[id := Taken] == map[id := Taken];
      assert [id][1..] == [];
    }
    var s4 := Step(cfg, s3, CheckContext(id));
    assert s4 == s1.(held := map[id := Starting]) by { assert s3.held[id := Starting] == map[id := Starting]; }
    assert Started(s1.j, id, 1, 2, 2) == (WithStarted(s1.j, id, 1, 2, 2), true);
    assert s4.held[id := Invoking] == map[id := Invoking];
  }

  lemma {:induction false} LastSteps(a: Response)
    requires ZeroID() in OneScheduled().j.records && NormalAnswer(a)
    ensures var cfg, id, s5 := Config(1, 1, 1), ZeroID(), OneStarted();
      Step(cfg, Step(cfg, s5, Return(id, a, NoError, false)), FinishAnswered(id, 3, 3)).j ==
          WithFinished(s5.j, id, a, 3, 3)
  {
    NormalizeNormal(a);
    hide Normalize, NormalAnswer;
    var cfg, id, s5 := Config(1, 1, 1), ZeroID(), OneStarted();
    var s6 := Step(cfg, s5, Return(id, a, NoError, false));
    assert s6 == s5.(held := s5.held[id := Answering(a, false)]);
    assert Finished(s5.j, id, a, 3, 3) == (WithFinished(s5.j, id, a, 3, 3), true);
  }

  lemma {:induction false} OneKnown()
    ensures ZeroID() in OneScheduled().j.records && ZeroID() in OneStarted().j.records
  {}

  lemma {:induction false} AnswerExecuted(a: Response)
    requires NormalAnswer(a)
    ensures ZeroID() in OneScheduled().j.records && ZeroID() in OneStarted().j.records
    ensures Execute(Config(1, 1, 1), Initial(1, 10, 0), AnswerRun(a)).j ==
        WithFinished(OneStarted().j, ZeroID(), a, 3, 3)
  {
    hide Step, Initial, Execute, OneScheduled, OneStarted, WithFinished, ZeroID, NormalAnswer;
    OneKnown();
    FirstStep();
    MiddleSteps();
    LastSteps(a);
    ExecuteSeven(Config(1, 1, 1), Initial(1, 10, 0), AnswerRun(a));
  }

  /**
   * Every answer outside the contract that survives normalising gives a complete snapshot which the ledger check
   * refuses.
   */
  lemma {:induction false} ContractNeeded(a: Response)
    requires NormalAnswer(a) && Tolerated(true, a.outcome, a.source)
    ensures RefusedRun(a)
  {
    hide Step, Initial, Execute, AnswerRun, OneScheduled, OneStarted, WithFinished, ZeroID, ValidClientRecord,
        SnapshotReasons, NormalAnswer;
    RunYieldsExactValidity(Config(1, 1, 1), 1, 10, 0, AnswerRun(a), 0, 4);
    AnswerExecuted(a);
    var j := WithFinished(OneStarted().j, ZeroID(), a, 3, 3);
    AnswerJournal(a);
    CompleteSnapshot(j, 0, 4);
    RecordsListed(j, 1);
  }

  lemma {:induction false} AnswerJournal(a: Response)
    requires ZeroID() in OneScheduled().j.records && !a.outcome.Unknown?
    ensures var j := WithFinished(OneStarted().j, ZeroID(), a, 3, 3);
      && j.reasons == [] && j.order == [ZeroID()] && j.lastOffset == 3 && ZeroID() in j.records
      && j.records[ZeroID()].dispatched && j.records[ZeroID()].outcome == a.outcome &&
           j.records[ZeroID()].source == a.source
  {}

  const UNNAMED := Response(Success, "r", DataCenterA, "", 1, false)

  /** The run with this answer has a complete snapshot whose only record the ledger check refuses. */
  predicate RefusedRun(a: Response) {
    var s := Execute(Config(1, 1, 1), Initial(1, 10, 0), AnswerRun(a));
    Linked(s.j) && var snap := SnapshotOf(s.j, 0, 4);
        snap.isComplete && |snap.records| == 1 && !ValidClientRecord(snap.records[0])
  }

  /** Both kinds of breach occur: a success that names no source, and a backpressure that the invoker itself reports. */
  lemma {:induction false} BothBreaches()
    ensures RefusedRun(UNNAMED) && RefusedRun(Plain(Backpressure))
  {
    hide Execute, Initial, AnswerRun, SnapshotOf, ValidClientRecord;
    ContractNeeded(UNNAMED);
    ContractNeeded(Plain(Backpressure));
  }

  lemma {:induction false} ExecuteSeven(cfg: Config, s: Runner, a: seq<Action>)
    requires |a| == 7
    ensures Execute(cfg, s, a) ==
        Step(cfg,
        Step(cfg, Step(cfg, Step(cfg, Step(cfg, Step(cfg, Step(cfg, s, a[0]), a[1]), a[2]), a[3]), a[4]), a[5]), a[6])
  {
    hide Step;
    ExecuteSnoc(cfg, s, [], a[0]);
    ExecuteSnoc(cfg, s, a[..1], a[1]);
    ExecuteSnoc(cfg, s, a[..2], a[2]);
    ExecuteSnoc(cfg, s, a[..3], a[3]);
    ExecuteSnoc(cfg, s, a[..4], a[4]);
    ExecuteSnoc(cfg, s, a[..5], a[5]);
    ExecuteSnoc(cfg, s, a[..6], a[6]);
    assert [] + [a[0]] == a[..1] && a[..1] + [a[1]] == a[..2] && a[..2] + [a[2]] == a[..3] && a[..3] + [a[3]] == a[..4];
    assert a[..4] + [a[4]] == a[..5] && a[..5] + [a[5]] == a[..6] && a[..6] + [a[6]] == a;
  }
}
