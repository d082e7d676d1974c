/** Every step of the runner keeps its invariant, hence so does every interleaving. */
module RunnerInvariant {
  import opened ProbeTypes
  import opened ProbeJournal
  import opened JournalFacts
  import opened ProbeRunner

  lemma {:induction false} GoodParts(cfg: Config, obey: bool, s: Runner)
    requires Good(cfg, obey, s)
    ensures JournalGood(s.j) && 0 <= s.j.lastOffset && RecordsGood(cfg, obey, s) && HeldGood(s) && QueueGood(s, true)
    ensures QueueGood(s, false)
  {}

  lemma {:induction false} GoodWhole(cfg: Config, obey: bool, s: Runner)
    requires JournalGood(s.j) && 0 <= s.j.lastOffset && RecordsGood(cfg, obey, s) && HeldGood(s) && QueueGood(s, true)
    requires QueueGood(s, false)
    ensures Good(cfg, obey, s)
  {}

  /** A record is not disturbed by time passing, counters growing and other requests moving. */
  lemma {:induction false} RecordFrame(cfg: Config, obey: bool, c: ClientRecord, held: map<string, Phase>,
                                       held': map<string, Phase>,
                    last: Duration, last': Duration, counter: nat, counter': nat)
    requires RecordGood(cfg, obey, c, held, last, counter) && last <= last' && counter <= counter'
    requires c.requestID in held' ==> c.requestID in held && held'[c.requestID] == held[c.requestID]
    ensures RecordGood(cfg, obey, c, held', last', counter')
  {
    hide ValidRequestID, Concluded, Unsent, NormalAnswer;
  }

  ghost predicate SameOutside(a: map<string, Phase>, b: map<string, Phase>, id: string) {
    forall x :: x in b && x != id ==> x in a && b[x] == a[x]
  }

  /** All records but one keep their state; that one is given. */
  lemma {:induction false} RecordsStep(cfg: Config, obey: bool, s: Runner, s': Runner, id: string)
    requires RecordsGood(cfg, obey, s) && JournalGood(s.j)
    requires id in s'.j.records && s'.j.records == s.j.records[id := s'.j.records[id]]
    requires s'.j.records[id].requestID == id
    requires s.j.lastOffset <= s'.j.lastOffset && s.readSequence <= s'.readSequence
    requires s.mutatingSequence <= s'.mutatingSequence
    requires SameOutside(s.held, s'.held, id)
    requires RecordGood(cfg, obey, s'.j.records[id], s'.held, s'.j.lastOffset, CounterOf(s', s'.j.records[id].class_))
    ensures RecordsGood(cfg, obey, s')
  {
    RecordIDs(s.j);
    hide RecordGood, JournalGood;
    forall x | x in s'.j.records ensures RecordGood(cfg, obey, s'.j.records[x], s'.held, s'.j.lastOffset,
        CounterOf(s', s'.j.records[x].class_)) {
      if x != id {
        var c := s.j.records[x];
        assert c.requestID == x;
        RecordFrame(cfg, obey, c, s.held, s'.held, s.j.lastOffset, s'.j.lastOffset, CounterOf(s, c.class_),
            CounterOf(s', c.class_));
      }
    }
  }

  /** A queue is not disturbed by a request that is not in it. */
  lemma {:induction false} QueueFrame(s: Runner, s': Runner, mutating: bool, id: string)
    requires QueueGood(s, mutating) && QueueOf(s', mutating) == QueueOf(s, mutating)
    requires forall x :: x in s.held && x != id ==> x in s'.held && s'.held[x] == s.held[x]
    requires forall x :: x in s.j.records ==> x in s'.j.records && s'.j.records[x].class_ == s.j.records[x].class_
    requires !InPhase(s, id, Queued)
    ensures QueueGood(s', mutating)
  {}

  ghost predicate OtherwiseHeld(s: Runner, s': Runner, id: string) {
    && SameOutside(s.held, s'.held, id) && SameOutside(s'.held, s.held, id)
    && s'.readQueue == s.readQueue && s'.mutatingQueue == s.mutatingQueue
  }

  /** One request moves outside the queues and its record may be rewritten. */
  lemma {:induction false} MoveOne(cfg: Config, obey: bool, s: Runner, s': Runner, id: string)
    requires Good(cfg, obey, s) && JournalGood(s'.j) && 0 <= s'.j.lastOffset
    requires id in s.j.records && id in s'.j.records && s'.j.records == s.j.records[id := s'.j.records[id]]
    requires s'.j.records[id].requestID == id && s'.j.records[id].class_ == s.j.records[id].class_
    requires s.j.lastOffset <= s'.j.lastOffset && s.readSequence == s'.readSequence
    requires s.mutatingSequence == s'.mutatingSequence
    requires OtherwiseHeld(s, s', id) && !InPhase(s, id, Queued)
    requires RecordGood(cfg, obey, s'.j.records[id], s'.held, s'.j.lastOffset, CounterOf(s', s'.j.records[id].class_))
    ensures Good(cfg, obey, s')
  {
    hide Good, JournalGood, RecordsGood, RecordGood, QueueGood;
    GoodParts(cfg, obey, s);
    RecordsStep(cfg, obey, s, s', id);
    QueueFrame(s, s', true, id);
    QueueFrame(s, s', false, id);
    GoodWhole(cfg, obey, s');
  }

  lemma {:induction false} HeldRecord(cfg: Config, obey: bool, s: Runner, id: string)
    requires Good(cfg, obey, s) && id in s.held
    ensures id in s.j.records && s.j.records[id].requestID == id
    ensures RecordGood(cfg, obey, s.j.records[id], s.held, s.j.lastOffset, CounterOf(s, s.j.records[id].class_))
  {
    RecordIDs(s.j);
  }

  // ---- Steps that leave the journal alone

  /** From one phase to another in which the record must satisfy no more. */
  lemma {:induction false} MovePhase(cfg: Config, obey: bool, s: Runner, id: string, p: Phase)
    requires Good(cfg, obey, s) && id in s.held && !s.held[id].Queued?
    requires HeldRecordGood(cfg, obey, s, id, p)
    ensures Good(cfg, obey, s.(held := s.held[id := p]))
  {
    hide Good, JournalGood, RecordGood;
    GoodParts(cfg, obey, s);
    HeldRecord(cfg, obey, s, id);
    MoveOne(cfg, obey, s, s.(held := s.held[id := p]), id);
  }

  ghost predicate HeldRecordGood(cfg: Config, obey: bool, s: Runner, id: string, p: Phase) {
    && id in s.j.records
    && RecordGood(cfg, obey, s.j.records[id], s.held[id := p], s.j.lastOffset, CounterOf(s, s.j.records[id].class_))
  }

  lemma {:induction false} EarlyPhases(cfg: Config, obey: bool, s: Runner, id: string, p: Phase)
    requires Good(cfg, obey, s) && id in s.held && Early(s.held[id]) && Early(p)
    ensures HeldRecordGood(cfg, obey, s, id, p)
  {
    HeldRecord(cfg, obey, s, id);
    hide ValidRequestID, Unsent, Concluded;
  }

  lemma {:induction false} AnsweredPhase(cfg: Config, obey: bool, s: Runner, id: string, a: Response,
                                         error: ContextError, panicked: bool)
    requires Good(cfg, obey, s) && InPhase(s, id, Invoking) && (obey ==> Obeys(a))
    ensures HeldRecordGood(cfg, obey, s, id, Answering(Normalize(a, error), panicked))
  {
    HeldRecord(cfg, obey, s, id);
    NormalizeIsNormal(a, error);
    if obey { NormalizeObeys(a, error); }
    hide ValidRequestID, Unsent, Concluded, Normalize, NormalAnswer, Tolerated;
  }

  lemma {:induction false} EnqueueKeeps(cfg: Config, obey: bool, s: Runner, id: string, mutating: bool)
    requires Good(cfg, obey, s) && InPhase(s, id, Offered) && id in s.j.records
    requires mutating == s.j.records[id].class_.MutatingTraffic?
    ensures Good(cfg, obey, WithQueue(s, mutating, QueueOf(s, mutating) + [id]).(held := s.held[id := Queued]))
  {
    hide Good, RecordGood, RecordsGood, JournalGood, QueueGood;
    GoodParts(cfg, obey, s);
    EarlyPhases(cfg, obey, s, id, Queued);
    HeldRecord(cfg, obey, s, id);
    var s' := WithQueue(s, mutating, QueueOf(s, mutating) + [id]).(held := s.held[id := Queued]);
    RecordsStep(cfg, obey, s, s', id);
    QueueFrame(s, s', !mutating, id);
    KnownClass(cfg, obey, s, id);
    QueueAppend(s, s', mutating, id);
    GoodWhole(cfg, obey, s');
  }

  lemma {:induction false} KnownClass(cfg: Config, obey: bool, s: Runner, id: string)
    requires Good(cfg, obey, s) && id in s.j.records
    ensures s.j.records[id].class_ == ClassOf(s.j.records[id].class_.MutatingTraffic?)
  {
    hide ValidRequestID, Concluded, Unsent, InFlight, JournalGood, QueueGood;
  }

  lemma {:induction false} QueueAppend(s: Runner, s': Runner, mutating: bool, id: string)
    requires QueueGood(s, mutating) && QueueOf(s', mutating) == QueueOf(s, mutating) + [id]
    requires s'.held == s.held[id := Queued] && s'.j == s.j && InPhase(s, id, Offered)
    requires id in s.j.records && s.j.records[id].class_ == ClassOf(mutating)
    ensures QueueGood(s', mutating)
  {}

  lemma {:induction false} TakeKeeps(cfg: Config, obey: bool, s: Runner, mutating: bool)
    requires Good(cfg, obey, s) && QueueOf(s, mutating) != []
    ensures var q := QueueOf(s, mutating);
        Good(cfg, obey, WithQueue(s, mutating, q[1..]).(held := s.held[q[0] := Taken]))
  {
    hide Good, RecordGood, RecordsGood, JournalGood, QueueGood;
    var q := QueueOf(s, mutating);
    var id := q[0];
    GoodParts(cfg, obey, s);
    QueueHead(s, mutating);
    EarlyPhases(cfg, obey, s, id, Taken);
    HeldRecord(cfg, obey, s, id);
    var s' := WithQueue(s, mutating, q[1..]).(held := s.held[id := Taken]);
    RecordsStep(cfg, obey, s, s', id);
    QueueTail(s, s', mutating);
    QueueOther(s, s', !mutating, id);
    GoodWhole(cfg, obey, s');
  }

  lemma {:induction false} QueueHead(s: Runner, mutating: bool)
    requires QueueGood(s, mutating) && QueueOf(s, mutating) != []
    ensures var id := QueueOf(s, mutating)[0];
        InPhase(s, id, Queued) && id in s.j.records && s.j.records[id].class_ == ClassOf(mutating)
  {}

  lemma {:induction false} QueueTail(s: Runner, s': Runner, mutating: bool)
    requires QueueGood(s, mutating) && QueueOf(s, mutating) != [] && QueueOf(s', mutating) == QueueOf(s, mutating)[1..]
    requires s'.held == s.held[QueueOf(s, mutating)[0] := Taken] && s'.j == s.j
    ensures QueueGood(s', mutating)
  {
    var q := QueueOf(s, mutating);
    forall i | 0 <= i < |q[1..]| ensures q[1..][i] == q[i+1] && q[i+1] != q[0] {}
  }

  /** The other queue holds requests of the other class, so it does not hold this one. */
  lemma {:induction false} QueueOther(s: Runner, s': Runner, other: bool, id: string)
    requires QueueGood(s, other) && QueueOf(s', other) == QueueOf(s, other) && s'.j == s.j
    requires id in s.j.records && s.j.records[id].class_ == ClassOf(!other) && s'.held == s.held[id := Taken]
    ensures QueueGood(s', other)
  {
    var q := QueueOf(s, other);
    forall i | 0 <= i < |q| ensures q[i] != id {
      assert s.j.records[q[i]].class_ == ClassOf(other);
    }
  }

  // ---- Steps that write the journal

  lemma {:induction false} ScheduleKeeps(cfg: Config, obey: bool, s: Runner, mutating: bool, id: string, t1: Duration,
                                         t2: Duration)
    requires Good(cfg, obey, s) && DoSchedule(s, mutating, id, t1, t2).j.reasons == []
    ensures Good(cfg, obey, DoSchedule(s, mutating, id, t1, t2))
  {
    hide Good, DoSchedule, RecordsGood, RecordGood, JournalGood, QueueGood;
    var r := NextRequest(mutating, id, SequenceOf(s, mutating) + 1);
    var s' := DoSchedule(s, mutating, id, t1, t2);
    ScheduleForm(s, mutating, id, t1, t2);
    GoodParts(cfg, obey, s);
    FreshSequence(cfg, obey, s, r, t1);
    ScheduledKeepsGood(s.j, r, t1, t2);
    FreshGood(cfg, obey, s', r, t1);
    RecordsStep(cfg, obey, s, s', id);
    QueueFrame(s, s', true, id);
    QueueFrame(s, s', false, id);
    GoodWhole(cfg, obey, s');
  }

  lemma {:induction false} ScheduleForm(s: Runner, mutating: bool, id: string, t1: Duration, t2: Duration)
    requires DoSchedule(s, mutating, id, t1, t2).j.reasons == []
    ensures var n := SequenceOf(s, mutating) + 1;
      var r, s' := NextRequest(mutating, id, n), DoSchedule(s, mutating, id, t1, t2);
      && ValidRequestID(id) && id !in s.j.records && s.j.lastOffset <= t1 <= t2
      && s' == WithSequence(s, mutating, n).(j := WithScheduled(s.j, r, t1, t2), held := s.held[id := Offered])
  {
    var r := NextRequest(mutating, id, SequenceOf(s, mutating) + 1);
    if ValidRequestID(id) { ScheduledClean(s.j, r, t1, t2); }
    hide Scheduled, ValidRequestID;
  }

  lemma {:induction false} FreshSequence(cfg: Config, obey: bool, s: Runner, r: Request, t1: Duration)
    requires RecordsGood(cfg, obey, s) && r.sequence == CounterOf(s, r.class_) + 1
    ensures forall x :: x in s.j.records ==> SequencesDiffer(s.j.records[x], FreshRecord(r, t1))
  {
    hide RecordGood;
    forall x | x in s.j.records ensures SequencesDiffer(s.j.records[x], FreshRecord(r, t1)) {
      SequenceBelow(cfg, obey, s, x, r, t1);
    }
  }

  lemma {:induction false} SequenceBelow(cfg: Config, obey: bool, s: Runner, x: string, r: Request, t1: Duration)
    requires x in s.j.records
    requires RecordGood(cfg, obey, s.j.records[x], s.held, s.j.lastOffset, CounterOf(s, s.j.records[x].class_))
    requires r.class_ == s.j.records[x].class_ ==> CounterOf(s, r.class_) < r.sequence
    ensures SequencesDiffer(s.j.records[x], FreshRecord(r, t1))
  {}

  lemma {:induction false} FreshGood(cfg: Config, obey: bool, s': Runner, r: Request, t1: Duration)
    requires ValidRequestID(r.id) && ValidClass(r.class_) && 1 <= r.sequence <= CounterOf(s', r.class_)
    requires r.idempotencyKey == (if r.class_.MutatingTraffic? then r.id else "")
    requires InPhase(s', r.id, Offered) && 0 <= t1 <= s'.j.lastOffset
    ensures RecordGood(cfg, obey, FreshRecord(r, t1), s'.held, s'.j.lastOffset, CounterOf(s', r.class_))
  {
    hide ValidRequestID;
  }

  /** A terminal answer concludes the record it is written to. */
  lemma {:induction false} FinishedGood(cfg: Config, obey: bool, c: ClientRecord, held: map<string, Phase>,
                                        last: Duration, counter: nat,
                     a: Response, now: Duration, completion: nat, held': map<string, Phase>, last': Duration)
    requires cfg.timeout > 0 && RecordGood(cfg, obey, c, held, last, counter) && c.outcome.Unknown?
    requires c.requestID in held
    requires last <= now <= last' && completion > 0
    requires held[c.requestID].Answering? ==> a == held[c.requestID].a
    requires !held[c.requestID].Answering? ==>
        Early(held[c.requestID]) && (a == Plain(Backpressure) || a == Plain(Canceled))
    requires c.requestID in held' ==> held'[c.requestID].Panicking?
    ensures RecordGood(cfg, obey, Answered(c, a, now).(completionSequence := completion), held', last', counter)
    ensures !a.outcome.Unknown?
  {
    hide ValidRequestID;
  }

  lemma {:induction false} FinishKeeps(cfg: Config, obey: bool, s: Runner, id: string, a: Response, t1: Duration,
                                       t2: Duration, s': Runner)
    requires cfg.timeout > 0 && Good(cfg, obey, s) && id in s.held
    requires s.held[id].Answering? ==> a == s.held[id].a
    requires !s.held[id].Answering? ==>
        (s.held[id].Refused? || s.held[id].Cancelling?) && (a == Plain(Backpressure) || a == Plain(Canceled))
    requires var d := DoFinish(s, id, a, t1, t2); s' == d || s' == d.(held := d.held[id := Panicking])
    requires s'.j.reasons == []
    ensures Good(cfg, obey, s')
  {
    hide Good, JournalGood, RecordGood, DoFinish;
    FinishForm(s, id, a, t1, t2);
    GoodParts(cfg, obey, s);
    HeldRecord(cfg, obey, s, id);
    FinishedGood(cfg, obey, s.j.records[id], s.held, s.j.lastOffset, CounterOf(s, s.j.records[id].class_), a, t1,
        |s.j.events| + 1, s'.held, t2);
    FinishedKeepsGood(s.j, id, a, t1, t2);
    MoveOne(cfg, obey, s, s', id);
  }

  lemma {:induction false} FinishForm(s: Runner, id: string, a: Response, t1: Duration, t2: Duration)
    requires DoFinish(s, id, a, t1, t2).j.reasons == []
    ensures id in s.j.records && s.j.records[id].outcome.Unknown? && s.j.lastOffset <= t1 <= t2
    ensures DoFinish(s, id, a, t1, t2) == s.(j := WithFinished(s.j, id, a, t1, t2), held := s.held - {id})
  {
    FinishedClean(s.j, id, a, t1, t2);
    hide Finished;
  }

  lemma {:induction false} StartKeeps(cfg: Config, obey: bool, s: Runner, id: string, t1: Duration, t2: Duration)
    requires cfg.timeout > 0 && Good(cfg, obey, s) && InPhase(s, id, Starting)
    requires Started(s.j, id, cfg.timeout, t1, t2).0.reasons == []
    ensures Good(cfg, obey, s.(j := Started(s.j, id, cfg.timeout, t1, t2).0, held := s.held[id := Invoking]))
  {
    hide Good, Started, JournalGood, RecordGood;
    GoodParts(cfg, obey, s);
    HeldRecord(cfg, obey, s, id);
    StartedClean(s.j, id, cfg.timeout, t1, t2);
    var s' := s.(j := WithStarted(s.j, id, cfg.timeout, t1, t2), held := s.held[id := Invoking]);
    StartedGood(cfg, obey, s.j.records[id], s.held, s.j.lastOffset, CounterOf(s, s.j.records[id].class_), t1, s'.held,
        t2);
    StartedKeepsGood(s.j, id, cfg.timeout, t1, t2);
    MoveOne(cfg, obey, s, s', id);
  }

  lemma {:induction false} StartedGood(cfg: Config, obey: bool, c: ClientRecord, held: map<string, Phase>,
                                       last: Duration, counter: nat,
                    now: Duration, held': map<string, Phase>, last': Duration)
    requires RecordGood(cfg, obey, c, held, last, counter) && c.requestID in held && held[c.requestID].Starting?
    requires last <= now <= last' && c.requestID in held' && held'[c.requestID].Invoking?
    ensures c.outcome.Unknown?
    ensures RecordGood(cfg, obey, StartedRecord(c, cfg.timeout, now), held', last', counter)
  {
    hide ValidRequestID;
  }

  lemma {:induction false} WriteKeeps(cfg: Config, obey: bool, s: Runner, e: Event, now: Duration)
    requires Good(cfg, obey, s) && !e.kind.RequestScheduled? && !e.kind.RequestFinished?
    requires Append(s.j, e, now).0.reasons == []
    ensures Good(cfg, obey, s.(j := Append(s.j, e, now).0))
  {
    AppendClean(s.j, e, now);
    AppendKeepsGood(s.j, e, now);
    var s' := s.(j := Append(s.j, e, now).0);
    hide Append, JournalGood, RecordGood;
    forall x | x in s.j.records ensures RecordGood(cfg, obey, s.j.records[x], s.held, now,
        CounterOf(s, s.j.records[x].class_)) {
      var c := s.j.records[x];
      RecordFrame(cfg, obey, c, s.held, s.held, s.j.lastOffset, now, CounterOf(s, c.class_), CounterOf(s, c.class_));
    }
  }

  lemma {:induction false} ObserveKeeps(cfg: Config, obey: bool, s: Runner, now: Duration)
    requires Good(cfg, obey, s) && Read(s.j, now).0.reasons == []
    ensures Good(cfg, obey, s.(j := Read(s.j, now).0))
  {
    ReadClean(s.j, now);
    var s' := s.(j := Read(s.j, now).0);
    assert JournalGood(s'.j);
    hide Read, JournalGood, RecordGood;
    forall x | x in s.j.records ensures RecordGood(cfg, obey, s.j.records[x], s.held, now,
        CounterOf(s, s.j.records[x].class_)) {
      var c := s.j.records[x];
      RecordFrame(cfg, obey, c, s.held, s.held, s.j.lastOffset, now, CounterOf(s, c.class_), CounterOf(s, c.class_));
    }
  }
}
