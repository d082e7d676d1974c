/** What every journal operation keeps as long as no incompleteness reason was recorded. */
module JournalFacts {
  import opened ProbeTypes
  import opened ProbeJournal
  import opened Sorting

  // ---- Closed forms: an operation that leaves no reason behind did all of its work

  lemma {:induction false} ReadClean(j: Journal, now: Duration)
    requires Read(j, now).0.reasons == []
    ensures j.reasons == [] && j.lastOffset <= now && Read(j, now) == (j.(lastOffset := now), true)
  {}

  lemma {:induction false} AppendClean(j: Journal, e: Event, now: Duration)
    requires Append(j, e, now).0.reasons == []
    ensures j.reasons == [] && j.lastOffset <= now
    ensures Append(j, e, now) ==
        (j.(lastOffset := now, events := j.events + [e.(sequence := |j.events| + 1, offset := now)]), true)
  {
    if |j.events| < j.maxEvents { ReadClean(j, now); }
  }

  function WithScheduled(j: Journal, r: Request, t1: Duration, t2: Duration): Journal {
    j.(lastOffset := t2, records := j.records[r.id := FreshRecord(r, t1)], order := j.order + [r.id],
       events :=
           j.events +
           [RequestEvent(RequestScheduled, r.class_, r.id, Unknown).(sequence := |j.events| + 1, offset := t2)])
  }

  lemma {:induction false} ScheduledClean(j: Journal, r: Request, t1: Duration, t2: Duration)
    requires Scheduled(j, r, t1, t2).0.reasons == []
    ensures j.reasons == [] && r.id !in j.records && j.lastOffset <= t1 <= t2
    ensures Scheduled(j, r, t1, t2) == (WithScheduled(j, r, t1, t2), true)
  {
    if r.id !in j.records && |j.records| < j.maxRecords {
      var (read, ok) := Read(j, t1);
      if ok {
        var added := read.(records := read.records[r.id := FreshRecord(r, t1)], order := read.order + [r.id]);
        AppendClean(added, RequestEvent(RequestScheduled, r.class_, r.id, Unknown), t2);
      }
    }
  }

  function StartedRecord(c: ClientRecord, timeout: Duration, now: Duration): ClientRecord {
    c.(startedOffset := now, deadlineOffset := now + timeout, dispatched := true)
  }

  function WithStarted(j: Journal, id: string, timeout: Duration, t1: Duration, t2: Duration): Journal
    requires id in j.records
  {
    j.(lastOffset := t2, records := j.records[id := StartedRecord(j.records[id], timeout, t1)],
       events :=
           j.events +
           [RequestEvent(RequestStarted, j.records[id].class_, id, Unknown).(sequence := |j.events| + 1, offset := t2)])
  }

  lemma {:induction false} StartedClean(j: Journal, id: string, timeout: Duration, t1: Duration, t2: Duration)
    requires Started(j, id, timeout, t1, t2).0.reasons == []
    ensures j.reasons == [] && id in j.records && j.lastOffset <= t1 <= t2
    ensures Started(j, id, timeout, t1, t2) == (WithStarted(j, id, timeout, t1, t2), true)
  {
    if id in j.records {
      var (read, ok) := Read(j, t1);
      if ok {
        var record := read.records[id].(startedOffset := t1, deadlineOffset := t1 + timeout, dispatched := true);
        AppendClean(read.(records := read.records[id := record]),
            RequestEvent(RequestStarted, record.class_, id, Unknown), t2);
      }
    }
  }

  function FinishedRecord(j: Journal, id: string, a: Response, now: Duration): ClientRecord
    requires id in j.records
  {
    Answered(j.records[id], a, now).(completionSequence := |j.events| + 1)
  }

  function WithFinished(j: Journal, id: string, a: Response, t1: Duration, t2: Duration): Journal
    requires id in j.records
  {
    j.(lastOffset := t2, records := j.records[id := FinishedRecord(j, id, a, t1)],
       events :=
           j.events +
           [RequestEvent(RequestFinished, j.records[id].class_, id, a.outcome).(sequence :=
           |j.events| + 1, offset := t2)])
  }

  lemma {:induction false} FinishedClean(j: Journal, id: string, a: Response, t1: Duration, t2: Duration)
    requires Finished(j, id, a, t1, t2).0.reasons == []
    ensures j.reasons == [] && id in j.records && j.records[id].outcome.Unknown? && j.lastOffset <= t1 <= t2
    ensures Finished(j, id, a, t1, t2) == (WithFinished(j, id, a, t1, t2), true)
  {
    if id in j.records && j.records[id].outcome.Unknown? {
      var (read, ok) := Read(j, t1);
      if ok {
        AppendClean(read, RequestEvent(RequestFinished, j.records[id].class_, id, a.outcome), t2);
      }
    }
  }

  // ---- The event log

  /** Sequence numbers are 1..n, offsets never decrease and none is after the last reading. */
  ghost predicate LogInOrder(events: seq<Event>, last: Duration) {
    && 0 <= last
    && (forall i :: 0 <= i < |events| ==> events[i].sequence == i + 1 && 0 <= events[i].offset <= last)
    && (forall i, k :: 0 <= i < k < |events| ==> events[i].offset <= events[k].offset)
  }

  lemma {:induction false} LogLater(events: seq<Event>, last: Duration, now: Duration)
    requires LogInOrder(events, last) && last <= now
    ensures LogInOrder(events, now)
  {}

  lemma {:induction false} LogAppend(events: seq<Event>, last: Duration, e: Event, now: Duration)
    requires LogInOrder(events, last) && last <= now
    ensures LogInOrder(events + [e.(sequence := |events| + 1, offset := now)], now)
  {}

  ghost predicate JournalLogged(j: Journal) { LogInOrder(j.events, j.lastOffset) }

  lemma {:induction false} ReadKeepsLog(j: Journal, now: Duration)
    requires JournalLogged(j)
    ensures JournalLogged(Read(j, now).0)
  {
    if j.lastOffset <= now { LogLater(j.events, j.lastOffset, now); }
    hide LogInOrder;
  }

  lemma {:induction false} AppendKeepsLog(j: Journal, e: Event, now: Duration)
    requires JournalLogged(j)
    ensures JournalLogged(Append(j, e, now).0)
  {
    ReadKeepsLog(j, now);
    if j.lastOffset <= now { LogAppend(j.events, j.lastOffset, e, now); }
    hide LogInOrder;
  }

  lemma {:induction false} ScheduledKeepsLog(j: Journal, r: Request, t1: Duration, t2: Duration)
    requires JournalLogged(j)
    ensures JournalLogged(Scheduled(j, r, t1, t2).0)
  {
    ReadKeepsLog(j, t1);
    var read := Read(j, t1).0;
    var added := read.(records := read.records[r.id := FreshRecord(r, t1)], order := read.order + [r.id]);
    AppendKeepsLog(added, RequestEvent(RequestScheduled, r.class_, r.id, Unknown), t2);
    hide Append, LogInOrder, Read;
  }

  lemma {:induction false} StartedKeepsLog(j: Journal, id: string, timeout: Duration, t1: Duration, t2: Duration)
    requires JournalLogged(j)
    ensures JournalLogged(Started(j, id, timeout, t1, t2).0)
  {
    ReadKeepsLog(j, t1);
    var read := Read(j, t1).0;
    if id in read.records {
      var record := read.records[id].(startedOffset := t1, deadlineOffset := t1 + timeout, dispatched := true);
      AppendKeepsLog(read.(records := read.records[id := record]),
          RequestEvent(RequestStarted, record.class_, id, Unknown), t2);
    }
    hide Append, LogInOrder;
  }

  lemma {:induction false} FinishedKeepsLog(j: Journal, id: string, a: Response, t1: Duration, t2: Duration)
    requires JournalLogged(j)
    ensures JournalLogged(Finished(j, id, a, t1, t2).0)
  {
    ReadKeepsLog(j, t1);
    if id in j.records {
      AppendKeepsLog(Read(j, t1).0, RequestEvent(RequestFinished, j.records[id].class_, id, a.outcome), t2);
    }
    hide Append, LogInOrder;
  }

  // ---- Records and events

  ghost predicate OrderGood(j: Journal) {
    NoRepeats(j.order) && forall id :: id in j.order <==> id in j.records
  }

  predicate FinishOf(e: Event, c: ClientRecord) {
    e.kind.RequestFinished? && e.requestID == c.requestID && e.class_ == c.class_ && e.outcome == c.outcome
  }

  type Records = map<string, ClientRecord>

  predicate Terminal(records: Records, id: string) { id in records && !records[id].outcome.Unknown? }

  predicate RecordLinked(records: Records, events: seq<Event>, id: string)
    requires id in records
  {
    && records[id].requestID == id
    && (!records[id].outcome.Unknown? ==>
          1 <= records[id].completionSequence <= |events| &&
              FinishOf(events[records[id].completionSequence - 1], records[id]))
  }

  predicate EventLinked(records: Records, events: seq<Event>, k: nat)
    requires k < |events|
  {
    events[k].kind.RequestFinished? ==>
      Terminal(records, events[k].requestID) && records[events[k].requestID].completionSequence == k + 1
  }

  /** Terminal records and finish events refer to each other. */
  ghost predicate LinksGood(records: Records, events: seq<Event>) {
    && (forall id :: id in records ==> RecordLinked(records, events, id))
    && (forall k: nat :: k < |events| ==> EventLinked(records, events, k))
  }

  predicate IsScheduleEvent(e: Event) { e.kind.RequestScheduled? }
  predicate IsFinishEvent(e: Event) { e.kind.RequestFinished? }

  function TerminalIDs(records: Records): set<string> { set id | Terminal(records, id) && id in records }

  ghost predicate CountsGood(j: Journal) {
    Count(j.events, IsScheduleEvent) == |j.order| && Count(j.events, IsFinishEvent) == |TerminalIDs(j.records)|
  }

  ghost predicate SequencesDistinct(j: Journal) {
    forall id, id' :: id in j.records && id' in j.records && id != id' ==>
        SequencesDiffer(j.records[id], j.records[id'])
  }

  predicate SequencesDiffer(a: ClientRecord, b: ClientRecord) { a.class_ == b.class_ ==> a.sequence != b.sequence }

  ghost predicate JournalGood(j: Journal) {
    OrderGood(j) && LinksGood(j.records, j.events) && CountsGood(j) && SequencesDistinct(j)
  }

  lemma {:induction false} CountSnoc(events: seq<Event>, e: Event, p: Event -> bool)
    ensures Count(events + [e], p) == Count(events, p) + if p(e) then 1 else 0
  {
    assert (events + [e])[..|events|] == events;
  }

  /** Records keep their links when the only new terminal record is the one the new event finishes. */
  lemma {:induction false} LinksStep(records: Records, events: seq<Event>, records': Records, e: Event)
    requires LinksGood(records, events)
    requires forall id :: id in records' ==> records'[id].requestID == id
    requires forall id :: Terminal(records, id) ==> id in records' && records'[id] == records[id]
    requires forall id :: Terminal(records', id) && !Terminal(records, id) ==>
               FinishOf(e, records'[id]) && records'[id].completionSequence == |events| + 1
    requires e.kind.RequestFinished? ==> Terminal(records', e.requestID) && !Terminal(records, e.requestID)
    ensures LinksGood(records', events + [e])
  {
    var events' := events + [e];
    forall id | id in records' ensures RecordLinked(records', events', id) {
      if Terminal(records, id) {
        assert RecordLinked(records, events, id);
      }
    }
    forall k: nat | k < |events'| ensures EventLinked(records', events', k) {
      if k < |events| {
        assert EventLinked(records, events, k);
      }
    }
  }

  lemma {:induction false} CountsStep(j: Journal, j': Journal, e: Event)
    requires CountsGood(j) && j'.events == j.events + [e]
    requires |j'.order| == |j.order| + if e.kind.RequestScheduled? then 1 else 0
    requires if e.kind.RequestFinished?
        then e.requestID !in TerminalIDs(j.records) && TerminalIDs(j'.records) == TerminalIDs(j.records) + {e.requestID}
        else TerminalIDs(j'.records) == TerminalIDs(j.records)
    ensures CountsGood(j')
  {
    CountSnoc(j.events, e, IsScheduleEvent);
    CountSnoc(j.events, e, IsFinishEvent);
  }

  lemma {:induction false} RecordIDs(j: Journal)
    requires LinksGood(j.records, j.events)
    ensures forall id :: id in j.records ==> j.records[id].requestID == id
  {
    forall id | id in j.records ensures j.records[id].requestID == id {
      assert RecordLinked(j.records, j.events, id);
    }
  }

  lemma {:induction false} AppendKeepsGood(j: Journal, e: Event, now: Duration)
    requires JournalGood(j) && !e.kind.RequestFinished? && !e.kind.RequestScheduled?
    ensures JournalGood(j.(lastOffset := now, events := j.events + [e.(sequence := |j.events| + 1, offset := now)]))
  {
    var e' := e.(sequence := |j.events| + 1, offset := now);
    var j' := j.(lastOffset := now, events := j.events + [e']);
    RecordIDs(j);
    LinksStep(j.records, j.events, j'.records, e');
    CountsStep(j, j', e');
    hide LinksGood, CountsGood;
  }

  lemma {:induction false} ScheduledKeepsGood(j: Journal, r: Request, t1: Duration, t2: Duration)
    requires JournalGood(j) && r.id !in j.records
    requires forall id :: id in j.records ==> SequencesDiffer(j.records[id], FreshRecord(r, t1))
    ensures JournalGood(WithScheduled(j, r, t1, t2))
  {
    var j' := WithScheduled(j, r, t1, t2);
    var e := j'.events[|j.events|];
    RecordIDs(j);
    LinksStep(j.records, j.events, j'.records, e);
    assert TerminalIDs(j'.records) == TerminalIDs(j.records);
    CountsStep(j, j', e);
    hide LinksGood, CountsGood;
    assert r.id !in j.order;
  }

  /** Rewriting one record in place, keeping its identity. */
  lemma {:induction false} UpdateKeepsOrder(j: Journal, j': Journal, id: string, c: ClientRecord)
    requires OrderGood(j) && SequencesDistinct(j) && id in j.records && j'.order == j.order
    requires j'.records == j.records[id := c]
    requires c.class_ == j.records[id].class_ && c.sequence == j.records[id].sequence
    ensures OrderGood(j') && SequencesDistinct(j')
  {
    hide SequencesDiffer;
    forall a, b | a in j'.records && b in j'.records && a != b ensures SequencesDiffer(j'.records[a], j'.records[b]) {
      assert SequencesDiffer(j.records[a], j.records[b]);
      SameSequences(j.records[a], j.records[b], j'.records[a], j'.records[b]);
    }
  }

  lemma {:induction false} SameSequences(a: ClientRecord, b: ClientRecord, a': ClientRecord, b': ClientRecord)
    requires SequencesDiffer(a, b) && a.class_ == a'.class_ && a.sequence == a'.sequence && b.class_ == b'.class_
    requires b.sequence == b'.sequence
    ensures SequencesDiffer(a', b')
  {}

  lemma {:induction false} StartedKeepsGood(j: Journal, id: string, timeout: Duration, t1: Duration, t2: Duration)
    requires JournalGood(j) && id in j.records && j.records[id].outcome.Unknown?
    ensures JournalGood(WithStarted(j, id, timeout, t1, t2))
  {
    var j' := WithStarted(j, id, timeout, t1, t2);
    var e := j'.events[|j.events|];
    RecordIDs(j);
    LinksStep(j.records, j.events, j'.records, e);
    assert TerminalIDs(j'.records) == TerminalIDs(j.records);
    CountsStep(j, j', e);
    UpdateKeepsOrder(j, j', id, j'.records[id]);
    hide LinksGood, CountsGood, OrderGood, SequencesDistinct;
  }

  lemma {:induction false} FinishedKeepsGood(j: Journal, id: string, a: Response, t1: Duration, t2: Duration)
    requires JournalGood(j) && id in j.records && j.records[id].outcome.Unknown? && !a.outcome.Unknown?
    ensures JournalGood(WithFinished(j, id, a, t1, t2))
  {
    var j' := WithFinished(j, id, a, t1, t2);
    var e := j'.events[|j.events|];
    RecordIDs(j);
    LinksStep(j.records, j.events, j'.records, e);
    assert TerminalIDs(j'.records) == TerminalIDs(j.records) + {id};
    CountsStep(j, j', e);
    UpdateKeepsOrder(j, j', id, j'.records[id]);
    hide LinksGood, CountsGood, OrderGood, SequencesDistinct;
  }

  /**
   * The snapshot has no reason exactly when the journal had none, has a record, all are terminal and the clock did not
   * go back.
   */
  lemma {:induction false} RecordsListed(j: Journal, n: nat)
    requires Linked(j) && n <= |j.order|
    ensures |RecordsInOrder(j, n)| == n && forall i :: 0 <= i < n ==> RecordsInOrder(j, n)[i] == j.records[j.order[i]]
  {
    if n > 0 { RecordsListed(j, n - 1); }
  }

  /**
   * A snapshot is complete exactly without reasons and with all records finished; it lists every record in scheduling
   * order.
   */
  lemma {:induction false} CompleteSnapshot(j: Journal, startedAt: int, now: Duration)
    requires Linked(j)
    ensures SnapshotOf(j, startedAt, now).isComplete <==>
            && j.reasons == [] && j.order != [] && j.lastOffset <= now
            && forall i :: 0 <= i < |j.order| ==> !j.records[j.order[i]].outcome.Unknown?
    ensures var records := SnapshotOf(j, startedAt, now).records;
      |records| == |j.order| && forall i :: 0 <= i < |records| ==> records[i] == j.records[j.order[i]]
  {
    RecordsListed(j, |j.order|);
  }
}
