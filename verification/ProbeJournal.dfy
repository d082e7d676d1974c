/** The bounded, append-only journal of one probe run. */
module ProbeJournal {
  import opened ProbeTypes

  const NO_MARKER := Marker("", PhaseBefore, ResultUnknown)
  const NO_CLASS := OtherTraffic("")

  /** The journal as a value. Offsets are clock readings relative to the start of the run. */
  datatype Journal = Journal(maxRecords: nat, maxEvents: nat, lastOffset: Duration, records: map<string, ClientRecord>,
                             order: seq<string>, events: seq<Event>, reasons: seq<string>)

  function EmptyJournal(maxRecords: nat, maxEvents: nat): Journal {
    Journal(maxRecords, maxEvents, 0, map[], [], [], [])
  }

  function Marked(j: Journal, reason: string): Journal {
    if reason in j.reasons then j else j.(reasons := j.reasons + [reason])
  }

  /** A clock reading: refused when it is before the last one. */
  function Read(j: Journal, now: Duration): (Journal, bool) {
    if now < j.lastOffset then (Marked(j, "non_monotonic_clock"), false) else (j.(lastOffset := now), true)
  }

  function Append(j: Journal, e: Event, now: Duration): (Journal, bool) {
    if |j.events| >= j.maxEvents then (Marked(j, "event_journal_capacity"), false)
    else
      var (read, ok) := Read(j, now);
      if !ok then (read, false)
      else (read.(events := read.events + [e.(sequence := |read.events| + 1, offset := now)]), true)
  }

  function RequestEvent(kind: EventKind, class_: TrafficClass, id: string, outcome: Outcome): Event {
    Event(0, 0, kind, class_, id, outcome, NO_MARKER)
  }

  function FreshRecord(r: Request, now: Duration): ClientRecord {
    ClientRecord(r.id, r.idempotencyKey, r.class_, r.sequence, now, 0, 0, 0, 0, Unknown, "", NoDataCenter, "", 0, 0,
        false, false)
  }

  /** schedule: a new identifier gets a record and an event; t1 and t2 are its two clock readings. */
  function Scheduled(j: Journal, r: Request, t1: Duration, t2: Duration): (Journal, bool) {
    if r.id in j.records then (Marked(j, "duplicate_request_id"), false)
    else if |j.records| >= j.maxRecords then (Marked(j, "client_journal_capacity"), false)
    else
      var (read, ok) := Read(j, t1);
      if !ok then (read, false)
      else
        var added := read.(records := read.records[r.id := FreshRecord(r, t1)], order := read.order + [r.id]);
        Append(added, RequestEvent(RequestScheduled, r.class_, r.id, Unknown), t2)
  }

  /** start: the record becomes dispatched with a deadline. */
  function Started(j: Journal, id: string, timeout: Duration, t1: Duration, t2: Duration): (Journal, bool) {
    if id !in j.records then (Marked(j, "unknown_client_record"), false)
    else
      var (read, ok) := Read(j, t1);
      if !ok then (read, false)
      else
        var record := read.records[id].(startedOffset := t1, deadlineOffset := t1 + timeout, dispatched := true);
        Append(read.(records := read.records[id := record]), RequestEvent(RequestStarted, record.class_, id, Unknown),
            t2)
  }

  function Answered(record: ClientRecord, a: Response, now: Duration): ClientRecord {
    record.(finishedOffset := now,
            latency := if !record.dispatched then record.latency
                       else if now < record.startedOffset then 0 else now - record.startedOffset,
            outcome := a.outcome, routeID := a.routeID, dataCenter := a.dataCenter, source := a.source,
            internalSequence := a.internalSequence, duplicate := a.duplicate)
  }

  /** finish: the record gets its terminal result; its completion number is that of the finish event. */
  function Finished(j: Journal, id: string, a: Response, t1: Duration, t2: Duration): (Journal, bool) {
    if id !in j.records then (Marked(j, "unknown_client_record"), false)
    else if !j.records[id].outcome.Unknown? then (Marked(j, "duplicate_client_result"), false)
    else
      var (read, ok) := Read(j, t1);
      if !ok then (read, false)
      else
        var record := Answered(read.records[id], a, t1);
        var (appended, fits) := Append(read, RequestEvent(RequestFinished, record.class_, id, a.outcome), t2);
        var completed := if fits then record.(completionSequence := |appended.events|) else record;
        (appended.(records := appended.records[id := completed]), fits)
  }

  function RecordsInOrder(j: Journal, n: nat): seq<ClientRecord>
    requires n <= |j.order| && forall i :: 0 <= i < |j.order| ==> j.order[i] in j.records
  {
    if n == 0 then [] else RecordsInOrder(j, n - 1) + [j.records[j.order[n-1]]]
  }

  /** All scheduled requests have a record. */
  predicate Linked(j: Journal) {
    forall i :: 0 <= i < |j.order| ==> j.order[i] in j.records
  }

  /** The reasons a snapshot adds: unfinished records, an empty ledger, a clock that went back. */
  function SnapshotReasons(j: Journal, now: Duration): Journal
    requires Linked(j)
  {
    var unfinished := if exists i ::
        0 <= i < |j.order| && j.records[j.order[i]].outcome.Unknown? then Marked(j, "client_result_missing") else j;
    var empty := if j.order == [] then Marked(unfinished, "client_ledger_empty") else unfinished;
    Read(empty, now).0
  }

  function SnapshotOf(j: Journal, startedAt: int, now: Duration): Snapshot
    requires Linked(j)
  {
    var final := SnapshotReasons(j, now);
    Snapshot(startedAt, final.lastOffset, RecordsInOrder(j, |j.order|), j.events, final.reasons == [], final.reasons)
  }

  // ---- The mutable journal

  class JournalLog {
    const maxRecords: nat
    const maxEvents: nat
    const startedAt: int
    var lastOffset: Duration
    var records: map<string, ClientRecord>
    var order: seq<string>
    var events: seq<Event>
    var reasons: seq<string>

    constructor (startedAt: int, maxRecords: nat, maxEvents: nat)
      ensures this.startedAt == startedAt && State() == EmptyJournal(maxRecords, maxEvents)
    {
      this.startedAt, this.maxRecords, this.maxEvents := startedAt, maxRecords, maxEvents;
      lastOffset, records, order, events, reasons := 0, map[], [], [], [];
    }

    function State(): Journal
      reads this
    {
      Journal(maxRecords, maxEvents, lastOffset, records, order, events, reasons)
    }

    method MarkIncomplete(reason: string)
      modifies this`reasons
      ensures State() == Marked(old(State()), reason)
    {
      for n := 0 to |reasons|
        invariant reasons == old(reasons) && reason !in reasons[..n]
      {
        if reasons[n] == reason {
          return;
        }
      }
      reasons := reasons + [reason];
    }

    /** now is the clock's reading minus the start of the run. */
    method ReadOffset(now: Duration) returns (ok: bool)
      modifies this`lastOffset, this`reasons
      ensures (State(), ok) == Read(old(State()), now)
    {
      if now < lastOffset {
        MarkIncomplete("non_monotonic_clock");
        return false;
      }
      lastOffset := now;
      return true;
    }

    method AppendEvent(e: Event, now: Duration) returns (ok: bool)
      modifies this`lastOffset, this`reasons, this`events
      ensures (State(), ok) == Append(old(State()), e, now)
    {
      if |events| >= maxEvents {
        MarkIncomplete("event_journal_capacity");
        return false;
      }
      ok := ReadOffset(now);
      if ok {
        events := events + [e.(sequence := |events| + 1, offset := now)];
      }
    }

    method Schedule(r: Request, t1: Duration, t2: Duration) returns (ok: bool)
      modifies this
      ensures (State(), ok) == Scheduled(old(State()), r, t1, t2)
    {
      if r.id in records {
        MarkIncomplete("duplicate_request_id");
        return false;
      }
      if |records| >= maxRecords {
        MarkIncomplete("client_journal_capacity");
        return false;
      }
      ok := ReadOffset(t1);
      if !ok {
        return;
      }
      records := records[r.id := FreshRecord(r, t1)];
      order := order + [r.id];
      ok := AppendEvent(RequestEvent(RequestScheduled, r.class_, r.id, Unknown), t2);
    }

    method Start(id: string, timeout: Duration, t1: Duration, t2: Duration) returns (ok: bool)
      modifies this
      ensures (State(), ok) == Started(old(State()), id, timeout, t1, t2)
    {
      if id !in records {
        MarkIncomplete("unknown_client_record");
        return false;
      }
      ok := ReadOffset(t1);
      if !ok {
        return;
      }
      var record := records[id].(startedOffset := t1, deadlineOffset := t1 + timeout, dispatched := true);
      records := records[id := record];
      ok := AppendEvent(RequestEvent(RequestStarted, record.class_, id, Unknown), t2);
    }

    method Finish(id: string, a: Response, t1: Duration, t2: Duration) returns (ok: bool)
      modifies this
      ensures (State(), ok) == Finished(old(State()), id, a, t1, t2)
    {
      if id !in records {
        MarkIncomplete("unknown_client_record");
        return false;
      }
      if !records[id].outcome.Unknown? {
        MarkIncomplete("duplicate_client_result");
        return false;
      }
      ok := ReadOffset(t1);
      if !ok {
        return;
      }
      var record := records[id];
      record := record.(finishedOffset := t1);
      if record.dispatched {
        record := record.(latency := if t1 - record.startedOffset < 0 then 0 else t1 - record.startedOffset);
      }
      record := record.(outcome := a.outcome, routeID := a.routeID, dataCenter := a.dataCenter, source := a.source,
                        internalSequence := a.internalSequence, duplicate := a.duplicate);
      ok := AppendEvent(RequestEvent(RequestFinished, record.class_, id, a.outcome), t2);
      if ok {
        record := record.(completionSequence := events[|events|-1].sequence);
      }
      records := records[id := record];
    }

    method TakeSnapshot(now: Duration) returns (s: Snapshot)
      requires Linked(State())
      modifies this`reasons, this`lastOffset
      ensures s == SnapshotOf(old(State()), startedAt, now)
      ensures State() == SnapshotReasons(old(State()), now)
    {
      ghost var j := State();
      var list := [];
      var unfinished := false;
      for n := 0 to |order|
        invariant list == RecordsInOrder(j, n)
        invariant unfinished <==> exists i :: 0 <= i < n && records[order[i]].outcome.Unknown?
        invariant State() == if unfinished then Marked(j, "client_result_missing") else j
      {
        var record := records[order[n]];
        if record.outcome.Unknown? {
          MarkIncomplete("client_result_missing");
          unfinished := true;
        }
        list := list + [record];
      }
      if list == [] {
        MarkIncomplete("client_ledger_empty");
      }
      var ok := ReadOffset(now);
      s := Snapshot(startedAt, lastOffset, list, events, reasons == [], reasons);
    }
  }
}
