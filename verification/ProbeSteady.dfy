/** The success streaks a waiter observes, against the event log. */
module ProbeSteady {
  import opened ProbeTypes
  import opened ProbeJournal
  import opened JournalFacts
  import opened Sorting

  datatype Finish = Finish(class_: TrafficClass, outcome: Outcome)
  datatype SteadyState = SteadyState(observedOffset: Duration, readSuccesses: nat, mutatingSuccesses: nat)

  /** Running success count of one class: reset by any other result of that class. */
  function StreakOf(s: seq<Finish>, c: TrafficClass): nat {
    if s == [] then 0
    else
      var f := s[|s|-1];
      if f.class_ != c then StreakOf(s[..|s|-1], c)
      else if f.outcome.Success? then StreakOf(s[..|s|-1], c) + 1
      else 0
  }

  /** The results of one class, in order. */
  function OutcomesOf(s: seq<Finish>, c: TrafficClass): seq<Outcome> {
    if s == [] then []
    else OutcomesOf(s[..|s|-1], c) + (if s[|s|-1].class_ == c then [s[|s|-1].outcome] else [])
  }

  /** k is the length of the longest suffix of successes. */
  ghost predicate LongestSuccessSuffix(o: seq<Outcome>, k: nat) {
    && k <= |o|
    && (forall i :: |o| - k <= i < |o| ==> o[i].Success?)
    && (k == |o| || !o[|o|-k-1].Success?)
  }

  lemma {:induction false} StreakIsSuffix(s: seq<Finish>, c: TrafficClass)
    ensures LongestSuccessSuffix(OutcomesOf(s, c), StreakOf(s, c))
  {
    if s != [] {
      StreakIsSuffix(s[..|s|-1], c);
    }
  }

  /** The finish events of the log, as class and outcome. */
  function LogFinishes(events: seq<Event>): seq<Finish> {
    if events == [] then []
    else
      var e := events[|events|-1];
      LogFinishes(events[..|events|-1]) + (if e.kind.RequestFinished? then [Finish(e.class_, e.outcome)] else [])
  }

  function RecordFinishes(records: seq<ClientRecord>): seq<Finish> {
    seq(|records|, i requires 0 <= i < |records| => Finish(records[i].class_, records[i].outcome))
  }

  /** The records the finish events refer to, in log order. */
  function LogRecords(records: Records, events: seq<Event>): seq<ClientRecord> {
    if events == [] then []
    else
      var e := events[|events|-1];
      LogRecords(records, events[..|events|-1]) +
          (if e.kind.RequestFinished? && e.requestID in records then [records[e.requestID]] else [])
  }

  predicate ByCompletionNumber(a: ClientRecord, b: ClientRecord) { a.completionSequence <= b.completionSequence }

  lemma {:induction false} ByCompletionNumberOrder()
    ensures TotalPreorder(ByCompletionNumber)
  {}

  ghost predicate InLogOrder(records: Records, s: seq<ClientRecord>, n: nat) {
    && (forall i :: 0 <= i < |s| ==>
         1 <= s[i].completionSequence <= n && Terminal(records, s[i].requestID) && records[s[i].requestID] == s[i])
    && (forall i, k :: 0 <= i < k < |s| ==> s[i].completionSequence < s[k].completionSequence)
  }

  lemma {:induction false} FinishAt(records: Records, events: seq<Event>, k: nat)
    requires LinksGood(records, events) && k < |events| && events[k].kind.RequestFinished?
    ensures var id := events[k].requestID;
      Terminal(records, id) && records[id].completionSequence == k + 1 && records[id].requestID == id &&
          FinishOf(events[k], records[id])
  {
    assert EventLinked(records, events, k);
    assert RecordLinked(records, events, events[k].requestID);
  }

  lemma {:induction false} LogRecordsStep(records: Records, events: seq<Event>, n: nat)
    requires 0 < n <= |events|
    ensures LogRecords(records, events[..n]) == LogRecords(records, events[..n-1]) +
              (if events[n-1].kind.RequestFinished? && events[n-1].requestID in records
                  then [records[events[n-1].requestID]] else [])
    ensures LogFinishes(events[..n]) == LogFinishes(events[..n-1]) +
              (if events[n-1].kind.RequestFinished? then [Finish(events[n-1].class_, events[n-1].outcome)] else [])
  {
    assert events[..n][..n-1] == events[..n-1];
  }

  lemma {:induction false} InLogOrderAppend(records: Records, t: seq<ClientRecord>, c: ClientRecord, n: nat)
    requires InLogOrder(records, t, n) && Terminal(records, c.requestID) && records[c.requestID] == c
    requires c.completionSequence == n + 1
    ensures InLogOrder(records, t + [c], n + 1)
  {}

  lemma {:induction false} InLogOrderLater(records: Records, t: seq<ClientRecord>, n: nat)
    requires InLogOrder(records, t, n)
    ensures InLogOrder(records, t + [], n + 1)
  {
    assert t + [] == t;
  }

  /** In log order the records come by increasing completion number, each finish event contributing its own. */
  lemma {:induction false} LogRecordsSorted(records: Records, events: seq<Event>, n: nat)
    requires n <= |events| && LinksGood(records, events)
    ensures InLogOrder(records, LogRecords(records, events[..n]), n)
  {
    if n > 0 {
      hide LinksGood, InLogOrder, LogRecords;
      LogRecordsSorted(records, events, n - 1);
      LogRecordsStep(records, events, n);
      var e, t := events[n-1], LogRecords(records, events[..n-1]);
      if e.kind.RequestFinished? {
        FinishAt(records, events, n - 1);
        InLogOrderAppend(records, t, records[e.requestID], n - 1);
      } else {
        InLogOrderLater(records, t, n - 1);
      }
    }
  }

  /** No terminal record is left out. */
  lemma {:induction false} LogRecordsComplete(records: Records, events: seq<Event>, n: nat, id: string)
    requires n <= |events| && LinksGood(records, events) && Terminal(records, id) && records[id].completionSequence <= n
    ensures records[id] in LogRecords(records, events[..n])
  {
    assert RecordLinked(records, events, id);
    assert events[..n][..n-1] == events[..n-1];
    if records[id].completionSequence < n {
      LogRecordsComplete(records, events, n - 1, id);
    }
    hide LinksGood;
  }

  lemma {:induction false} LogRecordsFinishes(records: Records, events: seq<Event>, n: nat)
    requires n <= |events| && LinksGood(records, events)
    ensures RecordFinishes(LogRecords(records, events[..n])) == LogFinishes(events[..n])
  {
    if n > 0 {
      hide LinksGood, LogRecords, LogFinishes;
      LogRecordsFinishes(records, events, n - 1);
      LogRecordsStep(records, events, n);
      if events[n-1].kind.RequestFinished? { FinishAt(records, events, n - 1); }
    }
  }

  ghost predicate ListsTerminal(records: Records, list: seq<ClientRecord>, ids: set<string>) {
    && NoRepeats(list)
    && (forall c :: c in list ==> c.requestID in ids && Terminal(records, c.requestID) && records[c.requestID] == c)
    && (forall id :: id in ids && Terminal(records, id) ==> records[id] in list)
  }

  lemma {:induction false} SameRecords(records: Records, events: seq<Event>, list: seq<ClientRecord>)
    requires LinksGood(records, events) && ListsTerminal(records, list, records.Keys)
    ensures multiset(list) == multiset(LogRecords(records, events))
  {
    var log := LogRecords(records, events);
    assert events[..|events|] == events;
    LogRecordsSorted(records, events, |events|);
    forall i, k | 0 <= i < k < |log| ensures log[i] != log[k] {
      assert log[i].completionSequence < log[k].completionSequence;
    }
    forall c ensures c in list <==> c in log {
      if c in log {
        var i :| 0 <= i < |log| && log[i] == c;
        assert Terminal(records, log[i].requestID) && log[i].requestID in records.Keys;
      }
      if c in list {
        assert RecordLinked(records, events, c.requestID);
        LogRecordsComplete(records, events, |events|, c.requestID);
      }
    }
    hide LinksGood;
    SameElementsSameMultiset(list, log);
  }

  /** Sorting the terminal records by completion number recovers the order of the log. */
  lemma {:induction false} SortRecoversLog(records: Records, events: seq<Event>, list: seq<ClientRecord>)
    requires LinksGood(records, events) && ListsTerminal(records, list, records.Keys)
    ensures RecordFinishes(Sort(list, ByCompletionNumber)) == LogFinishes(events)
  {
    var log, sorted := LogRecords(records, events), Sort(list, ByCompletionNumber);
    SameRecords(records, events, list);
    assert events[..|events|] == events;
    LogRecordsSorted(records, events, |events|);
    LogRecordsFinishes(records, events, |events|);
    ByCompletionNumberOrder();
    SortSorts(list, ByCompletionNumber);
    assert SortedBy(ByCompletionNumber, log);
    forall x, y | x in log && y in log && ByCompletionNumber(x, y) && ByCompletionNumber(y, x) ensures x == y {
      var i :| 0 <= i < |log| && log[i] == x;
      var k :| 0 <= k < |log| && log[k] == y;
      assert i == k;
    }
    hide LinksGood, ListsTerminal, LogRecords;
    SortedPermutationUnique(log, sorted, ByCompletionNumber);
  }

  /** Collects the terminal records in an arbitrary order. */
  method CollectTerminal(records: Records) returns (list: seq<ClientRecord>)
    requires forall id :: id in records ==> records[id].requestID == id
    ensures ListsTerminal(records, list, records.Keys)
  {
    list := [];
    var pending := records.Keys;
    while pending != {}
      invariant pending <= records.Keys
      invariant ListsTerminal(records, list, records.Keys - pending)
      decreases |pending|
    {
      var id :| id in pending;
      CollectStep(records, list, pending, id);
      if !records[id].outcome.Unknown? {
        list := list + [records[id]];
      }
      pending := pending - {id};
    }
    assert records.Keys - pending == records.Keys;
  }

  lemma {:induction false} CollectStep(records: Records, list: seq<ClientRecord>, pending: set<string>, id: string)
    requires forall x :: x in records ==> records[x].requestID == x
    requires pending <= records.Keys && id in pending && ListsTerminal(records, list, records.Keys - pending)
    ensures ListsTerminal(records, if records[id].outcome.Unknown?
        then list
        else list + [records[id]], records.Keys - (pending - {id}))
  {
    assert records[id] !in list;
  }

  /** The scan over the sorted records. */
  method ScanStreaks(sorted: seq<ClientRecord>) returns (read: nat, mutating: nat)
    ensures read == StreakOf(RecordFinishes(sorted), ReadTraffic)
    ensures mutating == StreakOf(RecordFinishes(sorted), MutatingTraffic)
  {
    read, mutating := 0, 0;
    ghost var f := RecordFinishes(sorted);
    for n := 0 to |sorted|
      invariant read == StreakOf(f[..n], ReadTraffic) && mutating == StreakOf(f[..n], MutatingTraffic)
    {
      assert f[..n+1][..n] == f[..n];
      var c := sorted[n];
      if c.class_.ReadTraffic? {
        read := if c.outcome.Success? then read + 1 else 0;
      } else if c.class_.MutatingTraffic? {
        mutating := if c.outcome.Success? then mutating + 1 else 0;
      }
    }
    assert f[..|sorted|] == f;
  }

  /** The streaks of the log's finish events. */
  ghost predicate StreaksOfLog(events: seq<Event>, st: SteadyState) {
    && LongestSuccessSuffix(OutcomesOf(LogFinishes(events), ReadTraffic), st.readSuccesses)
    && LongestSuccessSuffix(OutcomesOf(LogFinishes(events), MutatingTraffic), st.mutatingSuccesses)
  }

  datatype Observation = Incomplete | ClockWentBack | Observed(state: SteadyState, reached: bool)

  /**
   * One look at the journal: refused once a reason exists, otherwise the streaks of the log and whether they suffice.
   */
  method Steady(log: JournalLog, readSuccesses: nat, mutatingSuccesses: nat, now: Duration) returns (o: Observation)
    requires log.reasons == [] ==> LinksGood(log.records, log.events)
    modifies log`lastOffset, log`reasons
    ensures o.Incomplete? <==> old(log.reasons) != []
    ensures o.Incomplete? ==> log.State() == old(log.State())
    ensures !o.Incomplete? ==> (log.State(), o.Observed?) == Read(old(log.State()), now)
    ensures o.Observed? ==> o.state.observedOffset == now && StreaksOfLog(log.events, o.state)
    ensures o.Observed? ==>
        (o.reached <==> o.state.readSuccesses >= readSuccesses && o.state.mutatingSuccesses >= mutatingSuccesses)
  {
    if log.reasons != [] {
      return Incomplete;
    }
    RecordIDs(log.State());
    var list := CollectTerminal(log.records);
    var read, mutating := ScanStreaks(Sort(list, ByCompletionNumber));
    SortRecoversLog(log.records, log.events, list);
    StreakIsSuffix(LogFinishes(log.events), ReadTraffic);
    StreakIsSuffix(LogFinishes(log.events), MutatingTraffic);
    hide LinksGood, ListsTerminal, LongestSuccessSuffix;
    var ok := log.ReadOffset(now);
    if !ok {
      return ClockWentBack;
    }
    return Observed(SteadyState(now, read, mutating), read >= readSuccesses && mutating >= mutatingSuccesses);
  }
}
