/** The exact meaning of the reconciliation's verdicts. */
module ProbeExact {
  import opened ProbeTypes
  import opened LedgerIndex
  import opened LedgerOrder
  import opened ProbeReconcile
  import opened ProbeVerdict
  import opened ProbeClean
  import opened Sorting
  import opened StringOrder

  /**
   * In corresponding ledgers a client record carries a sequence exactly when it was dispatched, and then it names its
   * source.
   */
  ghost predicate WellCarried(c: ClientRecord) {
    (Carries(c) <==> c.dispatched) && (c.dispatched ==> c.source != "") && ValidClass(c.class_)
  }

  lemma {:induction false} CarriedBySettled(sha: string -> string, client: seq<ClientRecord>,
                                            internal: seq<InternalRecord>, i: nat)
    requires ClientLedgerValid(client) && InternalLedgerValid(internal, |internal|) && Correspond(sha, client, internal)
    requires i < |client|
    ensures WellCarried(client[i])
  {
    assert ValidClientRecord(client[i]) && Accounted(sha, client[i], internal);
    if client[i].dispatched {
      var k :| 0 <= k < |internal| && Answers(sha, client[i], internal[k]) && OnlyOne(client[i].requestID, internal, k);
      assert ValidInternalRecord(internal[k]);
    }
  }

  lemma {:induction false} SourceOfSettled(sha: string -> string, client: seq<ClientRecord>,
                                           internal: seq<InternalRecord>, k: nat)
    requires ClientLedgerValid(client) && InternalLedgerValid(internal, |internal|) && Correspond(sha, client, internal)
    requires k < |internal|
    ensures internal[k].source != "" && ValidClass(internal[k].class_)
  {
    assert HasClient(internal[k].requestID, client);
    var i :| 0 <= i < |client| && client[i].requestID == internal[k].requestID && client[i].dispatched;
    assert ValidClientRecord(client[i]) && Accounted(sha, client[i], internal);
    var m :| 0 <= m < |internal| && Answers(sha, client[i], internal[m]) && OnlyOne(client[i].requestID, internal, m);
    assert m == k;
  }

  lemma {:induction false} SameKey(s: string, d: DataCenter, c: TrafficClass, s': string, d': DataCenter,
                                   c': TrafficClass)
    requires s != "" && s' != "" && ValidClass(c) && ValidClass(c')
    ensures SequenceKey(s, d, c) == SequenceKey(s', d', c') <==> s == s' && c == c'
  {
    SequenceKeyInjective(s, d, c, s', d', c');
  }

  lemma {:induction false} InternalEntriesAll(records: seq<InternalRecord>, n: nat)
    requires n <= |records| && InternalLedgerValid(records, n)
    ensures var e := InternalEntries(records, n);
      |e| == n && forall k :: 0 <= k < n ==>
          e[k] ==
          Entry(records[k].requestID, SequenceKey(records[k].source, records[k].dataCenter, records[k].class_),
          records[k].sequence)
  {
    hide ValidInternalRecord, SequenceKey;
    if n > 0 {
      InternalEntriesAll(records, n - 1);
      assert ValidInternalRecord(records[n-1]);
    }
  }

  /** On corresponding ledgers the internal order check is per source and class. */
  lemma {:induction false} InternalOrderExact(sha: string -> string, client: seq<ClientRecord>,
                                              internal: seq<InternalRecord>)
    requires ClientLedgerValid(client) && InternalLedgerValid(internal, |internal|) && Correspond(sha, client, internal)
    ensures Monotone(InternalEntries(internal, |internal|)) <==> InternalInOrder(internal)
  {
    InternalEntriesAll(internal, |internal|);
    forall i, j | 0 <= i < |internal| && 0 <= j < |internal|
      ensures SequenceKey(internal[i].source, internal[i].dataCenter, internal[i].class_)
              == SequenceKey(internal[j].source, internal[j].dataCenter, internal[j].class_)
              <==> SameStream(internal[i], internal[j])
    {
      SourceOfSettled(sha, client, internal, i);
      SourceOfSettled(sha, client, internal, j);
      SameKey(internal[i].source, internal[i].dataCenter, internal[i].class_, internal[j].source,
          internal[j].dataCenter, internal[j].class_);
    }
    hide SequenceKey, ClientLedgerValid, InternalLedgerValid, Correspond, SameStream, InternalEntries;
    var e := InternalEntries(internal, |internal|);
    if Monotone(e) {
      forall i, j | 0 <= i < j < |internal| &&
          SameStream(internal[i], internal[j]) ensures internal[i].sequence <= internal[j].sequence {
        assert e[i].key == e[j].key;
      }
    }
  }

  ghost predicate PairInOrder(a: ClientRecord, b: ClientRecord) {
    Carries(a) && Carries(b) && KeyOf(a) == KeyOf(b) && a.completionSequence < b.completionSequence ==>
        a.internalSequence <= b.internalSequence
  }

  lemma {:induction false} OrderFacts(records: seq<ClientRecord>)
    ensures SortedBy(ByCompletion, CompletionOrder(records)) && forall x :: x in CompletionOrder(records) <==>
        x in records
  {
    ByCompletionOrder();
    SortSorts(records, ByCompletion);
    SamePermutation(CompletionOrder(records), records);
  }

  lemma {:induction false} PairsFromOrder(records: seq<ClientRecord>, order: seq<ClientRecord>, i: nat, j: nat)
    requires SortedBy(ByCompletion, order) && (forall x :: x in order <==> x in records) && OrderedByKey(order)
    requires i < |records| && j < |records|
    ensures PairInOrder(records[i], records[j])
  {
    hide Carries, KeyOf;
    assert records[i] in order && records[j] in order;
    var p :| 0 <= p < |order| && order[p] == records[i];
    var q :| 0 <= q < |order| && order[q] == records[j];
    if q < p { assert ByCompletion(order[q], order[p]); }
  }

  lemma {:induction false} OrderFromPairs(records: seq<ClientRecord>, order: seq<ClientRecord>, p: nat, q: nat)
    requires PairwiseApart(records) && SortedBy(ByCompletion, order) && forall x :: x in order <==> x in records
    requires forall i, j :: 0 <= i < |records| && 0 <= j < |records| ==> PairInOrder(records[i], records[j])
    requires p < q < |order|
    ensures PairInOrder(order[p], order[q]) && CompletedBefore(order[p], order[q])
  {
    hide Carries, KeyOf, PairwiseApart, PairInOrder;
    assert order[p] in records && order[q] in records;
    var i :| 0 <= i < |records| && records[i] == order[p];
    var j :| 0 <= j < |records| && records[j] == order[q];
    assert PairInOrder(records[i], records[j]);
    assert ByCompletion(order[p], order[q]);
    if i != j { Apart(records, i, j); }
  }

  /** Scanning in completion order compares exactly the pairs whose completion numbers are ordered. */
  lemma {:induction false} CompletionPairs(records: seq<ClientRecord>)
    requires PairwiseApart(records)
    ensures OrderedByKey(CompletionOrder(records)) <==>
            forall i, j :: 0 <= i < |records| && 0 <= j < |records| ==> PairInOrder(records[i], records[j])
  {
    hide Carries, KeyOf, CompletionOrder, PairwiseApart, SortedBy;
    var order := CompletionOrder(records);
    OrderFacts(records);
    if OrderedByKey(order) {
      forall i, j | 0 <= i < |records| && 0 <= j < |records| ensures PairInOrder(records[i], records[j]) {
        PairsFromOrder(records, order, i, j);
      }
    }
    if forall i, j :: 0 <= i < |records| && 0 <= j < |records| ==> PairInOrder(records[i], records[j]) {
      forall p, q | 0 <= p < q < |order| ensures PairInOrder(order[p], order[q]) &&
          CompletedBefore(order[p], order[q]) {
        OrderFromPairs(records, order, p, q);
      }
    }
  }

  predicate CompletedBefore(a: ClientRecord, b: ClientRecord) { a.completionSequence < b.completionSequence || a == b }

  lemma {:induction false} Apart(records: seq<ClientRecord>, i: nat, j: nat)
    requires PairwiseApart(records) && i < |records| && j < |records| && i != j
    ensures records[i].completionSequence != records[j].completionSequence
  {
    if i < j { assert !Clashes(records[i], records[j]); } else { assert !Clashes(records[j], records[i]); }
  }

  /** On corresponding ledgers the client order check is per source and class in order of completion. */
  lemma {:induction false} ClientOrderExact(sha: string -> string, client: seq<ClientRecord>,
                                            internal: seq<InternalRecord>)
    requires ClientLedgerValid(client) && InternalLedgerValid(internal, |internal|) && Correspond(sha, client, internal)
    ensures Monotone(ClientEntries(CompletionOrder(client))) <==> ClientInOrder(client)
  {
    EntriesMonotone(CompletionOrder(client));
    CompletionPairs(client);
    forall i, j | 0 <= i < |client| && 0 <= j < |client|
      ensures PairInOrder(client[i], client[j]) <==> ResponsesInOrder(client[i], client[j])
    {
      CarriedBySettled(sha, client, internal, i);
      CarriedBySettled(sha, client, internal, j);
      if client[i].dispatched && client[j].dispatched {
        SameKey(client[i].source, client[i].dataCenter, client[i].class_, client[j].source, client[j].dataCenter,
            client[j].class_);
      }
    }
    hide PairInOrder, ClientLedgerValid, InternalLedgerValid, Correspond, OrderedByKey, Monotone;
  }

  lemma {:induction false} ListsEmpty(sha: string -> string, client: Snapshot, internal: InternalSnapshot,
                                      r: Reconciliation)
    requires Describes(sha, client, internal, r)
    ensures (&& r.missing == [] && r.lostResponses == [] && r.unexpected == [] && r.invalid == []
             && r.duplicate == [] && r.late == []) <==>
            NoFindings(sha, client, internal)
  {
    hide DuplicatesListed, LateListed;
    ExactlyEmpty(r.missing, MissingIDs(Compared(client), internal));
    ExactlyEmpty(r.lostResponses, LostIDs(Compared(client), internal));
    ExactlyEmpty(r.unexpected, UnexpectedIDs(client, internal));
    ExactlyEmpty(r.invalid, InvalidIDs(sha, client, internal));
    hide SortedExactly, MissingIDs, LostIDs, UnexpectedIDs, InvalidIDs, NoDuplicates, NoneLate, Compared,
        EvidenceComplete;
  }

  lemma {:induction false} ExactlyEmpty(list: seq<string>, s: set<string>)
    requires SortedExactly(list, s)
    ensures list == [] <==> s == {}
  {
    if list != [] { assert list[0] in s; }
  }

  predicate InternalStage(x: Reordered) { x.stage.InternalLedger? }

  lemma {:induction false} StageOfReorders(e: seq<Entry>, stage: Stage, n: nat)
    requires n <= |e|
    ensures forall x :: x in Reorders(e, stage, n) ==> x.stage == stage
  {
    if n > 0 { StageOfReorders(e, stage, n - 1); }
  }

  lemma {:induction false} DescribedReorders(sha: string -> string, client: Snapshot, internal: InternalSnapshot,
                                             r: Reconciliation)
    requires Describes(sha, client, internal, r)
    ensures multiset(r.reordered) == multiset(ClientReorders(client) + InternalReorders(internal))
    ensures var e := ClientEntries(CompletionOrder(AcceptedRecords(client.records)));
        ClientReorders(client) == Reorders(e, ClientResponse, |e|)
    ensures var e := InternalEntries(internal.records, |internal.records|);
        InternalReorders(internal) == Reorders(e, InternalLedger, |e|)
  {
    hide SortedExactly, NoDuplicates, NoneLate, EvidenceComplete, DuplicatesListed, LateListed, Reorders, ClientEntries,
        InternalEntries;
  }

  /** The reported reorders of the internal stage vanish exactly when the internal entries are monotone. */
  lemma {:induction false} ReorderStages(sha: string -> string, client: Snapshot, internal: InternalSnapshot,
                                         r: Reconciliation)
    requires Describes(sha, client, internal, r)
    ensures Count(r.reordered, InternalStage) == 0 <==> Monotone(InternalEntries(internal.records, |internal.records|))
    ensures r.reordered == [] <==> Monotone(InternalEntries(internal.records, |internal.records|))
                                   && Monotone(ClientEntries(CompletionOrder(AcceptedRecords(client.records))))
  {
    hide Describes, ClientReorders, InternalReorders, Monotone, Reorders, ClientEntries, InternalEntries,
        CompletionOrder, AcceptedRecords, Count;
    var c, i := ClientReorders(client), InternalReorders(internal);
    DescribedReorders(sha, client, internal, r);
    CountPermutation(r.reordered, c + i, InternalStage);
    CountZero(c + i, InternalStage);
    SamePermutation(r.reordered, c + i);
    var ce := ClientEntries(CompletionOrder(AcceptedRecords(client.records)));
    var ie := InternalEntries(internal.records, |internal.records|);
    StageOfReorders(ce, ClientResponse, |ce|);
    StageOfReorders(ie, InternalLedger, |ie|);
    NoReorderIffMonotone(ce, ClientResponse);
    NoReorderIffMonotone(ie, InternalLedger);
    if i != [] { assert i[0] in c + i && InternalStage(i[0]); }
  }

  /** What the report demands: no violation apart from reordered client responses. */
  predicate NothingReported(r: Reconciliation) {
    && r.isComplete
    && r.missing == [] && r.lostResponses == [] && r.unexpected == [] && r.duplicate == [] && r.late == [] &&
         r.invalid == []
    && Count(r.reordered, InternalStage) == 0
  }

  /** Nothing is reported exactly when the ledgers are settled. */
  lemma {:induction false} SettledExact(sha: string -> string, client: Snapshot, internal: InternalSnapshot,
                                        r: Reconciliation)
    requires Describes(sha, client, internal, r)
    ensures NothingReported(r) <==> Settled(sha, client, internal)
  {
    ListsEmpty(sha, client, internal, r);
    NoFindingsExact(sha, client, internal);
    ReorderStages(sha, client, internal, r);
    if NoFindings(sha, client, internal) {
      InternalOrderExact(sha, client.records, internal.records);
    }
    hide NoFindings, ClientLedgerValid, InternalLedgerValid, Correspond, SingleOwners, InternalInOrder,
        EvidenceComplete, Monotone,
         SortedExactly, NoDuplicates, NoneLate, ClientReorders, InternalReorders;
  }

  /** Complete and free of integrity faults exactly when the ledgers are clean. */
  lemma {:induction false} CleanExact(sha: string -> string, client: Snapshot, internal: InternalSnapshot,
                                      r: Reconciliation)
    requires Describes(sha, client, internal, r)
    ensures r.isComplete && !r.hasIntegrityFault <==> Clean(sha, client, internal)
  {
    SettledExact(sha, client, internal, r);
    ReorderStages(sha, client, internal, r);
    if Settled(sha, client, internal) {
      InvalidEmpty(sha, client, internal);
      ClientOrderExact(sha, client.records, internal.records);
      InternalOrderExact(sha, client.records, internal.records);
    }
    if r.isComplete && !r.hasIntegrityFault {
      CountZero(r.reordered, InternalStage);
    }
    hide Settled, ClientInOrder, InternalInOrder, Monotone, SortedExactly, NoDuplicates, NoneLate, ClientReorders,
        InternalReorders, EvidenceComplete;
  }

  /** The lists of identifiers and both verdicts do not depend on the order in which the indexes are traversed. */
  lemma {:induction false} Deterministic(sha: string -> string, client: Snapshot, internal: InternalSnapshot,
                                         r: Reconciliation, r': Reconciliation)
    requires Describes(sha, client, internal, r) && Describes(sha, client, internal, r')
    ensures r.missing == r'.missing && r.lostResponses == r'.lostResponses && r.unexpected == r'.unexpected
    ensures r.invalid == r'.invalid
    ensures r.isComplete == r'.isComplete && r.hasIntegrityFault == r'.hasIntegrityFault
    ensures r.incompleteReasons == r'.incompleteReasons
    ensures multiset(r.reordered) == multiset(r'.reordered)
    ensures multiset(r.late) == multiset(r'.late) && multiset(r.duplicate) == multiset(r'.duplicate)
  {
    hide MissingIDs, LostIDs, UnexpectedIDs, InvalidIDs, NoDuplicates, NoneLate, EvidenceComplete, Compared,
        ClientReorders, InternalReorders,
         RepeatsOf, LateResultsOf, OwnerDuplicates, DuplicateLeq, LateLeq, ReasonsOf;
    SortedListUnique(r.missing, r'.missing);
    SortedListUnique(r.lostResponses, r'.lostResponses);
    SortedListUnique(r.unexpected, r'.unexpected);
    SortedListUnique(r.invalid, r'.invalid);
    SamePermutation(r.reordered, r'.reordered);
  }

  /** An internal entry is reported reordered exactly when an earlier valid entry with its key has a larger sequence. */
  lemma {:induction false} InternalReordersExact(sha: string -> string, client: Snapshot, internal: InternalSnapshot,
                                                 r: Reconciliation, x: Reordered)
    requires Describes(sha, client, internal, r) && InternalStage(x)
    ensures var e := InternalEntries(internal.records, |internal.records|);
      x in r.reordered <==> exists i: nat :: i < |e| && Overtaken(e, i) && x == ReorderOf(e, InternalLedger, i)
    ensures Count(r.reordered, InternalStage) == |InternalReorders(internal)|
  {
    hide Describes, ClientReorders, InternalReorders, Reorders, ClientEntries, InternalEntries, CompletionOrder,
        AcceptedRecords, Count, Overtaken;
    var c, i := ClientReorders(client), InternalReorders(internal);
    DescribedReorders(sha, client, internal, r);
    CountPermutation(r.reordered, c + i, InternalStage);
    CountConcat(c, i, InternalStage);
    SamePermutation(r.reordered, c + i);
    var ce := ClientEntries(CompletionOrder(AcceptedRecords(client.records)));
    var ie := InternalEntries(internal.records, |internal.records|);
    StageOfReorders(ce, ClientResponse, |ce|);
    StageOfReorders(ie, InternalLedger, |ie|);
    ReordersMembers(ie, InternalLedger, |ie|, x);
    CountZero(c, InternalStage);
    CountAll(i, InternalStage);
  }

  lemma {:induction false} CountAll<T(!new)>(s: seq<T>, p: T -> bool)
    requires forall x :: x in s ==> p(x)
    ensures Count(s, p) == |s|
  {
    if s != [] {
      assert s[|s|-1] in s;
      CountAll(s[..|s|-1], p);
    }
  }

  // ---- Settled is weaker than clean

  function Digits(c: char): string { seq(32, _ => c) }

  function ReadAnswered(id: string, number: nat, internalSequence: nat): ClientRecord {
    ClientRecord(id, "", ReadTraffic, number, 0, 0, 9, 1, 1, Success, "r", DataCenterA, "s", internalSequence, number,
        false, true)
  }

  function ReadApplied(id: string, sequence: nat): InternalRecord {
    InternalRecord(id, "", ReadTraffic, sequence, 1, 0, 1, Success, "r", DataCenterA, "s")
  }

  /** The second request of the ledger completes first. */
  const OVERTAKING := Snapshot(0, 1, [ReadAnswered(Digits('1'), 1, 2), ReadAnswered(Digits('0'), 2, 1)], [], true, [])
  const APPLIED := InternalSnapshot([ReadApplied(Digits('0'), 1), ReadApplied(Digits('1'), 2)], true, [])

  lemma {:induction false} DigitsValid(c: char)
    requires LowerHex(c)
    ensures ValidRequestID(Digits(c)) && Digits(c)[0] == c
  {}

  lemma {:induction false} AnsweredValid(id: string, number: nat, internalSequence: nat)
    requires ValidRequestID(id) && number > 0
    ensures ValidClientRecord(ReadAnswered(id, number, internalSequence))
  {
    hide ValidRequestID;
  }

  lemma {:induction false} AppliedValid(id: string, sequence: nat)
    requires ValidRequestID(id) && sequence > 0
    ensures ValidInternalRecord(ReadApplied(id, sequence))
  {
    hide ValidRequestID;
  }

  lemma {:induction false} OvertakingCorresponds(sha: string -> string)
    ensures Correspond(sha, OVERTAKING.records, APPLIED.records)
  {
    DigitsValid('0');
    DigitsValid('1');
    hide Digits, ValidRequestID;
    var client, internal := OVERTAKING.records, APPLIED.records;
    assert Answers(sha, client[0], internal[1]) && OnlyOne(client[0].requestID, internal, 1);
    assert Answers(sha, client[1], internal[0]) && OnlyOne(client[1].requestID, internal, 0);
    assert HasClient(internal[0].requestID, client) by { assert client[1].requestID == internal[0].requestID; }
    assert HasClient(internal[1].requestID, client) by { assert client[0].requestID == internal[1].requestID; }
  }

  /** Ledgers that the report accepts although the client saw one response overtake another. */
  lemma {:induction false} SettledNotClean(sha: string -> string)
    ensures Settled(sha, OVERTAKING, APPLIED) && !Clean(sha, OVERTAKING, APPLIED)
  {
    hide ValidRequestID, ValidClientRecord, ValidInternalRecord, Correspond;
    DigitsValid('0');
    DigitsValid('1');
    AnsweredValid(Digits('1'), 1, 2);
    AnsweredValid(Digits('0'), 2, 1);
    AppliedValid(Digits('0'), 1);
    AppliedValid(Digits('1'), 2);
    OvertakingCorresponds(sha);
    assert !ResponsesInOrder(OVERTAKING.records[0], OVERTAKING.records[1]);
  }
}
