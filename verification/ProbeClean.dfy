/** What a clean reconciliation proves about the two ledgers, and that nothing less is clean. */
module ProbeClean {
  import opened ProbeTypes
  import opened LedgerIndex
  import opened LedgerOrder
  import opened ProbeReconcile
  import opened ProbeVerdict

  /** The internal record i is the one, timely, single-attempt answer to the successful request c. */
  predicate Answers(sha: string -> string, c: ClientRecord, i: InternalRecord) {
    && c.outcome.Success? && !c.duplicate && c.finishedOffset <= c.deadlineOffset
    && SemanticallyMatch(c, i)
    && (c.class_.MutatingTraffic? ==> i.digest == DigestString(sha, c.idempotencyKey))
    && i.attempts <= 1
    && (i.completedOffset <= 0 || i.completedOffset <= c.deadlineOffset)
  }

  /** Exactly one internal record carries the identifier of c, and it answers c. */
  ghost predicate Paired(sha: string -> string, c: ClientRecord, records: seq<InternalRecord>) {
    exists k :: 0 <= k < |records| && Answers(sha, c, records[k]) && OnlyOne(c.requestID, records, k)
  }

  ghost predicate OnlyOne(id: string, records: seq<InternalRecord>, k: int) {
    forall m :: 0 <= m < |records| && records[m].requestID == id ==> m == k
  }

  ghost predicate NoRecord(id: string, records: seq<InternalRecord>) {
    forall m :: 0 <= m < |records| ==> records[m].requestID != id
  }

  /** A one-to-one correspondence between the dispatched requests and the internal records. */
  ghost predicate Correspond(sha: string -> string, client: seq<ClientRecord>, internal: seq<InternalRecord>) {
    && (forall i :: 0 <= i < |client| ==> Accounted(sha, client[i], internal))
    && (forall k :: 0 <= k < |internal| ==> HasClient(internal[k].requestID, client))
  }

  ghost predicate Accounted(sha: string -> string, c: ClientRecord, records: seq<InternalRecord>) {
    if c.dispatched then Paired(sha, c, records) else NoRecord(c.requestID, records)
  }

  ghost predicate HasClient(id: string, client: seq<ClientRecord>) {
    exists i :: 0 <= i < |client| && client[i].requestID == id && client[i].dispatched
  }

  ghost predicate SameStream(a: InternalRecord, b: InternalRecord) { a.source == b.source && a.class_ == b.class_ }

  /** Sequences never go backwards within a source and class of the internal ledger. */
  ghost predicate InternalInOrder(records: seq<InternalRecord>) {
    forall i, j :: 0 <= i < j < |records| && SameStream(records[i], records[j]) ==>
        records[i].sequence <= records[j].sequence
  }

  /** Nor do they in the order in which the client saw the responses complete. */
  ghost predicate ClientInOrder(records: seq<ClientRecord>) {
    forall i, j :: 0 <= i < |records| && 0 <= j < |records| ==> ResponsesInOrder(records[i], records[j])
  }

  predicate ResponsesInOrder(a: ClientRecord, b: ClientRecord) {
    a.dispatched && b.dispatched && a.source == b.source && a.class_ == b.class_ &&
        a.completionSequence < b.completionSequence
    ==> a.internalSequence <= b.internalSequence
  }

  /** All that a clean reconciliation guarantees apart from the order of the client's responses. */
  ghost predicate Settled(sha: string -> string, client: Snapshot, internal: InternalSnapshot) {
    && EvidenceComplete(client, internal)
    && ClientLedgerValid(client.records)
    && InternalLedgerValid(internal.records, |internal.records|)
    && Correspond(sha, client.records, internal.records)
    && SingleOwners(internal.records, |internal.records|)
    && InternalInOrder(internal.records)
  }

  ghost predicate Clean(sha: string -> string, client: Snapshot, internal: InternalSnapshot) {
    Settled(sha, client, internal) && ClientInOrder(client.records)
  }

  // ---- Groups of one

  lemma {:induction false} GroupStep(records: seq<InternalRecord>, n: nat, id: string)
    requires n <= |records| && Group(records, n, id) != []
    ensures n > 0
    ensures var g := Group(records, n - 1, id);
      Group(records, n, id) == if ValidInternalRecord(records[n-1]) && records[n-1].requestID == id
          then g + [records[n-1]] else g
  {
    hide ValidInternalRecord;
  }

  /** A group of one is the only record with its identifier. */
  lemma {:induction false} GroupOne(records: seq<InternalRecord>, n: nat, id: string) returns (k: nat)
    requires n <= |records| && InternalLedgerValid(records, n) && |Group(records, n, id)| == 1
    ensures k < n && Group(records, n, id) == [records[k]]
    ensures forall m :: 0 <= m < n && records[m].requestID == id ==> m == k
  {
    GroupStep(records, n, id);
    GroupNonEmpty(records, n - 1, id);
    hide ValidInternalRecord, Group;
    if records[n-1].requestID == id {
      k := n - 1;
    } else {
      k := GroupOne(records, n - 1, id);
    }
  }

  /** A larger group has two records with its identifier. */
  lemma {:induction false} GroupMany(records: seq<InternalRecord>, n: nat, id: string) returns (k: nat, m: nat)
    requires n <= |records| && |Group(records, n, id)| > 1
    ensures k < m < n && records[k].requestID == id == records[m].requestID
  {
    GroupStep(records, n, id);
    GroupNonEmpty(records, n - 1, id);
    hide ValidInternalRecord, Group;
    if ValidInternalRecord(records[n-1]) && records[n-1].requestID == id {
      k :| 0 <= k < n - 1 && ValidInternalRecord(records[k]) && records[k].requestID == id;
      m := n - 1;
    } else {
      k, m := GroupMany(records, n - 1, id);
    }
  }

  /** No finding for a dispatched record means that its group is one answer. */
  lemma {:induction false} NoFinding(sha: string -> string, c: ClientRecord, g: seq<InternalRecord>)
    ensures (&& !Missing(c, g) && !Lost(c, g) && !Unsent(c, g)
             && !Contradicted(sha, c, g) && !Repeated(c, g) && !TooLate(c, g)) <==>
            if c.dispatched then |g| == 1 && Answers(sha, c, g[0]) else g == []
  {
    if c.dispatched && |g| == 1 {
      assert Contradicted(sha, c, g) <==> Mismatch(sha, c, g[0]);
      assert Repeated(c, g) <==> c.duplicate || g[0].attempts > 1;
      assert TooLate(c, g) <==> c.finishedOffset > c.deadlineOffset || LateInternal(c, g[0]);
    }
  }

  ghost predicate Settles(sha: string -> string, c: ClientRecord, g: seq<InternalRecord>) {
    if c.dispatched then |g| == 1 && Answers(sha, c, g[0]) else g == []
  }

  lemma {:induction false} SettlesIsPaired(sha: string -> string, c: ClientRecord, internal: InternalSnapshot)
    requires InternalLedgerValid(internal.records, |internal.records|)
    ensures Settles(sha, c, GroupOf(internal, c.requestID)) <==> Accounted(sha, c, internal.records)
  {
    hide ValidInternalRecord, Answers;
    var records, id := internal.records, c.requestID;
    var g := GroupOf(internal, id);
    GroupNonEmpty(records, |records|, id);
    assert forall k :: 0 <= k < |records| ==> ValidInternalRecord(records[k]);
    if c.dispatched {
      if Settles(sha, c, g) {
        var k := GroupOne(records, |records|, id);
        assert Answers(sha, c, records[k]) && OnlyOne(id, records, k);
      }
      if Paired(sha, c, records) {
        AnswerID(sha, c, records);
      }
    }
  }

  lemma {:induction false} AnswerID(sha: string -> string, c: ClientRecord, records: seq<InternalRecord>)
    requires InternalLedgerValid(records, |records|) && Paired(sha, c, records)
    ensures var g := Group(records, |records|, c.requestID); |g| == 1 && Answers(sha, c, g[0])
  {
    hide ValidInternalRecord;
    var id := c.requestID;
    var k :| 0 <= k < |records| && Answers(sha, c, records[k]) && OnlyOne(id, records, k);
    assert records[k].requestID == id && ValidInternalRecord(records[k]);
    GroupNonEmpty(records, |records|, id);
    var g := Group(records, |records|, id);
    if |g| > 1 {
      var a, b := GroupMany(records, |records|, id);
      assert false;
    }
    var j := GroupOne(records, |records|, id);
  }

  // ---- The order checks

  /** The entry of a record, if it carries a ledger sequence. */
  predicate Carries(c: ClientRecord) { c.internalSequence != 0 && !c.outcome.Unknown? }

  function KeyOf(c: ClientRecord): string { SequenceKey(c.source, c.dataCenter, c.class_) }

  ghost predicate OrderedByKey(order: seq<ClientRecord>) {
    forall i, j :: 0 <= i < j < |order| && Carries(order[i]) && Carries(order[j]) && KeyOf(order[i]) == KeyOf(order[j])
                   ==> order[i].internalSequence <= order[j].internalSequence
  }

  /** Appending a record keeps the entries monotone exactly when no earlier carrying record overtakes it. */
  lemma {:induction false} EntriesMonotone(order: seq<ClientRecord>)
    ensures Monotone(ClientEntries(order)) <==> OrderedByKey(order)
  {
    if order != [] {
      var front, c := order[..|order|-1], order[|order|-1];
      EntriesMonotone(front);
      var f := ClientEntries(front);
      if Carries(c) {
        var e := f + [Entry(c.requestID, KeyOf(c), c.internalSequence)];
        MonotoneAppend(f, e[|f|]);
        LastInOrder(front, KeyOf(c), c.internalSequence);
        OrderedAppend(front, c);
      } else {
        assert ClientEntries(order) == f;
        OrderedAppend(front, c);
      }
      assert order == front + [c];
    }
  }

  lemma {:induction false} MonotoneAppend(f: seq<Entry>, x: Entry)
    ensures Monotone(f + [x]) <==> Monotone(f) && EntriesBounded(f, x.key, x.sequence)
  {
    var e := f + [x];
    assert forall k :: 0 <= k < |f| ==> e[k] == f[k];
    assert e[|f|] == x;
  }

  lemma {:induction false} OrderedAppend(front: seq<ClientRecord>, c: ClientRecord)
    ensures OrderedByKey(front + [c]) <==> OrderedByKey(front) && (Carries(c) ==> NoneOvertakes(front, c))
  {
    hide Carries, KeyOf;
    var order := front + [c];
    assert forall k :: 0 <= k < |front| ==> order[k] == front[k];
    assert order[|front|] == c;
  }

  ghost predicate NoneOvertakes(front: seq<ClientRecord>, c: ClientRecord) {
    Bounded(front, KeyOf(c), c.internalSequence)
  }

  ghost predicate Bounded(front: seq<ClientRecord>, key: string, bound: nat) {
    forall i :: 0 <= i < |front| && Carries(front[i]) && KeyOf(front[i]) == key ==> front[i].internalSequence <= bound
  }

  ghost predicate EntriesBounded(f: seq<Entry>, key: string, bound: nat) {
    forall k :: 0 <= k < |f| && f[k].key == key ==> f[k].sequence <= bound
  }

  lemma {:induction false} LastInOrder(front: seq<ClientRecord>, key: string, bound: nat)
    ensures EntriesBounded(ClientEntries(front), key, bound) <==> Bounded(front, key, bound)
  {
    if front != [] {
      var rest, d := front[..|front|-1], front[|front|-1];
      LastInOrder(rest, key, bound);
      assert front == rest + [d];
      assert Bounded(front, key, bound) <==>
          Bounded(rest, key, bound) && (Carries(d) && KeyOf(d) == key ==> d.internalSequence <= bound) by {
        assert forall i :: 0 <= i < |rest| ==> front[i] == rest[i];
      }
      var f := ClientEntries(rest);
      if Carries(d) {
        var x := Entry(d.requestID, KeyOf(d), d.internalSequence);
        assert (f + [x])[|f|] == x;
        assert EntriesBounded(f + [x], key, bound) <==>
            EntriesBounded(f, key, bound) && (x.key == key ==> x.sequence <= bound) by {
          assert forall k :: 0 <= k < |f| ==> (f + [x])[k] == f[k];
        }
      } else {
        assert ClientEntries(front) == f;
      }
    }
  }

  // ---- No finding means a one-to-one correspondence

  ghost predicate NoFindings(sha: string -> string, client: Snapshot, internal: InternalSnapshot) {
    && MissingIDs(Compared(client), internal) == {} && LostIDs(Compared(client), internal) == {}
    && UnexpectedIDs(client, internal) == {} && InvalidIDs(sha, client, internal) == {}
    && NoDuplicates(client, internal) && NoneLate(Compared(client), internal)
  }

  ghost predicate AllSettle(sha: string -> string, done: set<ClientRecord>, internal: InternalSnapshot) {
    forall c :: c in done ==> Settles(sha, c, GroupOf(internal, c.requestID))
  }

  lemma {:induction false} FindingSetsEmpty(sha: string -> string, done: set<ClientRecord>, internal: InternalSnapshot)
    ensures MissingIDs(done, internal) == {} && LostIDs(done, internal) == {} && UnsentIDs(done, internal) == {}
            && ContradictedIDs(sha, done, internal) == {} && NoneRepeated(done, internal) && NoneLate(done, internal)
            <==> AllSettle(sha, done, internal)
  {
    hide GroupOf, Missing, Lost, Unsent, Contradicted, Repeated, TooLate, Settles;
    forall c | c in done
      ensures c.requestID in MissingIDs(done, internal) || !Missing(c, GroupOf(internal, c.requestID))
      ensures c.requestID in LostIDs(done, internal) || !Lost(c, GroupOf(internal, c.requestID))
      ensures c.requestID in UnsentIDs(done, internal) || !Unsent(c, GroupOf(internal, c.requestID))
      ensures c.requestID in ContradictedIDs(sha, done, internal) ||
          !Contradicted(sha, c, GroupOf(internal, c.requestID))
    {}
    forall c | c in done
      ensures Settles(sha, c, GroupOf(internal, c.requestID)) <==>
              var g := GroupOf(internal, c.requestID);
              !Missing(c, g) && !Lost(c, g) && !Unsent(c, g) && !Contradicted(sha, c, g) && !Repeated(c, g) &&
                  !TooLate(c, g)
    {
      SettlesIsNoFinding(sha, c, GroupOf(internal, c.requestID));
    }
  }

  lemma {:induction false} SettlesIsNoFinding(sha: string -> string, c: ClientRecord, g: seq<InternalRecord>)
    ensures Settles(sha, c, g) <==>
            !Missing(c, g) && !Lost(c, g) && !Unsent(c, g) && !Contradicted(sha, c, g) && !Repeated(c, g) &&
                !TooLate(c, g)
  {
    NoFinding(sha, c, g);
  }

  lemma {:induction false} InvalidEmpty(sha: string -> string, client: Snapshot, internal: InternalSnapshot)
    ensures InvalidIDs(sha, client, internal) == {} <==>
            && ClientLedgerValid(client.records) && InternalLedgerValid(internal.records, |internal.records|)
            && ContradictedIDs(sha, Compared(client), internal) == {}
    ensures ClientLedgerValid(client.records) ==> AcceptedRecords(client.records) == client.records
  {
    NothingRejected(client.records, |client.records|);
    NothingInvalid(internal.records, |internal.records|);
    assert client.records[..|client.records|] == client.records;
    hide ClientLedgerValid, InternalLedgerValid, ContradictedIDs;
    var rejected, invalid :=
        RejectedUpTo(client.records, |client.records|), InvalidUpTo(internal.records, |internal.records|);
    assert InvalidIDs(sha, client, internal) ==
        Names(rejected) + Names(invalid) + ContradictedIDs(sha, Compared(client), internal);
    EmptyElements(rejected);
    EmptyElements(invalid);
  }

  lemma {:induction false} EmptyElements(s: seq<string>)
    ensures Names(s) == {} <==> s == []
  {
    if s != [] { assert s[0] in Names(s); }
  }

  lemma {:induction false} SettleAll(sha: string -> string, records: seq<ClientRecord>, internal: InternalSnapshot)
    requires InternalLedgerValid(internal.records, |internal.records|)
    ensures AllSettle(sha, Elements(records), internal) <==>
            forall i :: 0 <= i < |records| ==> Accounted(sha, records[i], internal.records)
  {
    forall c: ClientRecord | c in records ensures Settles(sha, c, GroupOf(internal, c.requestID)) <==>
        Accounted(sha, c, internal.records) {
      SettlesIsPaired(sha, c, internal);
    }
    hide Settles, Accounted, GroupOf, InternalLedgerValid;
    if AllSettle(sha, Elements(records), internal) {
      forall i | 0 <= i < |records| ensures Accounted(sha, records[i], internal.records) {
        assert records[i] in Elements(records);
      }
    }
  }

  lemma {:induction false} NoOrphans(sha: string -> string, records: seq<ClientRecord>, internal: InternalSnapshot)
    requires InternalLedgerValid(internal.records, |internal.records|)
    requires forall i :: 0 <= i < |records| ==> Accounted(sha, records[i], internal.records)
    ensures OrphanIDs(records, internal) == {} <==>
        forall k :: 0 <= k < |internal.records| ==> HasClient(internal.records[k].requestID, records)
  {
    hide Paired, ValidInternalRecord;
    forall k | 0 <= k < |internal.records|
      ensures internal.records[k].requestID in OrphanIDs(records, internal) <==>
          !HasClient(internal.records[k].requestID, records)
    {
      var r := internal.records[k];
      assert ValidInternalRecord(r) && r in internal.records;
      if r.requestID in IDs(records) {
        var c :| c in records && c.requestID == r.requestID;
        var i :| 0 <= i < |records| && records[i] == c;
        assert Accounted(sha, records[i], internal.records);
        assert HasClient(r.requestID, records);
      } else {
        assert forall i :: 0 <= i < |records| ==> records[i].requestID in IDs(records);
      }
    }
    forall id | id in OrphanIDs(records, internal) ensures exists k ::
        0 <= k < |internal.records| && internal.records[k].requestID == id {}
  }

  /** Without findings the ledgers correspond one to one, and conversely. */
  lemma {:induction false} CorrespondExact(sha: string -> string, client: Snapshot, internal: InternalSnapshot)
    requires InternalLedgerValid(internal.records, |internal.records|)
    ensures AllSettle(sha, Elements(client.records), internal) && OrphanIDs(client.records, internal) == {} <==>
            Correspond(sha, client.records, internal.records)
  {
    SettleAll(sha, client.records, internal);
    hide AllSettle, Accounted, OrphanIDs, HasClient;
    if forall i :: 0 <= i < |client.records| ==> Accounted(sha, client.records[i], internal.records) {
      NoOrphans(sha, client.records, internal);
    }
  }

  lemma {:induction false} NoFindingsExact(sha: string -> string, client: Snapshot, internal: InternalSnapshot)
    ensures NoFindings(sha, client, internal) <==>
            && ClientLedgerValid(client.records) && InternalLedgerValid(internal.records, |internal.records|)
            && Correspond(sha, client.records, internal.records) && SingleOwners(internal.records, |internal.records|)
  {
    InvalidEmpty(sha, client, internal);
    FindingSetsEmpty(sha, Compared(client), internal);
    if ClientLedgerValid(client.records) && InternalLedgerValid(internal.records, |internal.records|) {
      CorrespondExact(sha, client, internal);
    }
    UnexpectedParts(client, internal);
    NoDuplicatesParts(client, internal);
    hide InvalidIDs, UnexpectedIDs, NoDuplicates, ClientLedgerValid, InternalLedgerValid, Correspond, SingleOwners,
        AllSettle,
         MissingIDs, LostIDs, UnsentIDs, ContradictedIDs, NoneRepeated, NoneLate, OrphanIDs;
  }

  lemma {:induction false} UnexpectedParts(client: Snapshot, internal: InternalSnapshot)
    ensures UnexpectedIDs(client, internal) == {} <==>
            UnsentIDs(Compared(client), internal) == {} && OrphanIDs(AcceptedRecords(client.records), internal) == {}
  {}
}
