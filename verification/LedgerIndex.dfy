/** Indexing the two ledgers before they are compared. */
module LedgerIndex {
  import opened Wrappers
  import opened ProbeTypes

  predicate Clashes(a: ClientRecord, b: ClientRecord) {
    || a.requestID == b.requestID
    || (a.class_ == b.class_ && a.sequence == b.sequence)
    || a.completionSequence == b.completionSequence
  }

  predicate Joins(accepted: seq<ClientRecord>, r: ClientRecord) {
    ValidClientRecord(r) && forall i :: 0 <= i < |accepted| ==> !Clashes(accepted[i], r)
  }

  /** The records that enter the index: valid ones that clash with none accepted before. */
  function AcceptedUpTo(records: seq<ClientRecord>, n: nat): seq<ClientRecord>
    requires n <= |records|
  {
    if n == 0 then []
    else
      var before := AcceptedUpTo(records, n - 1);
      if Joins(before, records[n-1]) then before + [records[n-1]] else before
  }

  /** The identifiers of the records that do not enter it. */
  function RejectedUpTo(records: seq<ClientRecord>, n: nat): seq<string>
    requires n <= |records|
  {
    if n == 0 then []
    else
      var before := RejectedUpTo(records, n - 1);
      if Joins(AcceptedUpTo(records, n - 1), records[n-1]) then before else before + [records[n-1].requestID]
  }

  function AcceptedRecords(records: seq<ClientRecord>): seq<ClientRecord> { AcceptedUpTo(records, |records|) }

  ghost predicate PairwiseApart(records: seq<ClientRecord>) {
    forall i, j :: 0 <= i < j < |records| ==> !Clashes(records[i], records[j])
  }

  /** All records are valid and no two clash. */
  ghost predicate ClientLedgerValid(records: seq<ClientRecord>) {
    && (forall i :: 0 <= i < |records| ==> ValidClientRecord(records[i]))
    && PairwiseApart(records)
  }

  lemma {:induction false} AcceptedSound(records: seq<ClientRecord>, n: nat)
    requires n <= |records|
    ensures ClientLedgerValid(AcceptedUpTo(records, n))
  {
    hide ValidClientRecord, Clashes;
    if n > 0 { AcceptedSound(records, n - 1); }
  }

  /** Nothing is rejected exactly when the ledger is valid, and then the index holds all of it. */
  lemma {:induction false} NothingRejected(records: seq<ClientRecord>, n: nat)
    requires n <= |records|
    ensures RejectedUpTo(records, n) == [] <==> ClientLedgerValid(records[..n])
    ensures RejectedUpTo(records, n) == [] ==> AcceptedUpTo(records, n) == records[..n]
  {
    hide ValidClientRecord, Clashes;
    if n > 0 {
      NothingRejected(records, n - 1);
      var front, all := records[..n-1], records[..n];
      assert all == front + [records[n-1]];
      if ClientLedgerValid(all) {
        assert ClientLedgerValid(front);
        assert forall i :: 0 <= i < n - 1 ==> !Clashes(all[i], all[n-1]);
      }
      if RejectedUpTo(records, n) == [] {
        assert forall i :: 0 <= i < n - 1 ==> !Clashes(front[i], records[n-1]);
      }
    }
  }

  ghost predicate IsClientIndex(accepted: seq<ClientRecord>, byID: map<string, ClientRecord>) {
    && (forall i :: 0 <= i < |accepted| ==> accepted[i].requestID in byID && byID[accepted[i].requestID] == accepted[i])
    && (forall id :: id in byID ==> byID[id] in accepted && byID[id].requestID == id)
  }

  /** The lookup tables kept beside the index. */
  ghost predicate Seen(accepted: seq<ClientRecord>, byID: map<string, ClientRecord>,
                       sequences: set<(TrafficClass, nat)>, completions: set<nat>)
  {
    && IsClientIndex(accepted, byID)
    && sequences == (set r | r in accepted :: (r.class_, r.sequence))
    && completions == (set r | r in accepted :: r.completionSequence)
  }

  predicate Fits(r: ClientRecord, byID: map<string, ClientRecord>, sequences: set<(TrafficClass, nat)>,
                 completions: set<nat>) {
    && ValidClientRecord(r)
    && r.requestID !in byID
    && (r.class_, r.sequence) !in sequences
    && r.completionSequence !in completions
  }

  /** The lookups decide acceptance. */
  lemma {:induction false} FitsIsJoins(accepted: seq<ClientRecord>, r: ClientRecord, byID: map<string, ClientRecord>,
                    sequences: set<(TrafficClass, nat)>, completions: set<nat>)
    requires Seen(accepted, byID, sequences, completions)
    ensures Joins(accepted, r) <==> Fits(r, byID, sequences, completions)
  {
    hide ValidClientRecord;
    if Joins(accepted, r) {
      assert forall a :: a in accepted ==> !Clashes(a, r);
    } else if ValidClientRecord(r) {
      var i :| 0 <= i < |accepted| && Clashes(accepted[i], r);
      assert accepted[i] in accepted;
    }
  }

  lemma {:induction false} SeenNext(accepted: seq<ClientRecord>, r: ClientRecord, byID: map<string, ClientRecord>,
                 sequences: set<(TrafficClass, nat)>, completions: set<nat>)
    requires Seen(accepted, byID, sequences, completions) && Joins(accepted, r)
    ensures Seen(accepted + [r], byID[r.requestID := r], sequences + {(r.class_, r.sequence)}, completions +
        {r.completionSequence})
  {
    hide ValidClientRecord;
    var all := accepted + [r];
    assert forall i :: 0 <= i < |accepted| ==> accepted[i].requestID != r.requestID;
    assert forall a :: a in all <==> a in accepted || a == r;
  }

  method IndexClient(records: seq<ClientRecord>) returns (byID: map<string, ClientRecord>, invalid: seq<string>)
    ensures IsClientIndex(AcceptedRecords(records), byID)
    ensures invalid == RejectedUpTo(records, |records|)
    ensures invalid == [] <==> ClientLedgerValid(records)
  {
    byID, invalid := map[], [];
    var sequences, completions := {}, {};
    assert Seen([], byID, sequences, completions);
    hide ValidClientRecord, ClientLedgerValid, Joins, Seen, IsClientIndex;
    for n := 0 to |records|
      invariant Seen(AcceptedUpTo(records, n), byID, sequences, completions)
      invariant invalid == RejectedUpTo(records, n)
    {
      var r := records[n];
      FitsIsJoins(AcceptedUpTo(records, n), r, byID, sequences, completions);
      if !Fits(r, byID, sequences, completions) {
        invalid := invalid + [r.requestID];
        continue;
      }
      SeenNext(AcceptedUpTo(records, n), r, byID, sequences, completions);
      byID := byID[r.requestID := r];
      sequences := sequences + {(r.class_, r.sequence)};
      completions := completions + {r.completionSequence};
    }
    SeenIndex(AcceptedRecords(records), byID, sequences, completions);
    NothingRejected(records, |records|);
    assert records[..|records|] == records;
  }

  lemma {:induction false} SeenIndex(accepted: seq<ClientRecord>, byID: map<string, ClientRecord>,
                  sequences: set<(TrafficClass, nat)>, completions: set<nat>)
    requires Seen(accepted, byID, sequences, completions)
    ensures IsClientIndex(accepted, byID)
  {}

  /** The valid internal records of one request, in ledger order. */
  function Group(records: seq<InternalRecord>, n: nat, id: string): seq<InternalRecord>
    requires n <= |records|
  {
    if n == 0 then []
    else
      Group(records, n - 1, id) +
      (if ValidInternalRecord(records[n-1]) && records[n-1].requestID == id then [records[n-1]] else [])
  }

  ghost predicate IsInternalIndex(records: seq<InternalRecord>, n: nat, byID: map<string, seq<InternalRecord>>)
    requires n <= |records|
  {
    forall id :: Group(records, n, id) == if id in byID then byID[id] else []
  }

  ghost predicate NonEmptyGroups(byID: map<string, seq<InternalRecord>>) {
    forall id :: id in byID ==> byID[id] != []
  }

  function InvalidUpTo(records: seq<InternalRecord>, n: nat): seq<string>
    requires n <= |records|
  {
    if n == 0 then []
    else InvalidUpTo(records, n - 1) + (if ValidInternalRecord(records[n-1]) then [] else [records[n-1].requestID])
  }

  ghost predicate InternalLedgerValid(records: seq<InternalRecord>, n: nat)
    requires n <= |records|
  {
    forall i :: 0 <= i < n ==> ValidInternalRecord(records[i])
  }

  lemma {:induction false} NothingInvalid(records: seq<InternalRecord>, n: nat)
    requires n <= |records|
    ensures InvalidUpTo(records, n) == [] <==> InternalLedgerValid(records, n)
  {
    if n > 0 { NothingInvalid(records, n - 1); }
  }

  lemma {:induction false} GroupNext(records: seq<InternalRecord>, n: nat, byID: map<string, seq<InternalRecord>>)
    requires n < |records| && IsInternalIndex(records, n, byID) && NonEmptyGroups(byID)
    ensures var r := records[n];
      var byID' := if ValidInternalRecord(r)
          then byID[r.requestID := (if r.requestID in byID then byID[r.requestID] else []) + [r]] else byID;
      IsInternalIndex(records, n + 1, byID') && NonEmptyGroups(byID')
    ensures InvalidUpTo(records, n + 1) == if ValidInternalRecord(records[n])
        then InvalidUpTo(records, n)
        else InvalidUpTo(records, n) + [records[n].requestID]
  {
    hide ValidInternalRecord;
    var r := records[n];
    forall id ensures Group(records, n + 1, id) == if ValidInternalRecord(r) && r.requestID == id
        then Group(records, n, id) + [r] else Group(records, n, id) {}
  }

  method IndexInternal(records: seq<InternalRecord>) returns (byID: map<string, seq<InternalRecord>>,
                       invalid: seq<string>)
    ensures IsInternalIndex(records, |records|, byID) && NonEmptyGroups(byID)
    ensures invalid == InvalidUpTo(records, |records|)
    ensures invalid == [] <==> InternalLedgerValid(records, |records|)
  {
    byID, invalid := map[], [];
    EmptyIndex(records);
    hide *;
    for n := 0 to |records|
      invariant IsInternalIndex(records, n, byID) && NonEmptyGroups(byID)
      invariant invalid == InvalidUpTo(records, n)
    {
      var r := records[n];
      GroupNext(records, n, byID);
      if !ValidInternalRecord(r) {
        invalid := invalid + [r.requestID];
        continue;
      }
      byID := byID[r.requestID := (if r.requestID in byID then byID[r.requestID] else []) + [r]];
    }
    NothingInvalid(records, |records|);
  }

  lemma {:induction false} EmptyIndex(records: seq<InternalRecord>)
    ensures IsInternalIndex(records, 0, map[]) && NonEmptyGroups(map[]) && InvalidUpTo(records, 0) == []
  {}

  /** Every idempotency digest belongs to one request. */
  ghost predicate SingleOwners(records: seq<InternalRecord>, n: nat)
    requires n <= |records|
  {
    forall i, j ::
      (0 <= i < j < n && ValidInternalRecord(records[i]) && ValidInternalRecord(records[j]) &&
          records[i].digest == records[j].digest != "")
      ==> records[i].requestID == records[j].requestID
  }

  datatype Duplicate = Duplicate(requestID: string, digest: string, count: nat)

  ghost predicate FirstOwners(records: seq<InternalRecord>, n: nat, owners: map<string, string>)
    requires n <= |records|
  {
    && (forall i :: 0 <= i < n && ValidInternalRecord(records[i]) && records[i].digest != "" ==>
         records[i].digest in owners)
    && (forall d :: d in owners ==>
         exists i ::
         0 <= i < n && ValidInternalRecord(records[i]) && records[i].digest == d && records[i].requestID == owners[d])
    && (SingleOwners(records, n) ==>
         forall i :: 0 <= i < n && ValidInternalRecord(records[i]) && records[i].digest != "" ==>
         owners[records[i].digest] == records[i].requestID)
  }

  lemma {:induction false} OwnersNext(records: seq<InternalRecord>, n: nat, owners: map<string, string>)
    requires n < |records| && FirstOwners(records, n, owners)
    ensures var r := records[n];
      if !ValidInternalRecord(r) || r.digest == "" then
        FirstOwners(records, n + 1, owners) && (SingleOwners(records, n + 1) <==> SingleOwners(records, n))
      else if r.digest in owners && owners[r.digest] != r.requestID then
        FirstOwners(records, n + 1, owners) && !SingleOwners(records, n + 1)
      else
        && (SingleOwners(records, n + 1) <==> SingleOwners(records, n))
        && FirstOwners(records, n + 1, owners[r.digest := r.requestID])
  {
    hide ValidInternalRecord;
    var r := records[n];
    if ValidInternalRecord(r) && r.digest != "" && r.digest in owners && owners[r.digest] != r.requestID {
      var i :| 0 <= i < n && ValidInternalRecord(records[i]) && records[i].digest == r.digest &&
          records[i].requestID == owners[r.digest];
      assert !SingleOwners(records, n + 1);
    }
  }

  lemma {:induction false} OwnersStart(records: seq<InternalRecord>)
    ensures FirstOwners(records, 0, map[]) && SingleOwners(records, 0)
  {}

  /** The request of the first valid record that carries the digest. */
  function Owner(records: seq<InternalRecord>, n: nat, digest: string): Option<string>
    requires n <= |records|
  {
    if n == 0 then None
    else
      var before := Owner(records, n - 1, digest);
      if before.Some? then before
      else if ValidInternalRecord(records[n-1]) && records[n-1].digest == digest != "" then Some(records[n-1].requestID)
      else None
  }

  /** One entry for every valid record whose digest another request carried first. */
  function OwnerDuplicates(records: seq<InternalRecord>, n: nat): seq<Duplicate>
    requires n <= |records|
  {
    if n == 0 then []
    else
      var r, owner := records[n-1], Owner(records, n - 1, records[n-1].digest);
      if ValidInternalRecord(r) && owner.Some? && owner.value != r.requestID
      then OwnerDuplicates(records, n - 1) + [Duplicate(r.requestID, r.digest, 2)]
      else OwnerDuplicates(records, n - 1)
  }

  ghost predicate OwnersAre(records: seq<InternalRecord>, n: nat, owners: map<string, string>)
    requires n <= |records|
  {
    "" !in owners && forall d :: Owner(records, n, d) == if d in owners then Some(owners[d]) else None
  }

  lemma {:induction false} OwnersStep(records: seq<InternalRecord>, n: nat, owners: map<string, string>)
    requires n < |records| && OwnersAre(records, n, owners)
    ensures var r := records[n];
      if !ValidInternalRecord(r) || r.digest == "" then
        OwnersAre(records, n + 1, owners) && OwnerDuplicates(records, n + 1) == OwnerDuplicates(records, n)
      else if r.digest in owners && owners[r.digest] != r.requestID then
        OwnersAre(records, n + 1, owners) &&
            OwnerDuplicates(records, n + 1) == OwnerDuplicates(records, n) + [Duplicate(r.requestID, r.digest, 2)]
      else
        OwnersAre(records, n + 1, owners[r.digest := r.requestID]) &&
            OwnerDuplicates(records, n + 1) == OwnerDuplicates(records, n)
  {
    hide ValidInternalRecord;
  }

  lemma {:induction false} OwnersEmpty(records: seq<InternalRecord>)
    ensures OwnersAre(records, 0, map[]) && OwnerDuplicates(records, 0) == []
  {}

  method CheckOwners(records: seq<InternalRecord>) returns (duplicates: seq<Duplicate>)
    ensures duplicates == OwnerDuplicates(records, |records|)
    ensures duplicates == [] <==> SingleOwners(records, |records|)
  {
    duplicates := [];
    var owners: map<string, string> := map[];
    OwnersStart(records);
    OwnersEmpty(records);
    hide *;
    for n := 0 to |records|
      invariant FirstOwners(records, n, owners) && OwnersAre(records, n, owners)
      invariant duplicates == OwnerDuplicates(records, n)
      invariant duplicates == [] <==> SingleOwners(records, n)
    {
      OwnersNext(records, n, owners);
      OwnersStep(records, n, owners);
      var r := records[n];
      if ValidInternalRecord(r) && r.digest != "" {
        if r.digest in owners && owners[r.digest] != r.requestID {
          duplicates := duplicates + [Duplicate(r.requestID, r.digest, 2)];
        } else {
          owners := owners[r.digest := r.requestID];
        }
      }
    }
  }
}
