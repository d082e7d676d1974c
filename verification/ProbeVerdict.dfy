/** The whole reconciliation: its lists, its two verdicts and what a clean result means. */
module ProbeVerdict {
  import opened ProbeTypes
  import opened LedgerIndex
  import opened LedgerOrder
  import opened ProbeReconcile
  import opened Sorting
  import opened StringOrder

  predicate Space(c: char) {
    || '\t' <= c <= '\r' || c == ' ' || c == '\U{0085}' || c == '\U{00A0}' || c == '\U{1680}'
    || '\U{2000}' <= c <= '\U{200a}' || c == '\U{2028}' || c == '\U{2029}' || c == '\U{202f}' || c == '\U{205f}' ||
         c == '\U{3000}'
  }

  function TrimLeft(s: string): string { if s != "" && Space(s[0]) then TrimLeft(s[1..]) else s }
  function TrimRight(s: string): string { if s != "" && Space(s[|s|-1]) then TrimRight(s[..|s|-1]) else s }

  const INVALID_REASON := "invalid_incomplete_reason"

  /** The trimmed text, or a fixed one for an unsafe text. */
  function Cleaned(reason: string): string {
    var text := TrimRight(TrimLeft(reason));
    if ValidDimension(text, false) then text else INVALID_REASON
  }

  function CleanedAll(reasons: seq<string>): seq<string> {
    if reasons == [] then [] else CleanedAll(reasons[..|reasons|-1]) + [Cleaned(reasons[|reasons|-1])]
  }

  /** Every element where it occurs first. */
  function FirstOccurrences(s: seq<string>): seq<string> {
    if s == [] then []
    else if s[|s|-1] in s[..|s|-1] then FirstOccurrences(s[..|s|-1])
    else FirstOccurrences(s[..|s|-1]) + [s[|s|-1]]
  }

  /** x stands at position i and nowhere before. */
  predicate FirstAt(s: seq<string>, x: string, i: nat) { i < |s| && s[i] == x && x !in s[..i] }

  /** r lists the elements of s once each, in the order in which they first occur. */
  ghost predicate InFirstOrder(s: seq<string>, r: seq<string>) {
    && NoRepeats(r) && (forall x :: x in r <==> x in s)
    && forall a, b, i: nat, j: nat :: 0 <= a < b < |r| && FirstAt(s, r[a], i) && FirstAt(s, r[b], j) ==> i < j
  }

  lemma {:induction false} FirstOccurrencesInOrder(s: seq<string>)
    ensures InFirstOrder(s, FirstOccurrences(s))
  {
    if s != [] {
      var front, x, r := s[..|s|-1], s[|s|-1], FirstOccurrences(s);
      FirstOccurrencesInOrder(front);
      assert s == front + [x];
      forall a, b, i: nat, j: nat | 0 <= a < b < |r| && FirstAt(s, r[a], i) && FirstAt(s, r[b], j) ensures i < j {
        var before := FirstOccurrences(front);
        assert r[a] in front by { assert r[a] == before[a] && before[a] in before; }
        FirstInFront(front, x, r[a], i);
        if b < |before| {
          assert r[b] in front by { assert r[b] == before[b] && before[b] in before; }
          FirstInFront(front, x, r[b], j);
        } else {
          assert r[b] == x && x !in front;
        }
      }
    }
  }

  lemma {:induction false} FirstInFront(front: seq<string>, x: string, y: string, i: nat)
    requires y in front && FirstAt(front + [x], y, i)
    ensures FirstAt(front, y, i)
  {
    assert (front + [x])[..|front|] == front;
    if i < |front| { assert (front + [x])[..i] == front[..i]; }
  }

  lemma {:induction false} CleanedValid(reasons: seq<string>)
    ensures |CleanedAll(reasons)| == |reasons| && forall x :: x in CleanedAll(reasons) ==> ValidDimension(x, false)
  {
    if reasons != [] {
      CleanedValid(reasons[..|reasons|-1]);
      assert ValidDimension(INVALID_REASON, false);
    }
  }

  lemma {:induction false} FirstOccurrencesEmpty(s: seq<string>)
    ensures FirstOccurrences(s) == [] <==> s == []
  {
    if s != [] {
      FirstOccurrencesInOrder(s);
      assert s[0] in s;
    }
  }

  /** Trims, replaces unsafe texts and keeps each text where it occurs first; nothing turns into no reason. */
  method NormalizedReasons(reasons: seq<string>) returns (r: seq<string>)
    ensures r == FirstOccurrences(CleanedAll(reasons)) && InFirstOrder(CleanedAll(reasons), r)
    ensures r == [] <==> reasons == []
    ensures NoRepeats(r) && forall x :: x in r ==> ValidDimension(x, false)
  {
    hide Cleaned, ValidDimension, InFirstOrder;
    r := [];
    var unique: set<string> := {};
    CleanedValid(reasons);
    for n := 0 to |reasons|
      invariant r == FirstOccurrences(CleanedAll(reasons[..n]))
      invariant forall x :: x in unique <==> x in CleanedAll(reasons[..n])
    {
      assert reasons[..n+1][..n] == reasons[..n];
      var reason := Cleaned(reasons[n]);
      if reason in unique {
        continue;
      }
      unique := unique + {reason};
      r := r + [reason];
    }
    assert reasons[..|reasons|] == reasons;
    FirstOccurrencesInOrder(CleanedAll(reasons));
    FirstOccurrencesEmpty(CleanedAll(reasons));
    InOrderParts(CleanedAll(reasons), r);
  }

  lemma {:induction false} InOrderParts(s: seq<string>, r: seq<string>)
    requires InFirstOrder(s, r)
    ensures NoRepeats(r) && forall x :: x in r <==> x in s
  {}

  predicate EvidenceComplete(client: Snapshot, internal: InternalSnapshot) {
    && client.isComplete && client.incompleteReasons == []
    && internal.isComplete && internal.incompleteReasons == []
    && client.records != [] && internal.records != []
  }

  /** What one snapshot adds: its own reasons, or a fixed one if it is incomplete without saying why. */
  function SnapshotParts(isComplete: bool, reasons: seq<string>, unnamed: string): seq<string> {
    if isComplete || reasons != [] then reasons else [unnamed]
  }

  /** Everything that makes the evidence incomplete, in the order in which it is looked at. */
  function CollectedReasons(client: Snapshot, internal: InternalSnapshot): seq<string> {
    SnapshotParts(client.isComplete, client.incompleteReasons, "client_snapshot_incomplete") +
    SnapshotParts(internal.isComplete, internal.incompleteReasons, "internal_snapshot_incomplete") +
    (if client.records == [] then ["client_ledger_empty"] else []) +
        (if internal.records == [] then ["internal_ledger_empty"] else [])
  }

  /** The reasons of the result: the collected ones, cleaned and each where it occurs first. */
  function ReasonsOf(client: Snapshot, internal: InternalSnapshot): seq<string> {
    FirstOccurrences(CleanedAll(CollectedReasons(client, internal)))
  }

  method IncompleteReasons(client: Snapshot, internal: InternalSnapshot) returns (reasons: seq<string>)
    ensures reasons == ReasonsOf(client, internal)
    ensures reasons == [] <==> EvidenceComplete(client, internal)
  {
    hide InFirstOrder, FirstOccurrences, CleanedAll, NoRepeats, ValidDimension;
    reasons := [];
    if !client.isComplete || client.incompleteReasons != [] {
      reasons := reasons + client.incompleteReasons;
      if client.incompleteReasons == [] {
        reasons := reasons + ["client_snapshot_incomplete"];
      }
    }
    ghost var first := SnapshotParts(client.isComplete, client.incompleteReasons, "client_snapshot_incomplete");
    assert reasons == first;
    if !internal.isComplete || internal.incompleteReasons != [] {
      reasons := reasons + internal.incompleteReasons;
      if internal.incompleteReasons == [] {
        reasons := reasons + ["internal_snapshot_incomplete"];
      }
    }
    assert reasons ==
        first + SnapshotParts(internal.isComplete, internal.incompleteReasons, "internal_snapshot_incomplete");
    if client.records == [] {
      reasons := reasons + ["client_ledger_empty"];
    }
    if internal.records == [] {
      reasons := reasons + ["internal_ledger_empty"];
    }
    assert reasons == CollectedReasons(client, internal);
    reasons := NormalizedReasons(reasons);
  }

  /** The entries of the client stage: completed records that carry a ledger sequence. */
  function ClientEntries(order: seq<ClientRecord>): seq<Entry> {
    if order == [] then []
    else
      var c := order[|order|-1];
      ClientEntries(order[..|order|-1]) +
      (if c.internalSequence == 0 || c.outcome.Unknown? then []
       else [Entry(c.requestID, SequenceKey(c.source, c.dataCenter, c.class_), c.internalSequence)])
  }

  /** The entries of the internal stage: its valid records in ledger order. */
  function InternalEntries(records: seq<InternalRecord>, n: nat): seq<Entry>
    requires n <= |records|
  {
    if n == 0 then []
    else
      var r := records[n-1];
      InternalEntries(records, n - 1) +
      (if ValidInternalRecord(r)
          then [Entry(r.requestID, SequenceKey(r.source, r.dataCenter, r.class_), r.sequence)]
          else [])
  }

  ghost function ClientReorders(client: Snapshot): seq<Reordered> {
    var e := ClientEntries(CompletionOrder(AcceptedRecords(client.records)));
    Reorders(e, ClientResponse, |e|)
  }

  ghost function InternalReorders(internal: InternalSnapshot): seq<Reordered> {
    var e := InternalEntries(internal.records, |internal.records|);
    Reorders(e, InternalLedger, |e|)
  }

  function Compared(client: Snapshot): set<ClientRecord> { Elements(AcceptedRecords(client.records)) }

  function UnexpectedIDs(client: Snapshot, internal: InternalSnapshot): set<string> {
    UnsentIDs(Compared(client), internal) + OrphanIDs(AcceptedRecords(client.records), internal)
  }

  function InvalidIDs(sha: string -> string, client: Snapshot, internal: InternalSnapshot): set<string> {
    Names(RejectedUpTo(client.records, |client.records|)) + Names(InvalidUpTo(internal.records, |internal.records|))
    + ContradictedIDs(sha, Compared(client), internal)
  }

  function Names(s: seq<string>): set<string> { set x | x in s }

  ghost predicate SortedExactly(list: seq<string>, s: set<string>) { SortedBy(Leq, list) && Exactly(list, s) }

  ghost predicate NoDuplicates(client: Snapshot, internal: InternalSnapshot) {
    SingleOwners(internal.records, |internal.records|) && NoneRepeated(Compared(client), internal)
  }

  /** The repeats of the compared records, in ledger order. */
  function RepeatsOf(sha: string -> string, client: Snapshot, internal: InternalSnapshot): seq<Duplicate> {
    var accepted := AcceptedRecords(client.records);
    Gathered(accepted, |accepted|, IDs(accepted), DuplicatesFor(sha, internal))
  }

  /** The late results of the compared records, in ledger order. */
  function LateResultsOf(client: Snapshot, internal: InternalSnapshot): seq<LateResult> {
    var accepted := AcceptedRecords(client.records);
    Gathered(accepted, |accepted|, IDs(accepted), LateFor(internal))
  }

  /** The duplicates are the stolen digests of the internal ledger and the repeats, as often as they occur. */
  ghost predicate DuplicatesListed(sha: string -> string, client: Snapshot, internal: InternalSnapshot,
                                   list: seq<Duplicate>) {
    && SortedBy(DuplicateLeq, list)
    && multiset(list) ==
         multiset(OwnerDuplicates(internal.records, |internal.records|) + RepeatsOf(sha, client, internal))
  }

  ghost predicate LateListed(client: Snapshot, internal: InternalSnapshot, list: seq<LateResult>) {
    SortedBy(LateLeq, list) && multiset(list) == multiset(LateResultsOf(client, internal))
  }

  /** Everything the result says, as a function of the two snapshots. */
  ghost predicate Describes(sha: string -> string, client: Snapshot, internal: InternalSnapshot, r: Reconciliation) {
    && SortedExactly(r.missing, MissingIDs(Compared(client), internal))
    && SortedExactly(r.lostResponses, LostIDs(Compared(client), internal))
    && SortedExactly(r.unexpected, UnexpectedIDs(client, internal))
    && SortedExactly(r.invalid, InvalidIDs(sha, client, internal))
    && (r.duplicate == [] <==> NoDuplicates(client, internal))
    && (r.late == [] <==> NoneLate(Compared(client), internal))
    && DuplicatesListed(sha, client, internal, r.duplicate) && LateListed(client, internal, r.late)
    && multiset(r.reordered) == multiset(ClientReorders(client)) + multiset(InternalReorders(internal))
    && r.incompleteReasons == ReasonsOf(client, internal) &&
         (r.incompleteReasons == [] <==> EvidenceComplete(client, internal))
    && r.hasIntegrityFault == !(r.missing == [] && r.lostResponses == [] && r.unexpected == [] && r.duplicate == []
                                && r.late == [] && r.reordered == [] && r.invalid == [])
    && r.isComplete ==
         (r.incompleteReasons == [] && r.missing == [] && r.unexpected == [] && r.duplicate == [] && r.invalid == [])
  }

  predicate DuplicateLeq(a: Duplicate, b: Duplicate) {
    if a.requestID != b.requestID then Leq(a.requestID, b.requestID) else Leq(a.digest, b.digest)
  }
  predicate LateLeq(a: LateResult, b: LateResult) { Leq(a.requestID, b.requestID) }
  predicate ReorderedLeq(a: Reordered, b: Reordered) {
    if a.stage != b.stage then a.stage.ClientResponse?
    else a.sequence < b.sequence || (a.sequence == b.sequence && Leq(a.requestID, b.requestID))
  }

  lemma {:induction false} SortKeepsEmpty<T>(s: seq<T>, leq: (T, T) -> bool)
    ensures Sort(s, leq) == [] <==> s == []
  {
    SamePermutation(Sort(s, leq), s);
  }

  lemma {:induction false} SortExactly(list: seq<string>, s: set<string>)
    requires Exactly(list, s)
    ensures SortedExactly(SortStrings(list), s)
  {
    var r := SortStrings(list);
    SamePermutation(r, list);
    forall i, j | 0 <= i < j < |r| ensures r[i] != r[j] {
      TwoPositions(r, i, j);
      DistinctMultiplicity(list, r[i]);
    }
  }

  lemma {:induction false} TwoPositions<T>(s: seq<T>, i: nat, j: nat)
    requires i < j < |s|
    ensures multiset(s)[s[i]] >= if s[i] == s[j] then 2 else 1
  {
    assert s == s[..i] + [s[i]] + s[i+1..j] + [s[j]] + s[j+1..];
  }

  /** The first list of identifiers that cannot be trusted: rejected, invalid and contradicted ones. */
  lemma {:induction false} InvalidExactly(sha: string -> string, client: Snapshot, internal: InternalSnapshot,
                                          contradicted: seq<string>)
    requires Exactly(contradicted, ContradictedIDs(sha, Compared(client), internal))
    ensures var all :=
        RejectedUpTo(client.records, |client.records|) + InvalidUpTo(internal.records, |internal.records|) +
        contradicted;
      SortedExactly(Compact(SortStrings(all)), InvalidIDs(sha, client, internal))
  {
    var all :=
        RejectedUpTo(client.records, |client.records|) + InvalidUpTo(internal.records, |internal.records|) +
        contradicted;
    SamePermutation(SortStrings(all), all);
    CompactSorted(SortStrings(all));
  }

  lemma {:induction false} UnexpectedExactly(client: Snapshot, internal: InternalSnapshot, unsent: seq<string>,
                                             orphans: seq<string>)
    requires Exactly(unsent, UnsentIDs(Compared(client), internal))
    requires Exactly(orphans, OrphanIDs(AcceptedRecords(client.records), internal))
    ensures Exactly(unsent + orphans, UnexpectedIDs(client, internal))
  {
    hide Unsent, GroupOf, AcceptedRecords, ValidInternalRecord, Exactly;
    var a, b := UnsentIDs(Compared(client), internal), OrphanIDs(AcceptedRecords(client.records), internal);
    forall x | x in a ensures x in IDs(AcceptedRecords(client.records)) {}
    ExactlyConcat(unsent, a, orphans, b);
  }

  lemma {:induction false} ExactlyConcat(a: seq<string>, s: set<string>, b: seq<string>, t: set<string>)
    requires Exactly(a, s) && Exactly(b, t) && s !! t
    ensures Exactly(a + b, s + t)
  {
    var c := a + b;
    forall i, j | 0 <= i < j < |c| ensures c[i] != c[j] {
      if i < |a| <= j { assert a[i] in a && b[j-|a|] in b; }
    }
  }

  method ListClientEntries(order: seq<ClientRecord>) returns (e: seq<Entry>)
    ensures e == ClientEntries(order)
  {
    e := [];
    for n := 0 to |order|
      invariant e == ClientEntries(order[..n])
    {
      var c := order[n];
      assert order[..n+1][..n] == order[..n];
      if c.internalSequence == 0 || c.outcome.Unknown? {
        continue;
      }
      e := e + [Entry(c.requestID, SequenceKey(c.source, c.dataCenter, c.class_), c.internalSequence)];
    }
    assert order[..|order|] == order;
  }

  method ListInternalEntries(records: seq<InternalRecord>) returns (e: seq<Entry>)
    ensures e == InternalEntries(records, |records|)
  {
    e := [];
    hide ValidInternalRecord;
    for n := 0 to |records|
      invariant e == InternalEntries(records, n)
    {
      var r := records[n];
      if !ValidInternalRecord(r) {
        continue;
      }
      e := e + [Entry(r.requestID, SequenceKey(r.source, r.dataCenter, r.class_), r.sequence)];
    }
  }

  /** Both stages of the order check. */
  method FindReorders(client: Snapshot, byID: map<string, ClientRecord>,
                      internal: InternalSnapshot) returns (r: seq<Reordered>)
    requires IsClientIndex(AcceptedRecords(client.records), byID)
    ensures r == ClientReorders(client) + InternalReorders(internal)
  {
    AcceptedSound(client.records, |client.records|);
    var order := ListByCompletion(byID, AcceptedRecords(client.records));
    hide IsClientIndex, PairwiseApart, ClientLedgerValid, Monotone;
    var clientEntries := ListClientEntries(order);
    var internalEntries := ListInternalEntries(internal.records);
    var c := ScanOrder(clientEntries, ClientResponse);
    var i := ScanOrder(internalEntries, InternalLedger);
    r := c + i;
  }

  /** Reconciles two snapshots; sha is the digest function, and the iteration order of both indexes is arbitrary. */
  method Reconcile(sha: string -> string, client: Snapshot, internal: InternalSnapshot) returns (r: Reconciliation)
    ensures Describes(sha, client, internal, r)
  {
    var reasons := IncompleteReasons(client, internal);
    var byID, clientInvalid := IndexClient(client.records);
    var internalByID, internalInvalid := IndexInternal(internal.records);
    var reordered := FindReorders(client, byID, internal);
    var owners := CheckOwners(internal.records);
    AcceptedSound(client.records, |client.records|);
    var all := MatchAll(sha, byID, AcceptedRecords(client.records), internal, internalByID);
    IndexValues(AcceptedRecords(client.records), byID);
    var orphans := ListOrphans(byID, AcceptedRecords(client.records), internal, internalByID);
    r := Assemble(sha, client, internal, reasons, clientInvalid, internalInvalid, reordered, owners, all, orphans);
  }

  /** Sorts the lists and derives the two verdicts. */
  method Assemble(ghost sha: string -> string, client: Snapshot, internal: InternalSnapshot, reasons: seq<string>,
                  clientInvalid: seq<string>, internalInvalid: seq<string>, reordered: seq<Reordered>,
                  owners: seq<Duplicate>, all: Findings, orphans: seq<string>) returns (r: Reconciliation)
    requires reasons == ReasonsOf(client, internal) && (reasons == [] <==> EvidenceComplete(client, internal))
    requires clientInvalid == RejectedUpTo(client.records, |client.records|)
    requires internalInvalid == InvalidUpTo(internal.records, |internal.records|)
    requires reordered == ClientReorders(client) + InternalReorders(internal)
    requires owners == OwnerDuplicates(internal.records, |internal.records|)
    requires owners == [] <==> SingleOwners(internal.records, |internal.records|)
    requires Found(sha, Compared(client), internal, all)
    requires GatheredAll(sha, AcceptedRecords(client.records), IDs(AcceptedRecords(client.records)), internal, all)
    requires Exactly(orphans, OrphanIDs(AcceptedRecords(client.records), internal))
    ensures Describes(sha, client, internal, r)
  {
    hide *;
    FoundParts(sha, client, internal, all);
    SortExactly(all.missing, MissingIDs(Compared(client), internal));
    SortExactly(all.lost, LostIDs(Compared(client), internal));
    UnexpectedExactly(client, internal, all.unsent, orphans);
    SortExactly(all.unsent + orphans, UnexpectedIDs(client, internal));
    InvalidExactly(sha, client, internal, all.invalid);
    var missing, lost, unexpected := SortStrings(all.missing), SortStrings(all.lost), SortStrings(all.unsent + orphans);
    var invalid := Compact(SortStrings(clientInvalid + internalInvalid + all.invalid));
    var duplicate := Sort(owners + all.duplicates, DuplicateLeq);
    SortKeepsEmpty(owners + all.duplicates, DuplicateLeq);
    var late := Sort(all.late, LateLeq);
    SortKeepsEmpty(all.late, LateLeq);
    ListsSorted(sha, client, internal, owners, all);
    var ordered := Sort(reordered, ReorderedLeq);
    var complete := reasons == [] && missing == [] && unexpected == [] && duplicate == [] && invalid == [];
    var fault :=
        !(missing == [] && lost == [] && unexpected == [] && duplicate == [] && late == [] && ordered == [] &&
        invalid == []);
    r := Reconciliation(missing, lost, unexpected, duplicate, late, ordered, invalid, complete, fault, reasons);
    NoDuplicatesParts(client, internal);
    Conclude(sha, client, internal, r);
  }

  lemma {:induction false} FoundParts(sha: string -> string, client: Snapshot, internal: InternalSnapshot,
                                      all: Findings)
    requires Found(sha, Compared(client), internal, all)
    ensures Exactly(all.missing, MissingIDs(Compared(client), internal))
    ensures Exactly(all.lost, LostIDs(Compared(client), internal))
    ensures Exactly(all.unsent, UnsentIDs(Compared(client), internal))
    ensures Exactly(all.invalid, ContradictedIDs(sha, Compared(client), internal))
    ensures all.duplicates == [] <==> NoneRepeated(Compared(client), internal)
    ensures all.late == [] <==> NoneLate(Compared(client), internal)
  {}

  lemma {:induction false} DuplicateOrder()
    ensures TotalPreorder(DuplicateLeq) && TotalPreorder(LateLeq)
  {
    hide Leq;
    LeqOrder();
    forall x: Duplicate, y: Duplicate, z: Duplicate | DuplicateLeq(x, y) &&
        DuplicateLeq(y, z) ensures DuplicateLeq(x, z) {
      if x.requestID == z.requestID && x.requestID != y.requestID { AntiSymmetric(x.requestID, y.requestID); }
    }
  }

  lemma {:induction false} ListsSorted(sha: string -> string, client: Snapshot, internal: InternalSnapshot,
                                       owners: seq<Duplicate>, all: Findings)
    requires owners == OwnerDuplicates(internal.records, |internal.records|)
    requires GatheredAll(sha, AcceptedRecords(client.records), IDs(AcceptedRecords(client.records)), internal, all)
    ensures DuplicatesListed(sha, client, internal, Sort(owners + all.duplicates, DuplicateLeq))
    ensures LateListed(client, internal, Sort(all.late, LateLeq))
  {
    hide OwnerDuplicates, Gathered, AcceptedRecords, DuplicateLeq, LateLeq, TotalPreorder, SortedBy;
    DuplicateOrder();
    SortSorts(owners + all.duplicates, DuplicateLeq);
    SortSorts(all.late, LateLeq);
  }

  lemma {:induction false} NoDuplicatesParts(client: Snapshot, internal: InternalSnapshot)
    ensures NoDuplicates(client, internal) <==>
            SingleOwners(internal.records, |internal.records|) && NoneRepeated(Compared(client), internal)
  {}

  lemma {:induction false} Conclude(sha: string -> string, client: Snapshot, internal: InternalSnapshot,
                                    r: Reconciliation)
    requires SortedExactly(r.missing, MissingIDs(Compared(client), internal))
    requires SortedExactly(r.lostResponses, LostIDs(Compared(client), internal))
    requires SortedExactly(r.unexpected, UnexpectedIDs(client, internal))
    requires SortedExactly(r.invalid, InvalidIDs(sha, client, internal))
    requires r.duplicate == [] <==> NoDuplicates(client, internal)
    requires r.late == [] <==> NoneLate(Compared(client), internal)
    requires DuplicatesListed(sha, client, internal, r.duplicate) && LateListed(client, internal, r.late)
    requires multiset(r.reordered) == multiset(ClientReorders(client) + InternalReorders(internal))
    requires r.incompleteReasons == ReasonsOf(client, internal)
    requires (r.incompleteReasons == [] <==> EvidenceComplete(client, internal))
    requires r.hasIntegrityFault ==
        !(r.missing == [] && r.lostResponses == [] && r.unexpected == [] && r.duplicate == []
                                      && r.late == [] && r.reordered == [] && r.invalid == [])
    requires r.isComplete ==
        (r.incompleteReasons == [] && r.missing == [] && r.unexpected == [] && r.duplicate == [] && r.invalid == [])
    ensures Describes(sha, client, internal, r)
  {
    hide SortedExactly, NoDuplicates, NoneLate, EvidenceComplete, ClientReorders, InternalReorders, UnexpectedIDs,
        InvalidIDs, Compared,
         DuplicatesListed, LateListed, ReasonsOf;
  }
}
