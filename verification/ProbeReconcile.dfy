/** Comparing the probe's own ledger with the ledger of the internal service. */
module ProbeReconcile {
  import opened ProbeTypes
  import opened LedgerIndex
  import opened LedgerOrder
  import opened Sorting
  import opened StringOrder

  datatype LateResult = LateResult(requestID: string, deadlineOffset: Duration, completedOffset: Duration)
  datatype Reconciliation = Reconciliation(
    missing: seq<string>, lostResponses: seq<string>, unexpected: seq<string>, duplicate: seq<Duplicate>,
    late: seq<LateResult>, reordered: seq<Reordered>, invalid: seq<string>,
    isComplete: bool, hasIntegrityFault: bool, incompleteReasons: seq<string>)

  /** sha stands for the hexadecimal SHA-256; the empty key has no digest. */
  function DigestString(sha: string -> string, value: string): string { if value == "" then "" else sha(value) }

  predicate Mismatch(sha: string -> string, c: ClientRecord, i: InternalRecord) {
    !SemanticallyMatch(c, i) || (c.class_.MutatingTraffic? && i.digest != DigestString(sha, c.idempotencyKey))
  }

  predicate LateInternal(c: ClientRecord, i: InternalRecord) {
    0 < i.completedOffset && c.deadlineOffset < i.completedOffset
  }

  // What a client record means beside the internal records found under its identifier.
  predicate Missing(c: ClientRecord, g: seq<InternalRecord>) { c.dispatched && g == [] }
  predicate Lost(c: ClientRecord, g: seq<InternalRecord>) { c.dispatched && g != [] && !c.outcome.Success? }
  predicate Unsent(c: ClientRecord, g: seq<InternalRecord>) { !c.dispatched && g != [] }
  predicate Contradicted(sha: string -> string, c: ClientRecord, g: seq<InternalRecord>) {
    c.dispatched && exists i :: 0 <= i < |g| && Mismatch(sha, c, g[i])
  }
  predicate Repeated(c: ClientRecord, g: seq<InternalRecord>) {
    c.dispatched && (c.duplicate || |g| > 1 || exists i :: 0 <= i < |g| && g[i].attempts > 1)
  }
  predicate TooLate(c: ClientRecord, g: seq<InternalRecord>) {
    c.dispatched && (c.finishedOffset > c.deadlineOffset || exists i :: 0 <= i < |g| && LateInternal(c, g[i]))
  }

  datatype Finding = Finding(missing: bool, lost: bool, unsent: bool, invalid: bool, duplicates: seq<Duplicate>,
                             late: seq<LateResult>)

  function AttemptDuplicates(c: ClientRecord, g: seq<InternalRecord>): seq<Duplicate> {
    if g == [] then []
    else
      var i := g[|g|-1];
      if i.attempts > 1 then AttemptDuplicates(c, g[..|g|-1]) + [Duplicate(c.requestID, i.digest, i.attempts)]
      else AttemptDuplicates(c, g[..|g|-1])
  }

  /** A client-side repeat, several internal records, and every internal record of several attempts. */
  function DuplicatesOf(sha: string -> string, c: ClientRecord, g: seq<InternalRecord>): seq<Duplicate> {
    if !c.dispatched then []
    else
      var d := DigestString(sha, c.idempotencyKey);
      (if c.duplicate then [Duplicate(c.requestID, d, 2)] else []) +
      (if |g| > 1 then [Duplicate(c.requestID, d, |g|)] else []) + AttemptDuplicates(c, g)
  }

  function LateRecords(c: ClientRecord, g: seq<InternalRecord>): seq<LateResult> {
    if g == [] then []
    else
      var i := g[|g|-1];
      if LateInternal(c, i)
          then LateRecords(c, g[..|g|-1]) + [LateResult(c.requestID, c.deadlineOffset, i.completedOffset)]
      else LateRecords(c, g[..|g|-1])
  }

  /** The client's own late finish, and every late internal completion. */
  function LateOf(c: ClientRecord, g: seq<InternalRecord>): seq<LateResult> {
    if !c.dispatched then []
    else (if c.finishedOffset > c.deadlineOffset
        then [LateResult(c.requestID, c.deadlineOffset, c.finishedOffset)]
        else []) + LateRecords(c, g)
  }

  ghost predicate FindingFor(sha: string -> string, c: ClientRecord, g: seq<InternalRecord>, f: Finding) {
    && f.missing == Missing(c, g) && f.lost == Lost(c, g) && f.unsent == Unsent(c, g)
    && f.invalid == Contradicted(sha, c, g)
    && f.duplicates == DuplicatesOf(sha, c, g) && f.late == LateOf(c, g)
  }

  lemma {:induction false} AttemptDuplicatesEmpty(c: ClientRecord, g: seq<InternalRecord>)
    ensures AttemptDuplicates(c, g) != [] <==> exists i :: 0 <= i < |g| && g[i].attempts > 1
  {
    if g != [] { AttemptDuplicatesEmpty(c, g[..|g|-1]); }
  }

  lemma {:induction false} LateRecordsEmpty(c: ClientRecord, g: seq<InternalRecord>)
    ensures LateRecords(c, g) != [] <==> exists i :: 0 <= i < |g| && LateInternal(c, g[i])
  {
    if g != [] { LateRecordsEmpty(c, g[..|g|-1]); }
  }

  lemma {:induction false} FindingsEmpty(sha: string -> string, c: ClientRecord, g: seq<InternalRecord>)
    ensures DuplicatesOf(sha, c, g) != [] <==> Repeated(c, g)
    ensures LateOf(c, g) != [] <==> TooLate(c, g)
  {
    hide AttemptDuplicates, LateRecords, LateInternal;
    AttemptDuplicatesEmpty(c, g);
    LateRecordsEmpty(c, g);
  }

  lemma {:induction false} NextDuplicates(c: ClientRecord, g: seq<InternalRecord>, n: nat)
    requires n < |g|
    ensures AttemptDuplicates(c, g[..n+1]) ==
            AttemptDuplicates(c, g[..n]) +
                (if g[n].attempts > 1 then [Duplicate(c.requestID, g[n].digest, g[n].attempts)] else [])
    ensures LateRecords(c, g[..n+1]) ==
            LateRecords(c, g[..n]) +
                (if LateInternal(c, g[n])
                then [LateResult(c.requestID, c.deadlineOffset, g[n].completedOffset)]
                else [])
  {
    assert g[..n+1][..n] == g[..n];
  }

  lemma {:induction false} NoDuplicatesYet(c: ClientRecord, g: seq<InternalRecord>)
    ensures AttemptDuplicates(c, g[..0]) == [] && LateRecords(c, g[..0]) == [] && g[..|g|] == g
  {}

  /** The inner loop: what each internal record of the group adds. */
  method MatchGroup(sha: string -> string, c: ClientRecord, g: seq<InternalRecord>)
    returns (invalid: bool, duplicates: seq<Duplicate>, late: seq<LateResult>)
    ensures invalid <==> exists i :: 0 <= i < |g| && Mismatch(sha, c, g[i])
    ensures duplicates == AttemptDuplicates(c, g) && late == LateRecords(c, g)
  {
    hide Mismatch, AttemptDuplicates, LateRecords, LateInternal;
    NoDuplicatesYet(c, g);
    duplicates, late, invalid := [], [], false;
    for n := 0 to |g|
      invariant invalid <==> exists i :: 0 <= i < n && Mismatch(sha, c, g[i])
      invariant duplicates == AttemptDuplicates(c, g[..n]) && late == LateRecords(c, g[..n])
    {
      NextDuplicates(c, g, n);
      if Mismatch(sha, c, g[n]) {
        invalid := true;
      }
      if g[n].attempts > 1 {
        duplicates := duplicates + [Duplicate(c.requestID, g[n].digest, g[n].attempts)];
      }
      if LateInternal(c, g[n]) {
        late := late + [LateResult(c.requestID, c.deadlineOffset, g[n].completedOffset)];
      }
    }
  }

  /** The body of the comparison loop for one client record. */
  method MatchRecord(sha: string -> string, c: ClientRecord, g: seq<InternalRecord>) returns (f: Finding)
    ensures FindingFor(sha, c, g, f)
  {
    hide Mismatch, AttemptDuplicates, LateRecords, LateInternal;
    NoDuplicatesYet(c, g);
    if !c.dispatched {
      return Finding(false, false, g != [], false, [], []);
    }
    var duplicates, late := [], [];
    if c.duplicate {
      duplicates := duplicates + [Duplicate(c.requestID, DigestString(sha, c.idempotencyKey), 2)];
    }
    if c.finishedOffset > c.deadlineOffset {
      late := late + [LateResult(c.requestID, c.deadlineOffset, c.finishedOffset)];
    }
    if g == [] {
      assert g == g[..0];
      return Finding(true, false, false, false, duplicates, late);
    }
    if |g| > 1 {
      duplicates := duplicates + [Duplicate(c.requestID, DigestString(sha, c.idempotencyKey), |g|)];
    }
    var invalid, more, later := MatchGroup(sha, c, g);
    return Finding(false, !c.outcome.Success?, false, invalid, duplicates + more, late + later);
  }

  function GroupOf(internal: InternalSnapshot, id: string): seq<InternalRecord> {
    Group(internal.records, |internal.records|, id)
  }

  // The identifiers each list of the report is about, as functions of the two ledgers.
  function MissingIDs(done: set<ClientRecord>, internal: InternalSnapshot): set<string> {
    set c | c in done && Missing(c, GroupOf(internal, c.requestID)) :: c.requestID
  }
  function LostIDs(done: set<ClientRecord>, internal: InternalSnapshot): set<string> {
    set c | c in done && Lost(c, GroupOf(internal, c.requestID)) :: c.requestID
  }
  function UnsentIDs(done: set<ClientRecord>, internal: InternalSnapshot): set<string> {
    set c | c in done && Unsent(c, GroupOf(internal, c.requestID)) :: c.requestID
  }
  function ContradictedIDs(sha: string -> string, done: set<ClientRecord>, internal: InternalSnapshot): set<string> {
    set c | c in done && Contradicted(sha, c, GroupOf(internal, c.requestID)) :: c.requestID
  }

  ghost predicate Exactly(list: seq<string>, s: set<string>) {
    NoRepeats(list) && forall x :: x in list <==> x in s
  }

  datatype Findings = Findings(missing: seq<string>, lost: seq<string>, unsent: seq<string>, invalid: seq<string>,
                               duplicates: seq<Duplicate>, late: seq<LateResult>)

  ghost predicate NoneRepeated(done: set<ClientRecord>, internal: InternalSnapshot) {
    forall c :: c in done ==> !Repeated(c, GroupOf(internal, c.requestID))
  }

  ghost predicate NoneLate(done: set<ClientRecord>, internal: InternalSnapshot) {
    forall c :: c in done ==> !TooLate(c, GroupOf(internal, c.requestID))
  }

  /** What f yields for the first n records whose identifiers are done, in ledger order. */
  function Gathered<T>(accepted: seq<ClientRecord>, n: nat, done: set<string>, f: ClientRecord -> seq<T>): seq<T>
    requires n <= |accepted|
  {
    if n == 0 then []
    else if accepted[n-1].requestID in done then Gathered(accepted, n - 1, done, f) + f(accepted[n-1])
    else Gathered(accepted, n - 1, done, f)
  }

  function LateFor(internal: InternalSnapshot): ClientRecord -> seq<LateResult> {
    (c: ClientRecord) => LateOf(c, GroupOf(internal, c.requestID))
  }

  function DuplicatesFor(sha: string -> string, internal: InternalSnapshot): ClientRecord -> seq<Duplicate> {
    (c: ClientRecord) => DuplicatesOf(sha, c, GroupOf(internal, c.requestID))
  }

  lemma {:induction false} GatherNone<T>(accepted: seq<ClientRecord>, n: nat, f: ClientRecord -> seq<T>)
    requires n <= |accepted|
    ensures Gathered(accepted, n, {}, f) == []
  {
    if n > 0 { GatherNone(accepted, n - 1, f); }
  }

  /** One more identifier adds what its record yields, wherever the record stands. */
  lemma {:induction false} GatherOne<T>(accepted: seq<ClientRecord>, n: nat, done: set<string>, k: nat,
                                        f: ClientRecord -> seq<T>)
    requires n <= |accepted| && k < |accepted| && accepted[k].requestID !in done
    requires forall i :: 0 <= i < |accepted| && i != k ==> accepted[i].requestID != accepted[k].requestID
    ensures multiset(Gathered(accepted, n, done + {accepted[k].requestID}, f)) ==
            multiset(Gathered(accepted, n, done, f)) + if k < n then multiset(f(accepted[k])) else multiset{}
  {
    if n > 0 {
      GatherOne(accepted, n - 1, done, k, f);
      if n - 1 == k {
        assert multiset(Gathered(accepted, k, done, f)) ==
            multiset(Gathered(accepted, k, done + {accepted[k].requestID}, f));
      }
    }
  }

  /** The findings of the records compared so far, in whatever order they came. */
  ghost predicate Found(sha: string -> string, done: set<ClientRecord>, internal: InternalSnapshot, all: Findings) {
    && Exactly(all.missing, MissingIDs(done, internal))
    && Exactly(all.lost, LostIDs(done, internal))
    && Exactly(all.unsent, UnsentIDs(done, internal))
    && Exactly(all.invalid, ContradictedIDs(sha, done, internal))
    && (all.duplicates == [] <==> NoneRepeated(done, internal))
    && (all.late == [] <==> NoneLate(done, internal))
  }

  function Add(all: Findings, id: string, f: Finding): Findings {
    Findings(if f.missing then all.missing + [id] else all.missing,
             if f.lost then all.lost + [id] else all.lost,
             if f.unsent then all.unsent + [id] else all.unsent,
             if f.invalid then all.invalid + [id] else all.invalid,
             all.duplicates + f.duplicates, all.late + f.late)
  }

  lemma {:induction false} ExactlyAdd(list: seq<string>, s: set<string>, x: string)
    requires Exactly(list, s) && x !in s
    ensures Exactly(list + [x], s + {x})
  {}

  lemma {:induction false} FoundNext(sha: string -> string, done: set<ClientRecord>, internal: InternalSnapshot,
                                     all: Findings, c: ClientRecord, f: Finding)
    requires Found(sha, done, internal, all)
    requires forall d :: d in done ==> d.requestID != c.requestID
    requires FindingFor(sha, c, GroupOf(internal, c.requestID), f)
    ensures Found(sha, done + {c}, internal, Add(all, c.requestID, f))
  {
    hide Missing, Lost, Unsent, Contradicted, Repeated, TooLate, GroupOf, Exactly, DuplicatesOf, LateOf;
    FoundListsNext(sha, done, internal, all, c, f);
    FindingsEmpty(sha, c, GroupOf(internal, c.requestID));
    var next := done + {c};
    assert NoneRepeated(next, internal) <==>
        NoneRepeated(done, internal) && !Repeated(c, GroupOf(internal, c.requestID));
    assert NoneLate(next, internal) <==> NoneLate(done, internal) && !TooLate(c, GroupOf(internal, c.requestID));
  }

  lemma {:induction false} FoundListsNext(sha: string -> string, done: set<ClientRecord>, internal: InternalSnapshot,
                                          all: Findings, c: ClientRecord, f: Finding)
    requires Found(sha, done, internal, all)
    requires forall d :: d in done ==> d.requestID != c.requestID
    requires FindingFor(sha, c, GroupOf(internal, c.requestID), f)
    ensures var next, all' := done + {c}, Add(all, c.requestID, f);
      && Exactly(all'.missing, MissingIDs(next, internal)) && Exactly(all'.lost, LostIDs(next, internal))
      && Exactly(all'.unsent, UnsentIDs(next, internal)) && Exactly(all'.invalid, ContradictedIDs(sha, next, internal))
  {
    hide Missing, Lost, Unsent, Contradicted, Repeated, TooLate, GroupOf, Exactly, DuplicatesOf, LateOf;
    var next, id := done + {c}, c.requestID;
    assert MissingIDs(next, internal) == if f.missing
        then MissingIDs(done, internal) + {id}
        else MissingIDs(done, internal);
    assert LostIDs(next, internal) == if f.lost then LostIDs(done, internal) + {id} else LostIDs(done, internal);
    assert UnsentIDs(next, internal) == if f.unsent
        then UnsentIDs(done, internal) + {id}
        else UnsentIDs(done, internal);
    assert ContradictedIDs(sha, next, internal) ==
           if f.invalid then ContradictedIDs(sha, done, internal) + {id} else ContradictedIDs(sha, done, internal);
    if f.missing { ExactlyAdd(all.missing, MissingIDs(done, internal), id); }
    if f.lost { ExactlyAdd(all.lost, LostIDs(done, internal), id); }
    if f.unsent { ExactlyAdd(all.unsent, UnsentIDs(done, internal), id); }
    if f.invalid { ExactlyAdd(all.invalid, ContradictedIDs(sha, done, internal), id); }
  }

  function Elements(s: seq<ClientRecord>): set<ClientRecord> { set c | c in s }

  function Part(byID: map<string, ClientRecord>, keys: set<string>): set<ClientRecord> {
    set id | id in byID && id in keys :: byID[id]
  }

  /** Compares every indexed record, in an arbitrary order of the index. */
  method MatchAll(sha: string -> string, byID: map<string, ClientRecord>, ghost accepted: seq<ClientRecord>,
                  internal: InternalSnapshot, internalByID: map<string, seq<InternalRecord>>) returns (all: Findings)
    requires IsClientIndex(accepted, byID) && PairwiseApart(accepted)
    requires IsInternalIndex(internal.records, |internal.records|, internalByID)
    ensures Found(sha, Elements(accepted), internal, all)
    ensures GatheredAll(sha, accepted, IDs(accepted), internal, all)
  {
    all := Findings([], [], [], [], [], []);
    var pending := byID.Keys;
    FoundStart(sha, internal, byID);
    GatherStart(sha, accepted, internal, byID.Keys);
    hide *;
    while pending != {}
      invariant pending <= byID.Keys
      invariant Found(sha, Part(byID, byID.Keys - pending), internal, all)
      invariant GatheredAll(sha, accepted, byID.Keys - pending, internal, all)
      decreases |pending|
    {
      var id :| id in pending;
      var f := MatchRecord(sha, byID[id], if id in internalByID then internalByID[id] else []);
      MatchStep(sha, byID, accepted, internal, internalByID, pending, id, all, f);
      GatherStep(sha, byID, accepted, internal, internalByID, pending, id, all, f);
      all := Add(all, id, f);
      pending := pending - {id};
    }
    IndexValues(accepted, byID);
    assert byID.Keys - pending == byID.Keys;
  }

  /** The duplicates and late results, with multiplicity, are those of the compared records. */
  ghost predicate GatheredAll(sha: string -> string, accepted: seq<ClientRecord>, done: set<string>,
                              internal: InternalSnapshot, all: Findings) {
    && multiset(all.duplicates) == multiset(Gathered(accepted, |accepted|, done, DuplicatesFor(sha, internal)))
    && multiset(all.late) == multiset(Gathered(accepted, |accepted|, done, LateFor(internal)))
  }

  lemma {:induction false} GatherStart(sha: string -> string, accepted: seq<ClientRecord>, internal: InternalSnapshot,
                                       keys: set<string>)
    ensures GatheredAll(sha, accepted, keys - keys, internal, Findings([], [], [], [], [], []))
  {
    assert keys - keys == {};
    GatherNone(accepted, |accepted|, DuplicatesFor(sha, internal));
    GatherNone(accepted, |accepted|, LateFor(internal));
  }

  lemma {:induction false} GatherStep(sha: string -> string, byID: map<string, ClientRecord>,
                                      accepted: seq<ClientRecord>,
                                      internal: InternalSnapshot, internalByID: map<string, seq<InternalRecord>>,
                                      pending: set<string>, id: string, all: Findings, f: Finding)
    requires IsClientIndex(accepted, byID) && PairwiseApart(accepted)
    requires IsInternalIndex(internal.records, |internal.records|, internalByID)
    requires id in pending && pending <= byID.Keys && GatheredAll(sha, accepted, byID.Keys - pending, internal, all)
    requires FindingFor(sha, byID[id], if id in internalByID then internalByID[id] else [], f)
    ensures GatheredAll(sha, accepted, byID.Keys - (pending - {id}), internal, Add(all, id, f))
  {
    hide IsClientIndex, IsInternalIndex, PairwiseApart, GroupOf, DuplicatesOf, LateOf, Gathered, Missing, Lost, Unsent,
        Contradicted;
    var k := IndexPosition(accepted, byID, id);
    IndexGroup(internal, internalByID, id);
    var done := byID.Keys - pending;
    assert byID.Keys - (pending - {id}) == done + {id};
    GatherOne(accepted, |accepted|, done, k, DuplicatesFor(sha, internal));
    GatherOne(accepted, |accepted|, done, k, LateFor(internal));
  }

  lemma {:induction false} IndexPosition(accepted: seq<ClientRecord>, byID: map<string, ClientRecord>,
                                         id: string) returns (k: nat)
    requires IsClientIndex(accepted, byID) && PairwiseApart(accepted) && id in byID
    ensures k < |accepted| && accepted[k] == byID[id] && accepted[k].requestID == id
    ensures forall i :: 0 <= i < |accepted| && i != k ==> accepted[i].requestID != id
  {
    IndexKey(accepted, byID, id);
    k :| 0 <= k < |accepted| && accepted[k] == byID[id];
    forall i | 0 <= i < |accepted| && i != k ensures accepted[i].requestID != id {
      if i < k { assert !Clashes(accepted[i], accepted[k]); } else { assert !Clashes(accepted[k], accepted[i]); }
    }
  }

  lemma {:induction false} IndexGroup(internal: InternalSnapshot, internalByID: map<string, seq<InternalRecord>>,
                                      id: string)
    requires IsInternalIndex(internal.records, |internal.records|, internalByID)
    ensures GroupOf(internal, id) == if id in internalByID then internalByID[id] else []
  {}

  lemma {:induction false} MatchStep(sha: string -> string, byID: map<string, ClientRecord>,
                                     accepted: seq<ClientRecord>, internal: InternalSnapshot,
                  internalByID: map<string, seq<InternalRecord>>, pending: set<string>, id: string, all: Findings,
                      f: Finding)
    requires IsClientIndex(accepted, byID) && IsInternalIndex(internal.records, |internal.records|, internalByID)
    requires id in pending && pending <= byID.Keys && Found(sha, Part(byID, byID.Keys - pending), internal, all)
    requires FindingFor(sha, byID[id], if id in internalByID then internalByID[id] else [], f)
    ensures Found(sha, Part(byID, byID.Keys - (pending - {id})), internal, Add(all, id, f))
  {
    var c, done := byID[id], Part(byID, byID.Keys - pending);
    IndexKey(accepted, byID, id);
    assert GroupOf(internal, id) == if id in internalByID then internalByID[id] else [];
    hide Found, IsClientIndex, FindingFor, Add, IsInternalIndex, GroupOf;
    forall d | d in done ensures d.requestID != c.requestID {
      var k :| k in byID && k in byID.Keys - pending && byID[k] == d;
      IndexKey(accepted, byID, k);
    }
    FoundNext(sha, done, internal, all, c, f);
    assert Part(byID, byID.Keys - (pending - {id})) == done + {c};
  }

  lemma {:induction false} FoundStart(sha: string -> string, internal: InternalSnapshot, byID: map<string,
                                      ClientRecord>)
    ensures Found(sha, Part(byID, byID.Keys - byID.Keys), internal, Findings([], [], [], [], [], []))
  {
    assert Part(byID, byID.Keys - byID.Keys) == {};
  }

  lemma {:induction false} IndexKey(accepted: seq<ClientRecord>, byID: map<string, ClientRecord>, id: string)
    requires IsClientIndex(accepted, byID) && id in byID
    ensures byID[id].requestID == id && byID[id] in accepted
  {}

  lemma {:induction false} IndexValues(accepted: seq<ClientRecord>, byID: map<string, ClientRecord>)
    requires IsClientIndex(accepted, byID)
    ensures Part(byID, byID.Keys) == Elements(accepted)
    ensures byID.Keys == IDs(accepted)
  {
    forall c | c in accepted ensures c.requestID in byID && byID[c.requestID] == c {
      var i :| 0 <= i < |accepted| && accepted[i] == c;
    }
  }

  function IDs(accepted: seq<ClientRecord>): set<string> { set c | c in accepted :: c.requestID }

  /** Identifiers that only the internal ledger knows. */
  function OrphanIDs(accepted: seq<ClientRecord>, internal: InternalSnapshot): set<string> {
    set r | r in internal.records && ValidInternalRecord(r) && r.requestID !in IDs(accepted) :: r.requestID
  }

  lemma {:induction false} GroupNonEmpty(records: seq<InternalRecord>, n: nat, id: string)
    requires n <= |records|
    ensures Group(records, n, id) != [] <==>
        exists i :: 0 <= i < n && ValidInternalRecord(records[i]) && records[i].requestID == id
  {
    hide ValidInternalRecord;
    if n > 0 { GroupNonEmpty(records, n - 1, id); }
  }

  /** The second pass over the internal index, again in an arbitrary order. */
  method ListOrphans(byID: map<string, ClientRecord>, ghost accepted: seq<ClientRecord>, internal: InternalSnapshot,
                     internalByID: map<string, seq<InternalRecord>>) returns (orphans: seq<string>)
    requires byID.Keys == IDs(accepted)
    requires IsInternalIndex(internal.records, |internal.records|, internalByID) && NonEmptyGroups(internalByID)
    ensures Exactly(orphans, OrphanIDs(accepted, internal))
  {
    orphans := [];
    var pending := internalByID.Keys;
    OrphanStart(internalByID, byID);
    hide *;
    while pending != {}
      invariant pending <= internalByID.Keys
      invariant Exactly(orphans, internalByID.Keys - pending - byID.Keys)
      decreases |pending|
    {
      var id :| id in pending;
      OrphanStep(orphans, internalByID.Keys, pending, byID.Keys, id);
      if id !in byID {
        orphans := orphans + [id];
      }
      pending := pending - {id};
    }
    OrphanKeys(accepted, internal, internalByID);
    assert internalByID.Keys - pending - byID.Keys == internalByID.Keys - byID.Keys;
  }

  lemma {:induction false} OrphanStart(internalByID: map<string, seq<InternalRecord>>, byID: map<string, ClientRecord>)
    ensures Exactly([], internalByID.Keys - internalByID.Keys - byID.Keys)
  {
    assert internalByID.Keys - internalByID.Keys - byID.Keys == {};
    ExactlyStart();
  }

  lemma {:induction false} OrphanStep(orphans: seq<string>, keys: set<string>, pending: set<string>, known: set<string>,
                                      id: string)
    requires Exactly(orphans, keys - pending - known) && id in pending && pending <= keys
    ensures Exactly(if id in known then orphans else orphans + [id], keys - (pending - {id}) - known)
  {
    if id in known {
      assert keys - (pending - {id}) - known == keys - pending - known;
    } else {
      assert keys - (pending - {id}) - known == keys - pending - known + {id};
      ExactlyAdd(orphans, keys - pending - known, id);
    }
  }

  lemma {:induction false} ExactlyStart()
    ensures Exactly([], {})
  {}

  lemma {:induction false} OrphanKeys(accepted: seq<ClientRecord>, internal: InternalSnapshot, internalByID: map<string,
                                      seq<InternalRecord>>)
    requires IsInternalIndex(internal.records, |internal.records|, internalByID) && NonEmptyGroups(internalByID)
    ensures internalByID.Keys - IDs(accepted) == OrphanIDs(accepted, internal)
  {
    hide ValidInternalRecord, IDs;
    forall id ensures id in internalByID <==>
        exists r :: r in internal.records && ValidInternalRecord(r) && r.requestID == id {
      GroupNonEmpty(internal.records, |internal.records|, id);
      assert Group(internal.records, |internal.records|, id) != [] <==> id in internalByID;
      if r :| r in internal.records && ValidInternalRecord(r) && r.requestID == id {
        var i :| 0 <= i < |internal.records| && internal.records[i] == r;
      }
    }
  }

  // The order in which responses were completed.
  predicate ByCompletion(a: ClientRecord, b: ClientRecord) {
    a.completionSequence < b.completionSequence ||
    (a.completionSequence == b.completionSequence && Leq(a.requestID, b.requestID))
  }

  lemma {:induction false} ByCompletionOrder()
    ensures TotalPreorder(ByCompletion)
  {
    forall a, b ensures ByCompletion(a, b) || ByCompletion(b, a) { Total(a.requestID, b.requestID); }
    forall a, b, c | ByCompletion(a, b) && ByCompletion(b, c) ensures ByCompletion(a, c) {
      if a.completionSequence == b.completionSequence == c.completionSequence {
        Transitive(a.requestID, b.requestID, c.requestID);
      }
    }
  }

  function CompletionOrder(accepted: seq<ClientRecord>): seq<ClientRecord> { Sort(accepted, ByCompletion) }

  ghost predicate Lists(list: seq<ClientRecord>, s: set<ClientRecord>) {
    NoRepeats(list) && forall c :: c in list <==> c in s
  }

  /** Collects the index in an arbitrary order and sorts it; the completion numbers make the result unique. */
  method ListByCompletion(byID: map<string, ClientRecord>,
                          ghost accepted: seq<ClientRecord>) returns (order: seq<ClientRecord>)
    requires IsClientIndex(accepted, byID) && PairwiseApart(accepted)
    ensures order == CompletionOrder(accepted)
  {
    var list: seq<ClientRecord> := [];
    var pending := byID.Keys;
    ListStart(byID);
    hide *;
    while pending != {}
      invariant pending <= byID.Keys
      invariant Lists(list, Part(byID, byID.Keys - pending))
      decreases |pending|
    {
      var id :| id in pending;
      ListStep(byID, accepted, pending, id, list);
      list := list + [byID[id]];
      pending := pending - {id};
    }
    IndexValues(accepted, byID);
    assert byID.Keys - pending == byID.Keys;
    order := Sort(list, ByCompletion);
    CompletionOrderUnique(accepted, list);
  }

  lemma {:induction false} ListStart(byID: map<string, ClientRecord>)
    ensures Lists([], Part(byID, byID.Keys - byID.Keys))
  {}

  lemma {:induction false} ListStep(byID: map<string, ClientRecord>, accepted: seq<ClientRecord>, pending: set<string>,
                                    id: string, list: seq<ClientRecord>)
    requires IsClientIndex(accepted, byID)
    requires id in pending && pending <= byID.Keys && Lists(list, Part(byID, byID.Keys - pending))
    ensures Lists(list + [byID[id]], Part(byID, byID.Keys - (pending - {id})))
  {
    var done := Part(byID, byID.Keys - pending);
    assert Part(byID, byID.Keys - (pending - {id})) == done + {byID[id]};
    forall k | k in byID && k !in pending ensures byID[k] != byID[id] {
      IndexKey(accepted, byID, k);
      IndexKey(accepted, byID, id);
    }
    assert byID[id] !in done;
  }

  lemma {:induction false} CompletionOrderUnique(accepted: seq<ClientRecord>, list: seq<ClientRecord>)
    requires PairwiseApart(accepted) && Lists(list, Elements(accepted))
    ensures Sort(list, ByCompletion) == CompletionOrder(accepted)
  {
    assert NoRepeats(accepted);
    SameElementsSameMultiset(list, accepted);
    ByCompletionOrder();
    SortSorts(list, ByCompletion);
    SortSorts(accepted, ByCompletion);
    var a := Sort(list, ByCompletion);
    SamePermutation(a, accepted);
    forall x, y | x in a && y in a && ByCompletion(x, y) && ByCompletion(y, x) ensures x == y {
      var i :| 0 <= i < |accepted| && accepted[i] == x;
      var j :| 0 <= j < |accepted| && accepted[j] == y;
      assert x.completionSequence == y.completionSequence;
      assert i == j;
    }
    SortedPermutationUnique(a, CompletionOrder(accepted), ByCompletion);
  }
}
