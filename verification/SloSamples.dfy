/** What one ledger entry means: its sample, its integrity and its mutation safety. */
module SloSamples {
  import opened SloTypes
  import opened SloCapacity
  import opened Sorting

  predicate TimingValid(r: Request, a: Attempt, endedAt: Instant) {
    && a.startedAt != 0 && a.finishedAt != 0
    && r.scheduledAt <= a.startedAt <= a.finishedAt <= endedAt
  }

  predicate AttemptValid(r: Request, i: nat, endedAt: Instant)
    requires i < |r.attempts|
  {
    var a := r.attempts[i];
    && a.number == (i + 1) % 0x1_0000_0000
    && TimingValid(r, a, endedAt)
    && !a.outcome.OtherAttempt?
  }

  /** A missing request has no attempt; any other has only well-numbered, well-timed ones. */
  predicate AttemptsValid(r: Request, endedAt: Instant) {
    if r.missing then r.attempts == []
    else r.attempts != [] && forall i: nat :: i < |r.attempts| ==> AttemptValid(r, i, endedAt)
  }

  /** A single valid attempt that succeeded; a retry never counts as a success. */
  predicate Succeeded(r: Request, endedAt: Instant) {
    !r.missing && |r.attempts| == 1 && AttemptValid(r, 0, endedAt) && r.attempts[0].outcome.AttemptSuccess?
  }

  predicate ResultUnknown(r: Request) {
    && !r.missing
    && (r.attempts == [] || exists i ::
         0 <= i < |r.attempts| && !r.attempts[i].outcome.AttemptSuccess? && !r.attempts[i].outcome.AttemptFailure?)
  }

  /** The latest finish, never before the zero time the accumulator starts from. */
  function LastFinish(attempts: seq<Attempt>): Instant {
    if attempts == [] then 0
    else
      var before := LastFinish(attempts[..|attempts|-1]);
      if attempts[|attempts|-1].finishedAt > before then attempts[|attempts|-1].finishedAt else before
  }

  lemma {:induction false} LastFinishNone(attempts: seq<Attempt>)
    ensures LastFinish(attempts[..0]) == 0
  {}

  lemma {:induction false} LastFinishNext(attempts: seq<Attempt>, n: nat)
    requires n < |attempts|
    ensures var before := LastFinish(attempts[..n]);
      LastFinish(attempts[..n+1]) == if attempts[n].finishedAt > before then attempts[n].finishedAt else before
  {
    assert attempts[..n+1][..n] == attempts[..n];
  }

  predicate ScheduleValid(run: Run, at: Instant) { at != 0 && run.startedAt <= at < run.endedAt }

  /** The evaluated form of the request at position i. */
  ghost function SampleOf(run: Run, start: Instant, i: nat): Sample
    requires i < |run.requests|
  {
    var r := run.requests[i];
    Sample(i, r.class_, r.scheduledAt,
           if r.missing then 0 else LastFinish(r.attempts),
           ScheduleValid(run, r.scheduledAt) && start <= r.scheduledAt &&
               !Excluded(AppliedExclusions(run, start), r.scheduledAt),
           Succeeded(r, run.endedAt), r.missing, ResultUnknown(r), !r.missing && |r.attempts| > 1)
  }

  /** The samples of a class among the first n requests, in ledger order. */
  ghost function SamplesUpTo(run: Run, start: Instant, c: RequestClass, n: nat): (s: seq<Sample>)
    requires n <= |run.requests|
    ensures forall x :: x in s ==> x.index < n && x == SampleOf(run, start, x.index) && x.class_ == c
  {
    if n == 0 then []
    else
      SamplesUpTo(run, start, c, n - 1) +
      (if run.requests[n-1].class_ == c then [SampleOf(run, start, n - 1)] else [])
  }

  ghost function Samples(run: Run, start: Instant, c: RequestClass): seq<Sample> {
    SamplesUpTo(run, start, c, |run.requests|)
  }

  /** seen holds the identifiers of the known-class requests among the first n. */
  ghost predicate IDsSeen(run: Run, n: nat, seen: set<string>)
    requires n <= |run.requests|
  {
    && (forall j :: 0 <= j < n && KnownClass(run.requests[j].class_) ==> run.requests[j].id in seen)
    && (forall id :: id in seen ==> exists j :: 0 <= j < n && run.requests[j].id == id)
  }

  predicate RequestValid(run: Run, i: nat)
    requires i < |run.requests|
  {
    var r := run.requests[i];
    && KnownClass(r.class_)
    && OpaqueID(r.id)
    && (forall j :: 0 <= j < i ==> run.requests[j].id != r.id)
    && ScheduleValid(run, r.scheduledAt)
    && AttemptsValid(r, run.endedAt)
  }

  predicate EarlierKey(run: Run, i: nat, key: string)
    requires i <= |run.requests|
  {
    exists j :: 0 <= j < i && run.requests[j].class_.Mutating? && run.requests[j].mutation.Some?
                && run.requests[j].mutation.value.idempotencyKey == key
  }

  /** seen holds the idempotency keys of the mutating requests among the first n. */
  ghost predicate KeysSeen(run: Run, n: nat, seen: set<string>)
    requires n <= |run.requests|
  {
    forall key :: key in seen <==> EarlierKey(run, n, key)
  }

  lemma {:induction false} SeeKey(run: Run, n: nat, seen: set<string>)
    requires n < |run.requests| && KeysSeen(run, n, seen)
    ensures var r := run.requests[n];
      KeysSeen(run, n + 1, if r.class_.Mutating? && r.mutation.Some?
          then seen + {r.mutation.value.idempotencyKey}
          else seen)
  {
    var r := run.requests[n];
    forall key ensures EarlierKey(run, n + 1, key) <==>
                       EarlierKey(run, n, key) ||
                           (r.class_.Mutating? && r.mutation.Some? && r.mutation.value.idempotencyKey == key)
    {
      if EarlierKey(run, n, key) {
        var j :| 0 <= j < n && run.requests[j].class_.Mutating? && run.requests[j].mutation.Some?
                 && run.requests[j].mutation.value.idempotencyKey == key;
      }
    }
  }

  /** The mutation ledger of one request proves at most one application, and exactly one if it was acknowledged. */
  predicate MutationSafe(run: Run, i: nat)
    requires i < |run.requests|
  {
    var r := run.requests[i];
    match r.class_
    case OtherClass(_) => true
    case ReadIdempotent => r.mutation.None?
    case Mutating =>
      && r.mutation.Some?
      && var m := r.mutation.value;
        && OpaqueID(m.idempotencyKey)
        && !EarlierKey(run, i, m.idempotencyKey)
        && |r.attempts| <= 1
        && m.ledgerKnown
        && m.appliedCount <= 1
        && (Succeeded(r, run.endedAt) ==> m.appliedCount == 1)
  }

  /** What a sample carries through the rest of the evaluation. */
  ghost predicate SampleSound(x: Sample, run: Run, start: Instant) {
    && (x.eligible ==> x.scheduled != 0 && start <= x.scheduled < run.endedAt && run.startedAt <= x.scheduled)
    && (x.successful ==> x.scheduled <= x.finished && !x.missing && !x.unknown && !x.retried)
    && !(x.missing && x.unknown)
    && x.finished >= 0
  }

  lemma {:induction false} LastFinishBounds(attempts: seq<Attempt>)
    ensures LastFinish(attempts) >= 0
    ensures forall i :: 0 <= i < |attempts| ==> attempts[i].finishedAt <= LastFinish(attempts)
    ensures LastFinish(attempts) == 0 || exists i ::
        0 <= i < |attempts| && attempts[i].finishedAt == LastFinish(attempts)
  {
    if attempts != [] {
      LastFinishBounds(attempts[..|attempts|-1]);
    }
  }

  lemma {:induction false} SampleOfSound(run: Run, start: Instant, i: nat)
    requires i < |run.requests|
    ensures SampleSound(SampleOf(run, start, i), run, start)
  {
    LastFinishBounds(run.requests[i].attempts);
  }

  lemma {:induction false} SamplesSound(run: Run, start: Instant, c: RequestClass)
    ensures forall x :: x in Samples(run, start, c) ==> SampleSound(x, run, start)
  {
    forall x | x in Samples(run, start, c) ensures SampleSound(x, run, start) {
      SampleOfSound(run, start, x.index);
    }
  }

  /** A measured, well-scheduled request leaves the sample only where no data centre was available. */
  lemma {:induction false} OnlyOutagesLeaveTheSample(run: Run, start: Instant, i: nat)
    requires i < |run.requests| && WindowValid(run, start)
    requires ScheduleValid(run, run.requests[i].scheduledAt) && start <= run.requests[i].scheduledAt
    requires !SampleOf(run, start, i).eligible
    ensures Gapless(run, start) && ExclusionsProven(run, start)
    ensures forall k ::
      (0 <= k < |run.capacity| &&
       During(run.requests[i].scheduledAt, run.capacity[k].startedAt, run.capacity[k].endedAt)) ==>
        run.capacity[k].availableDC == 0
    ensures ZeroAt(run, run.requests[i].scheduledAt)
  {
    ExcludedOnlyWithoutCapacity(run, start, run.requests[i].scheduledAt);
  }

  predicate Before(a: Sample, b: Sample) {
    a.scheduled < b.scheduled || (a.scheduled == b.scheduled && a.index <= b.index)
  }

  lemma {:induction false} BeforeOrder()
    ensures TotalPreorder(Before)
  {}

  /** Schedule order, ties in ledger order. */
  function InScheduleOrder(s: seq<Sample>): seq<Sample> { Sort(s, Before) }

  predicate IsEligible(x: Sample) { x.eligible }
  predicate IsSuccess(x: Sample) { x.eligible && x.successful }
  predicate IsFailure(x: Sample) { x.eligible && !x.successful }
  predicate IsMissing(x: Sample) { x.eligible && x.missing }
  predicate IsUnknown(x: Sample) { x.eligible && x.unknown }
  predicate IsRetried(x: Sample) { x.eligible && x.retried }

  /** Every eligible sample is a success or a failure, and a missing or unknown one is a failure. */
  lemma {:induction false} CountsAddUp(s: seq<Sample>)
    requires forall x :: x in s ==> !(x.missing && x.unknown) && (x.successful ==> !x.missing && !x.unknown)
    ensures Count(s, IsEligible) == Count(s, IsSuccess) + Count(s, IsFailure)
    ensures Count(s, IsMissing) + Count(s, IsUnknown) <= Count(s, IsFailure)
    ensures Count(s, IsEligible) <= |s|
  {
    if s != [] {
      assert s[|s|-1] in s;
      CountsAddUp(s[..|s|-1]);
    }
  }
}
