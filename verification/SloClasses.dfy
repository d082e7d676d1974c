/** One class of requests: its counts, its error budget and its downtime. */
module SloClasses {
  import opened SloTypes
  import opened SloArithmetic
  import opened SloSamples
  import opened SloWindows
  import opened SloContract
  import opened Sorting

  datatype Tally = Tally(eligible: nat, successful: nat, failed: nat, missing: nat, unknown: nat, retried: nat)

  ghost function TallyOf(s: seq<Sample>): Tally {
    Tally(Count(s, IsEligible), Count(s, IsSuccess), Count(s, IsFailure), Count(s, IsMissing), Count(s, IsUnknown),
        Count(s, IsRetried))
  }

  /** The counters after one more sample. */
  function Tick(t: Tally, x: Sample): Tally {
    if !x.eligible then t
    else Tally(t.eligible + 1,
               if x.successful then t.successful + 1 else t.successful,
               if x.successful then t.failed else t.failed + 1,
               if x.missing then t.missing + 1 else t.missing,
               if x.unknown then t.unknown + 1 else t.unknown,
               if x.retried then t.retried + 1 else t.retried)
  }

  lemma {:induction false} TallyStep(s: seq<Sample>, n: nat)
    requires n < |s|
    ensures TallyOf(s[..n+1]) == Tick(TallyOf(s[..n]), s[n])
  {
    assert s[..n+1][..n] == s[..n];
  }

  method CountSamples(s: seq<Sample>) returns (eligible: seq<Sample>, t: Tally)
    ensures eligible == Filter(s, IsEligible) && t == TallyOf(s)
  {
    eligible, t := [], Tally(0, 0, 0, 0, 0, 0);
    assert TallyOf(s[..0]) == t;
    hide TallyOf, Tick;
    for n := 0 to |s|
      invariant eligible == Filter(s[..n], IsEligible)
      invariant t == TallyOf(s[..n])
    {
      TallyStep(s, n);
      FilterStep(s, n, IsEligible);
      t := Tick(t, s[n]);
      if s[n].eligible {
        eligible := eligible + [s[n]];
      }
    }
    assert s[..|s|] == s;
  }

  /** The counts do not depend on the schedule order they are taken in. */
  lemma {:induction false} TallyIgnoresOrder(s: seq<Sample>)
    ensures TallyOf(InScheduleOrder(s)) == TallyOf(s)
  {
    var o := InScheduleOrder(s);
    CountPermutation(o, s, IsEligible);
    CountPermutation(o, s, IsSuccess);
    CountPermutation(o, s, IsFailure);
    CountPermutation(o, s, IsMissing);
    CountPermutation(o, s, IsUnknown);
    CountPermutation(o, s, IsRetried);
  }

  lemma {:induction false} SamplesBounded(run: Run, start: Instant, c: RequestClass, n: nat)
    requires n <= |run.requests|
    ensures |SamplesUpTo(run, start, c, n)| <= n
  {
    if n > 0 { SamplesBounded(run, start, c, n - 1); }
  }

  lemma {:induction false} TallyAddsUp(run: Run, start: Instant, c: RequestClass)
    ensures var t := TallyOf(Samples(run, start, c));
      t.eligible == t.successful + t.failed && t.missing + t.unknown <= t.failed && t.eligible <= |run.requests|
  {
    SamplesSound(run, start, c);
    SamplesBounded(run, start, c, |run.requests|);
    CountsAddUp(Samples(run, start, c));
  }

  /** The eligible samples in schedule order satisfy what the window scan needs. */
  lemma {:induction false} OrderedSound(run: Run, start: Instant, c: RequestClass)
    ensures var f := Ordered(Samples(run, start, c));
      && (forall x :: x in f ==> x.eligible && SampleSound(x, run, start) && x.scheduled != 0)
      && SortedBy(Before, f)
  {
    var s := Samples(run, start, c);
    var o := InScheduleOrder(s);
    SamplesSound(run, start, c);
    SamePermutation(o, s);
    BeforeOrder();
    SortSorts(s, Before);
    FilterKeepsSorted(o, IsEligible, Before);
  }

  lemma {:induction false} WindowDurations(run: Run, start: Instant, c: RequestClass, runs: seq<(nat, nat)>,
                                           windows: seq<DowntimeWindow>, k: nat)
    requires var f := Ordered(Samples(run, start, c));
        AreFailedRuns(f, runs) && WindowsOf(c, f, run.endedAt, runs, windows)
    requires k < |windows|
    ensures var f := Ordered(Samples(run, start, c));
      && MaximalFailedRun(f, runs[k].0, runs[k].1)
      && windows[k].duration == EndOfRun(f, runs[k].1, run.endedAt) - f[runs[k].0].scheduled
  {
    OrderedSound(run, start, c);
    WindowsEncloseFailures(c, Ordered(Samples(run, start, c)), run, start, runs, windows, k, runs[k].0);
  }

  /** Comparing each reported window with the limit decides the bound on every maximal failed run. */
  lemma {:induction false} WindowsDecideDowntime(run: Run, start: Instant, c: RequestClass,
                                                 windows: seq<DowntimeWindow>, limit: Duration)
    requires ListsDowntime(c, Ordered(Samples(run, start, c)), run.endedAt, windows)
    ensures (forall k :: 0 <= k < |windows| ==> windows[k].duration <= limit) <==>
            DowntimeWithin(Samples(run, start, c), limit, run.endedAt)
  {
    var f := Ordered(Samples(run, start, c));
    var runs :| AreFailedRuns(f, runs) && WindowsOf(c, f, run.endedAt, runs, windows);
    forall k: nat | k < |windows| ensures HasDuration(f, run.endedAt, runs, windows, k) {
      WindowDurations(run, start, c, runs, windows, k);
    }
    RunsDecide(f, run.endedAt, runs, windows, limit);
  }

  ghost predicate HasDuration(f: seq<Sample>, end: Instant, runs: seq<(nat, nat)>, windows: seq<DowntimeWindow>,
                              k: nat) {
    && k < |windows| == |runs|
    && MaximalFailedRun(f, runs[k].0, runs[k].1)
    && windows[k].duration == EndOfRun(f, runs[k].1, end) - f[runs[k].0].scheduled
  }

  lemma {:induction false} RunsDecide(f: seq<Sample>, end: Instant, runs: seq<(nat, nat)>, windows: seq<DowntimeWindow>,
                                      limit: Duration)
    requires |runs| == |windows| && AreFailedRuns(f, runs)
    requires forall k: nat :: k < |windows| ==> HasDuration(f, end, runs, windows, k)
    ensures (forall k :: 0 <= k < |windows| ==> windows[k].duration <= limit) <==>
            forall lo: nat, hi: nat :: MaximalFailedRun(f, lo, hi) ==> EndOfRun(f, hi, end) - f[lo].scheduled <= limit
  {
    if forall k :: 0 <= k < |windows| ==> windows[k].duration <= limit {
      forall lo: nat, hi: nat | MaximalFailedRun(f, lo, hi) ensures EndOfRun(f, hi, end) - f[lo].scheduled <= limit {
        EveryRunListed(f, runs, lo, hi);
        var k :| 0 <= k < |runs| && runs[k] == (lo, hi);
        assert HasDuration(f, end, runs, windows, k) && windows[k].duration <= limit;
      }
    } else {
      var k :| 0 <= k < |windows| && windows[k].duration > limit;
      assert HasDuration(f, end, runs, windows, k);
    }
  }

  /** The budget comparison of the report is the exact rational one. */
  lemma {:induction false} BudgetDecides(eligible: nat, successful: nat, failed: nat, rate: nat)
    requires eligible == successful + failed < WORD && rate <= PPM
    ensures failed > AllowedFailures(eligible, rate) <==> failed * PPM > eligible * rate
  {
    if eligible == 0 {
      EmptyBudget(rate);
    } else {
      BudgetExact(eligible, successful, failed, rate);
    }
  }

  predicate SummaryFor(summary: ClassSummary, t: Tally, rate: nat)
    requires t.eligible < WORD && t.successful <= t.eligible && rate <= PPM
  {
    && (summary.eligible, summary.successful, summary.failed) == (t.eligible, t.successful, t.failed)
    && (summary.missing, summary.unknown, summary.retried) == (t.missing, t.unknown, t.retried)
    && summary.availabilityPPM == (if t.eligible > 0 then RatioPPM(t.successful, t.eligible) else 0)
    && summary.budget.allowed == AllowedFailures(t.eligible, rate)
    && summary.budget.consumed == t.failed
    && summary.budget.remaining == (if summary.budget.allowed > t.failed then summary.budget.allowed - t.failed else 0)
  }

  method Summarize(c: RequestClass, planned: nat, recorded: nat, t: Tally, rate: nat) returns (summary: ClassSummary)
    requires t.eligible == t.successful + t.failed < WORD && rate <= PPM
    ensures SummaryFor(summary, t, rate) && summary.class_ == c && summary.planned == planned
    ensures summary.recorded == recorded
  {
    var availability := if t.eligible > 0 then RatioPPM(t.successful, t.eligible) else 0;
    var allowed := AllowedFailures(t.eligible, rate);
    var remaining := if allowed > t.failed then allowed - t.failed else 0;
    summary := ClassSummary(c, planned, recorded, t.eligible, t.successful, t.failed, t.missing, t.unknown, t.retried,
                            availability, ErrorBudget(rate, allowed, t.failed, remaining));
  }

  /** The violations of a class, from its counts and its windows. */
  method ClassViolations(t: Tally, target: ClassTarget,
                         windows: seq<DowntimeWindow>) returns (violations: seq<Violation>)
    requires t.eligible == t.successful + t.failed < WORD && target.maxErrorRatePPM <= PPM
    ensures violations == [] <==>
            && t.eligible >= target.minEligible
            && t.failed * PPM <= t.eligible * target.maxErrorRatePPM
            && t.missing == 0 && t.unknown == 0
            && forall k :: 0 <= k < |windows| ==> windows[k].duration <= target.maxDowntime
  {
    BudgetDecides(t.eligible, t.successful, t.failed, target.maxErrorRatePPM);
    violations := [];
    if t.eligible < target.minEligible {
      violations := violations + ["insufficient_eligible_requests"];
    }
    if t.failed > AllowedFailures(t.eligible, target.maxErrorRatePPM) {
      violations := violations + ["error_budget_exhausted"];
    }
    if t.missing > 0 {
      violations := violations + ["missing_requests"];
    }
    if t.unknown > 0 {
      violations := violations + ["unknown_request_results"];
    }
    ghost var base := violations == [];
    for n := 0 to |windows|
      invariant violations == [] <==> base && forall k :: 0 <= k < n ==> windows[k].duration <= target.maxDowntime
    {
      if windows[n].duration > target.maxDowntime {
        violations := violations + ["downtime_exceeded"];
      }
    }
  }

  lemma {:induction false} NoneMissing(s: seq<Sample>)
    ensures Count(s, IsMissing) == 0 && Count(s, IsUnknown) == 0 <==>
        forall x :: x in s && x.eligible ==> !x.missing && !x.unknown
  {
    CountZero(s, IsMissing);
    CountZero(s, IsUnknown);
    forall x | x in s && x.eligible ensures (!IsMissing(x) <==> !x.missing) && (!IsUnknown(x) <==> !x.unknown) {}
  }

  /**
   * The result of one class: exact counts, one window per maximal failed run, and violations exactly when it misses its
   * target.
   */
  method ClassResult(run: Run, ghost start: Instant, samples: seq<Sample>, planned: nat, recorded: nat,
                     target: ClassTarget)
    returns (summary: ClassSummary, downtime: seq<DowntimeWindow>, violations: seq<Violation>)
    requires samples == Samples(run, start, target.class_)
    requires |run.requests| < WORD && target.maxErrorRatePPM <= PPM
    ensures TallyOf(samples).eligible == TallyOf(samples).successful + TallyOf(samples).failed < WORD
    ensures SummaryFor(summary, TallyOf(samples), target.maxErrorRatePPM)
    ensures summary.class_ == target.class_ && summary.planned == planned && summary.recorded == recorded
    ensures ListsDowntime(target.class_, Ordered(samples), run.endedAt, downtime)
    ensures violations == [] <==> ClassMeets(samples, target, run.endedAt)
  {
    var eligible, t := CountSamples(InScheduleOrder(samples));
    TallyIgnoresOrder(samples);
    TallyAddsUp(run, start, target.class_);
    summary := Summarize(target.class_, planned, recorded, t, target.maxErrorRatePPM);
    OrderedSound(run, start, target.class_);
    downtime := DowntimeWindows(target.class_, eligible, run.endedAt);
    WindowsDecideDowntime(run, start, target.class_, downtime, target.maxDowntime);
    NoneMissing(samples);
    violations := ClassViolations(t, target, downtime);
  }
}
