/** Downtime windows of the eligible samples in schedule order. */
module SloWindows {
  import opened SloTypes
  import opened SloSamples
  import opened Sorting

  /** Positions lo..hi-1 fail and the run cannot be extended at either end. */
  ghost predicate MaximalFailedRun(s: seq<Sample>, lo: nat, hi: nat) {
    && lo < hi <= |s|
    && (forall i :: lo <= i < hi ==> !s[i].successful)
    && (lo == 0 || s[lo-1].successful)
    && (hi == |s| || s[hi].successful)
  }

  /** runs lists all maximal failed runs, from left to right. */
  ghost predicate AreFailedRuns(s: seq<Sample>, runs: seq<(nat, nat)>) {
    && (forall k :: 0 <= k < |runs| ==> MaximalFailedRun(s, runs[k].0, runs[k].1))
    && (forall k, m :: 0 <= k < m < |runs| ==> runs[k].1 < runs[m].0)
    && (forall i :: 0 <= i < |s| && !s[i].successful ==> InSomeRun(runs, i))
  }

  ghost predicate InSomeRun(runs: seq<(nat, nat)>, i: int) {
    exists k :: 0 <= k < |runs| && runs[k].0 <= i < runs[k].1
  }

  /** Every maximal failed run is listed. */
  lemma {:induction false} EveryRunListed(s: seq<Sample>, runs: seq<(nat, nat)>, lo: nat, hi: nat)
    requires AreFailedRuns(s, runs) && MaximalFailedRun(s, lo, hi)
    ensures (lo, hi) in runs
  {
    assert InSomeRun(runs, lo);
    var k :| 0 <= k < |runs| && runs[k].0 <= lo < runs[k].1;
    var (l, h) := runs[k];
    assert MaximalFailedRun(s, l, h);
    assert l == lo && h == hi;
  }

  /** The instant at which the run of failures is known to be over. */
  function EndOfRun(s: seq<Sample>, hi: nat, runEndedAt: Instant): Instant
    requires hi <= |s|
  {
    if hi < |s| then s[hi].finished else runEndedAt
  }

  function Clamped(startedAt: Instant, endedAt: Instant): Instant { if endedAt < startedAt then startedAt else endedAt }

  function Window(c: RequestClass, startedAt: Instant, endedAt: Instant): DowntimeWindow {
    DowntimeWindow(c, startedAt, Clamped(startedAt, endedAt), Clamped(startedAt, endedAt) - startedAt)
  }

  ghost predicate WindowsOf(c: RequestClass, s: seq<Sample>, runEndedAt: Instant, runs: seq<(nat, nat)>,
                            windows: seq<DowntimeWindow>) {
    && |windows| == |runs|
    && forall k :: 0 <= k < |runs| ==>
         && runs[k].0 < runs[k].1 <= |s|
         && windows[k] == Window(c, s[runs[k].0].scheduled, EndOfRun(s, runs[k].1, runEndedAt))
  }

  /** The windows and the maximal failed runs correspond one to one, in order. */
  ghost predicate ListsDowntime(c: RequestClass, s: seq<Sample>, runEndedAt: Instant, windows: seq<DowntimeWindow>) {
    exists runs :: AreFailedRuns(s, runs) && WindowsOf(c, s, runEndedAt, runs, windows)
  }

  /** One window per maximal failed run, in order, whenever no sample is scheduled at the zero time. */
  method DowntimeWindows(c: RequestClass, s: seq<Sample>, runEndedAt: Instant) returns (windows: seq<DowntimeWindow>)
    ensures (forall x :: x in s ==> x.scheduled != 0) ==> ListsDowntime(c, s, runEndedAt, windows)
  {
    hide Scanned, AreFailedRuns, WindowsOf;
    windows := [];
    ghost var runs: seq<(nat, nat)> := [];
    var openedAt: Instant := 0;
    ghost var timed := forall x :: x in s ==> x.scheduled != 0;
    ghost var lo: nat := 0;
    ScanStart(c, s, runEndedAt);
    for n := 0 to |s|
      invariant timed ==> Scanned(c, s, runEndedAt, n, lo, openedAt, runs, windows)
    {
      if !s[n].successful {
        if timed { ScanFailure(c, s, runEndedAt, n, lo, openedAt, runs, windows); }
        if openedAt == 0 {
          openedAt := s[n].scheduled;
          lo := n;
        }
        continue;
      }
      if openedAt == 0 {
        if timed { ScanIdle(c, s, runEndedAt, n, lo, runs, windows); }
        continue;
      }
      if timed { ScanEnd(c, s, runEndedAt, n, lo, openedAt, runs, windows); }
      windows := windows + [Window(c, openedAt, s[n].finished)];
      runs := runs + [(lo, n)];
      openedAt := 0;
    }
    if openedAt != 0 {
      if timed { ScanEnd(c, s, runEndedAt, |s|, lo, openedAt, runs, windows); }
      windows := windows + [Window(c, openedAt, runEndedAt)];
      runs := runs + [(lo, |s|)];
    } else {
      if timed { ScanDone(c, s, runEndedAt, lo, runs, windows); }
    }
  }

  /** The loop's state after n samples. */
  ghost predicate Scanned(c: RequestClass, s: seq<Sample>, runEndedAt: Instant, n: nat, lo: nat, openedAt: Instant,
                          runs: seq<(nat, nat)>, windows: seq<DowntimeWindow>)
  {
    && n <= |s|
    && OpenAt(s, n, lo, openedAt)
    && ClosedRuns(s, if openedAt == 0 then n else lo, runs)
    && WindowsOf(c, s, runEndedAt, runs, windows)
  }

  lemma {:induction false} ScanFailure(c: RequestClass, s: seq<Sample>, runEndedAt: Instant, n: nat, lo: nat,
                                       openedAt: Instant,
                    runs: seq<(nat, nat)>, windows: seq<DowntimeWindow>)
    requires Scanned(c, s, runEndedAt, n, lo, openedAt, runs, windows)
    requires n < |s| && !s[n].successful && s[n].scheduled != 0
    ensures Scanned(c, s, runEndedAt, n + 1, if openedAt == 0 then n else lo,
                    if openedAt == 0 then s[n].scheduled else openedAt, runs, windows)
  {}

  lemma {:induction false} ScanEnd(c: RequestClass, s: seq<Sample>, runEndedAt: Instant, n: nat, lo: nat,
                                   openedAt: Instant,
                runs: seq<(nat, nat)>, windows: seq<DowntimeWindow>)
    requires Scanned(c, s, runEndedAt, n, lo, openedAt, runs, windows)
    requires openedAt != 0 && (n == |s| || s[n].successful)
    ensures var runs', windows' := runs + [(lo, n)], windows + [Window(c, openedAt, EndOfRun(s, n, runEndedAt))];
      if n < |s| then Scanned(c, s, runEndedAt, n + 1, lo, 0, runs', windows')
      else AreFailedRuns(s, runs') && WindowsOf(c, s, runEndedAt, runs', windows')
  {
    CloseRun(s, n, lo, runs);
    AddWindow(c, s, runEndedAt, n, lo, runs, windows);
    hide WindowsOf, MaximalFailedRun, InSomeRun;
  }

  lemma {:induction false} AddWindow(c: RequestClass, s: seq<Sample>, runEndedAt: Instant, n: nat, lo: nat,
                  runs: seq<(nat, nat)>, windows: seq<DowntimeWindow>)
    requires lo < n <= |s| && WindowsOf(c, s, runEndedAt, runs, windows)
    ensures WindowsOf(c, s, runEndedAt, runs + [(lo, n)], windows +
        [Window(c, s[lo].scheduled, EndOfRun(s, n, runEndedAt))])
  {}

  lemma {:induction false} ScanStart(c: RequestClass, s: seq<Sample>, runEndedAt: Instant)
    ensures Scanned(c, s, runEndedAt, 0, 0, 0, [], [])
  {}

  lemma {:induction false} ScanIdle(c: RequestClass, s: seq<Sample>, runEndedAt: Instant, n: nat, lo: nat,
                 runs: seq<(nat, nat)>, windows: seq<DowntimeWindow>)
    requires Scanned(c, s, runEndedAt, n, lo, 0, runs, windows) && n < |s| && s[n].successful
    ensures Scanned(c, s, runEndedAt, n + 1, lo, 0, runs, windows)
  {}

  lemma {:induction false} ScanDone(c: RequestClass, s: seq<Sample>, runEndedAt: Instant, lo: nat,
                 runs: seq<(nat, nat)>, windows: seq<DowntimeWindow>)
    requires Scanned(c, s, runEndedAt, |s|, lo, 0, runs, windows)
    ensures AreFailedRuns(s, runs) && WindowsOf(c, s, runEndedAt, runs, windows)
  {}

  /** Either no run is open after n samples, or the one starting at lo is. */
  ghost predicate OpenAt(s: seq<Sample>, n: nat, lo: nat, openedAt: Instant)
    requires n <= |s|
  {
    if openedAt == 0 then n == 0 || s[n-1].successful
    else
      && lo < n && openedAt == s[lo].scheduled
      && (lo == 0 || s[lo-1].successful)
      && forall i :: lo <= i < n ==> !s[i].successful
  }

  /** runs lists the maximal failed runs that end at or before bound. */
  ghost predicate ClosedRuns(s: seq<Sample>, bound: nat, runs: seq<(nat, nat)>)
    requires bound <= |s|
  {
    && (forall k :: 0 <= k < |runs| ==> MaximalFailedRun(s, runs[k].0, runs[k].1) && runs[k].1 <= bound)
    && (forall k, m :: 0 <= k < m < |runs| ==> runs[k].1 < runs[m].0)
    && (forall i :: 0 <= i < bound && !s[i].successful ==> InSomeRun(runs, i))
  }

  lemma {:induction false} CloseRun(s: seq<Sample>, n: nat, lo: nat, runs: seq<(nat, nat)>)
    requires lo < n <= |s| && OpenAt(s, n, lo, s[lo].scheduled) && s[lo].scheduled != 0
    requires n == |s| || s[n].successful
    requires ClosedRuns(s, lo, runs)
    ensures ClosedRuns(s, n, runs + [(lo, n)])
  {
    var all := runs + [(lo, n)];
    forall k | 0 <= k < |runs| ensures runs[k].1 < lo {
      assert MaximalFailedRun(s, runs[k].0, runs[k].1);
      assert !s[lo].successful;
    }
    forall i | 0 <= i < n && !s[i].successful ensures InSomeRun(all, i) {
      if i < lo {
        assert InSomeRun(runs, i);
        var k :| 0 <= k < |runs| && runs[k].0 <= i < runs[k].1;
        assert all[k] == runs[k];
      } else {
        assert all[|runs|] == (lo, n);
      }
    }
  }

  /** On sound samples in schedule order the clamp is dead and each failure lies inside its window. */
  lemma {:induction false} WindowsEncloseFailures(c: RequestClass, s: seq<Sample>, run: Run, start: Instant,
                                                  runs: seq<(nat, nat)>,
                               windows: seq<DowntimeWindow>, k: nat, i: nat)
    requires forall x :: x in s ==> x.eligible && SampleSound(x, run, start)
    requires SortedBy(Before, s)
    requires AreFailedRuns(s, runs) && WindowsOf(c, s, run.endedAt, runs, windows)
    requires k < |runs| && runs[k].0 <= i < runs[k].1
    ensures windows[k].endedAt == EndOfRun(s, runs[k].1, run.endedAt)
    ensures windows[k].startedAt <= s[i].scheduled <= windows[k].endedAt
    ensures windows[k].duration == EndOfRun(s, runs[k].1, run.endedAt) - s[runs[k].0].scheduled
  {
    var (lo, hi) := runs[k];
    hide AreFailedRuns;
    InOrder(s, lo, i);
    assert s[i].scheduled <= EndOfRun(s, hi, run.endedAt) by {
      assert SampleSound(s[i], run, start);
      if hi < |s| {
        InOrder(s, i, hi);
        assert SampleSound(s[hi], run, start) && s[hi].successful by { RunEnds(s, runs, k); }
      }
    }
  }

  lemma {:induction false} InOrder(s: seq<Sample>, i: nat, j: nat)
    requires SortedBy(Before, s) && i <= j < |s|
    ensures s[i].scheduled <= s[j].scheduled
  {
    if i < j { assert Before(s[i], s[j]); }
  }

  lemma {:induction false} RunEnds(s: seq<Sample>, runs: seq<(nat, nat)>, k: nat)
    requires AreFailedRuns(s, runs) && k < |runs| && runs[k].1 < |s|
    ensures s[runs[k].1].successful
  {
    assert MaximalFailedRun(s, runs[k].0, runs[k].1);
  }
}
