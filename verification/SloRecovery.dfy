/** The first stable success streak after a fault. */
module SloRecovery {
  import opened Wrappers
  import opened SloTypes
  import opened SloSamples
  import opened Sorting

  /** The samples a recovery measured from anchor looks at. */
  function AtOrAfter(anchor: Instant): Sample -> bool { (x: Sample) => x.eligible && x.scheduled >= anchor }

  /** The k samples from position j on all succeeded. */
  ghost predicate Streak(f: seq<Sample>, j: nat, k: nat) {
    j + k <= |f| && forall i :: j <= i < j + k ==> f[i].successful
  }

  ghost predicate HasStreak(f: seq<Sample>, k: nat) { exists j: nat :: Streak(f, j, k) }

  /** The leftmost block of k successes. */
  ghost predicate EarliestStreak(f: seq<Sample>, j: nat, k: nat) {
    Streak(f, j, k) && forall i: nat :: i < j ==> !Streak(f, i, k)
  }

  function LatestFinish(f: seq<Sample>): Instant {
    if f == [] then 0
    else
      var before := LatestFinish(f[..|f|-1]);
      if f[|f|-1].finished > before then f[|f|-1].finished else before
  }

  lemma {:induction false} LatestFinishBounds(f: seq<Sample>)
    requires f != [] && forall x :: x in f ==> x.finished >= 0
    ensures forall i :: 0 <= i < |f| ==> f[i].finished <= LatestFinish(f)
    ensures exists i :: 0 <= i < |f| && f[i].finished == LatestFinish(f)
  {
    var front := f[..|f|-1];
    assert f[|f|-1] in f;
    if front != [] {
      assert forall x :: x in front ==> x in f;
      LatestFinishBounds(front);
      var i :| 0 <= i < |front| && front[i].finished == LatestFinish(front);
      assert f[i] == front[i];
      assert f[|f|-1].finished == LatestFinish(f) || f[i].finished == LatestFinish(f);
      assert forall j :: 0 <= j < |front| ==> f[j] == front[j];
    } else {
      assert f[0].finished == LatestFinish(f);
    }
  }

  /** The length a streak must reach: the loop needs at least one success even when asked for none. */
  function Needed(requiredStreak: nat): nat { if requiredStreak == 0 then 1 else requiredStreak }

  lemma {:induction false} FilterPrefix<T(!new)>(s: seq<T>, n: nat, p: T -> bool)
    requires n <= |s|
    ensures Filter(s[..n], p) <= Filter(s, p)
    decreases |s|
  {
    if n == |s| {
      assert s[..n] == s;
    } else {
      FilterPrefix(s[..|s|-1], n, p);
      assert s[..|s|-1][..n] == s[..n];
    }
  }

  /** The scan's state: streak successes end the considered samples f, and no block is complete yet. */
  ghost predicate Counting(f: seq<Sample>, streak: nat, k: nat, recoveredAt: Instant) {
    && streak < k && streak <= |f|
    && Streak(f, |f| - streak, streak)
    && (streak == |f| || !f[|f|-streak-1].successful)
    && !HasStreak(f, k)
    && recoveredAt == LatestFinish(f[|f|-streak..])
  }

  lemma {:induction false} CountingFacts(f: seq<Sample>, streak: nat, k: nat, recoveredAt: Instant)
    requires Counting(f, streak, k, recoveredAt)
    ensures streak < k && !HasStreak(f, k)
  {}

  lemma {:induction false} CountFailure(f: seq<Sample>, x: Sample, k: nat)
    requires !HasStreak(f, k) && k > 0 && !x.successful
    ensures Counting(f + [x], 0, k, 0)
  {
    var g := f + [x];
    forall j: nat ensures !Streak(g, j, k) {
      assert !g[|g|-1].successful;
      if Streak(g, j, k) && j + k <= |f| {
        assert forall i :: j <= i < j + k ==> f[i] == g[i];
        assert Streak(f, j, k);
      }
    }
  }

  lemma {:induction false} LongerStreak(f: seq<Sample>, x: Sample, streak: nat)
    requires streak <= |f| && Streak(f, |f| - streak, streak) && x.successful
    ensures Streak(f + [x], |f| - streak, streak + 1)
  {
    assert forall i :: 0 <= i < |f| ==> (f + [x])[i] == f[i];
  }

  lemma {:induction false} NoStreakYet(f: seq<Sample>, x: Sample, streak: nat, k: nat)
    requires !HasStreak(f, k) && streak <= |f| && streak + 1 < k && (streak == |f| || !f[|f|-streak-1].successful)
    ensures !HasStreak(f + [x], k)
  {
    NoEarlierStreak(f, x, k);
    assert streak == |f| || !(f + [x])[|f|-streak-1].successful;
  }

  lemma {:induction false} CountSuccess(f: seq<Sample>, x: Sample, streak: nat, k: nat, recoveredAt: Instant)
    requires Counting(f, streak, k, recoveredAt) && x.successful && streak + 1 < k
    ensures Counting(f + [x], streak + 1, k, if x.finished > recoveredAt then x.finished else recoveredAt)
  {
    hide Streak, HasStreak, LatestFinish;
    LatestOfBlock(f, x, streak);
    LongerStreak(f, x, streak);
    NoStreakYet(f, x, streak, k);
  }

  /** A block of k in f + [x] that is not in f ends with x. */
  lemma {:induction false} NoEarlierStreak(f: seq<Sample>, x: Sample, k: nat)
    requires !HasStreak(f, k)
    ensures forall j: nat :: Streak(f + [x], j, k) ==> j + k == |f| + 1
  {
    var g := f + [x];
    forall j: nat | Streak(g, j, k) ensures j + k == |f| + 1 {
      if j + k <= |f| {
        assert forall i :: j <= i < j + k ==> f[i] == g[i];
        assert Streak(f, j, k);
      }
    }
  }

  lemma {:induction false} LatestOfBlock(f: seq<Sample>, x: Sample, streak: nat)
    requires streak <= |f|
    ensures var before := LatestFinish(f[|f|-streak..]);
      LatestFinish((f + [x])[|f|-streak..]) == if x.finished > before then x.finished else before
  {
    var block := (f + [x])[|f|-streak..];
    assert block[..|block|-1] == f[|f|-streak..];
  }

  lemma {:induction false} CompleteStreak(f: seq<Sample>, x: Sample, k: nat, recoveredAt: Instant)
    requires k > 0 && Counting(f, k - 1, k, recoveredAt) && x.successful
    ensures IsRecovery(f + [x], |f| + 1 - k, k, if x.finished > recoveredAt then x.finished else recoveredAt)
  {
    var g := f + [x];
    LatestOfBlock(f, x, k - 1);
    assert forall i :: 0 <= i < |f| ==> g[i] == f[i];
    NoEarlierStreak(f, x, k);
    assert g[|g|-k..] == g[|g|-k..|g|];
  }

  lemma {:induction false} StreakCarriesOver(f: seq<Sample>, g: seq<Sample>, j: nat, k: nat)
    requires f <= g && EarliestStreak(f, j, k)
    ensures EarliestStreak(g, j, k) && g[j..j+k] == f[j..j+k]
  {
    forall i: nat | i < j ensures !Streak(g, i, k) {
      assert !Streak(f, i, k);
    }
  }

  lemma {:induction false} RecoveryCarriesOver(f: seq<Sample>, g: seq<Sample>, j: int, k: nat, at: Instant)
    requires f <= g && IsRecovery(f, j, k, at)
    ensures IsRecovery(g, j, k, at)
  {
    StreakCarriesOver(f, g, j, k);
  }

  /** The block of k successes at position j is the first, and at is its latest finish. */
  ghost predicate IsRecovery(f: seq<Sample>, j: int, k: nat, at: Instant) {
    0 <= j && EarliestStreak(f, j, k) && at == LatestFinish(f[j..j+k])
  }

  /** s is in schedule order; the result is the last finish of the earliest long enough block, if there is one. */
  method FindStableRecovery(s: seq<Sample>, anchor: Instant, requiredStreak: nat)
    returns (recovered: Option<Instant>)
    ensures recovered.None? ==> !HasStreak(Filter(s, AtOrAfter(anchor)), Needed(requiredStreak))
    ensures recovered.Some? ==>
              exists j :: IsRecovery(Filter(s, AtOrAfter(anchor)), j, Needed(requiredStreak), recovered.value)
  {
    hide *;
    ghost var k := Needed(requiredStreak);
    var streak, recoveredAt := 0, 0;
    ConsideredStart(s, anchor, requiredStreak);
    for n := 0 to |s|
      invariant Counting(Considered(s, n, anchor), streak, k, recoveredAt)
    {
      ghost var f := Considered(s, n, anchor);
      ConsideredNext(s, n, anchor, requiredStreak);
      CountingFacts(f, streak, k, recoveredAt);
      if !s[n].eligible || s[n].scheduled < anchor {
        continue;
      }
      if !s[n].successful {
        CountFailure(f, s[n], k);
        streak, recoveredAt := 0, 0;
        continue;
      }
      if streak + 1 < k {
        CountSuccess(f, s[n], streak, k, recoveredAt);
      } else {
        CompleteStreak(f, s[n], k, recoveredAt);
      }
      streak := streak + 1;
      if s[n].finished > recoveredAt {
        recoveredAt := s[n].finished;
      }
      if streak >= requiredStreak {
        ConsideredAll(s, n + 1, anchor);
        RecoveryCarriesOver(f + [s[n]], Filter(s, AtOrAfter(anchor)), |f| + 1 - k, k, recoveredAt);
        return Some(recoveredAt);
      }
    }
    ConsideredAll(s, |s|, anchor);
    CountingFacts(Considered(s, |s|, anchor), streak, k, recoveredAt);
    return None;
  }

  /** The samples among the first n that count towards a recovery. */
  ghost function Considered(s: seq<Sample>, n: nat, anchor: Instant): seq<Sample>
    requires n <= |s|
  {
    Filter(s[..n], AtOrAfter(anchor))
  }

  lemma {:induction false} ConsideredStart(s: seq<Sample>, anchor: Instant, requiredStreak: nat)
    ensures Counting(Considered(s, 0, anchor), 0, Needed(requiredStreak), 0)
  {
    assert s[..0] == [] && Considered(s, 0, anchor) == [];
  }

  lemma {:induction false} ConsideredNext(s: seq<Sample>, n: nat, anchor: Instant, requiredStreak: nat)
    requires n < |s|
    ensures Considered(s, n + 1, anchor) ==
      if s[n].eligible && anchor <= s[n].scheduled then Considered(s, n, anchor) + [s[n]] else Considered(s, n, anchor)
    ensures Needed(requiredStreak) > 0 && requiredStreak <= Needed(requiredStreak)
    ensures (requiredStreak > 0 ==> requiredStreak == Needed(requiredStreak))
    ensures requiredStreak == 0 ==> Needed(requiredStreak) == 1
  {
    FilterStep(s, n, AtOrAfter(anchor));
  }

  lemma {:induction false} ConsideredAll(s: seq<Sample>, n: nat, anchor: Instant)
    requires n <= |s|
    ensures Considered(s, n, anchor) <= Filter(s, AtOrAfter(anchor))
    ensures n == |s| ==> Considered(s, n, anchor) == Filter(s, AtOrAfter(anchor))
  {
    FilterPrefix(s, n, AtOrAfter(anchor));
    if n == |s| { assert s[..n] == s; }
  }

  /** On sound samples the reported instant is not before the anchor, so the elapsed time needs no clamp. */
  lemma {:induction false} RecoveryNotBeforeAnchor(s: seq<Sample>, run: Run, start: Instant, anchor: Instant, k: nat,
                                                   j: nat)
    requires forall x :: x in s ==> SampleSound(x, run, start)
    requires k > 0
    requires Streak(Filter(s, AtOrAfter(anchor)), j, k)
    ensures anchor <= LatestFinish(Filter(s, AtOrAfter(anchor))[j..j+k])
  {
    var f := Filter(s, AtOrAfter(anchor));
    var block := f[j..j+k];
    forall x | x in block ensures x in s && x.eligible && anchor <= x.scheduled <= x.finished && x.finished >= 0 {
      assert x in f;
      var i :| 0 <= i < |block| && block[i] == x;
      assert f[j+i].successful;
    }
    LatestFinishBounds(block);
    assert block[0] in block;
  }

  function AnchorTime(event: FaultEvent, anchor: RecoveryAnchor): Option<Instant> {
    match anchor
    case FaultStarted => if event.startedAt != 0 then Some(event.startedAt) else None
    case FaultEnded => if event.endedAt.Some? && event.endedAt.value != 0 then event.endedAt else None
    case OtherAnchor(_) => None
  }

  /** The samples show a recovery from anchor that finishes within the limit. */
  ghost predicate RecoversWithin(s: seq<Sample>, anchor: Instant, requiredStreak: nat, limit: Duration) {
    var f, k := Filter(InScheduleOrder(s), AtOrAfter(anchor)), Needed(requiredStreak);
    exists j, at :: IsRecovery(f, j, k, at) && at - anchor <= limit
  }

  lemma {:induction false} RecoveryUnique(f: seq<Sample>, i: int, j: int, k: nat, at: Instant, at': Instant)
    requires IsRecovery(f, i, k, at) && IsRecovery(f, j, k, at')
    ensures at == at'
  {
    assert i == j;
  }
}
