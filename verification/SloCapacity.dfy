/** Capacity evidence and the exclusions it can justify. */
module SloCapacity {
  import opened SloTypes

  predicate Overlaps(c: CapacityInterval, e: ExclusionInterval) {
    c.startedAt < e.endedAt && e.startedAt < c.endedAt
  }

  predicate During(at: Instant, from: Instant, until: Instant) { from <= at < until }

  predicate WindowValid(run: Run, start: Instant) {
    run.startedAt != 0 && run.endedAt != 0 && run.startedAt < run.endedAt && start < run.endedAt
  }

  function BoundaryBefore(capacity: seq<CapacityInterval>, start: Instant, i: nat): Instant
    requires i <= |capacity|
  {
    if i == 0 then start else capacity[i-1].endedAt
  }

  predicate IntervalSound(run: Run, start: Instant, i: nat)
    requires i < |run.capacity|
  {
    var c := run.capacity[i];
    && c.startedAt == BoundaryBefore(run.capacity, start, i)
    && start <= c.startedAt < c.endedAt <= run.endedAt
    && c.availableDC <= 2
  }

  /** The intervals partition the measured window from start to the end of the run without a gap. */
  ghost predicate Gapless(run: Run, start: Instant) {
    && run.capacity != []
    && (forall i: nat :: i < |run.capacity| ==> IntervalSound(run, start, i))
    && BoundaryBefore(run.capacity, start, |run.capacity|) == run.endedAt
  }

  /** Intervals of a gapless timeline come one after the other. */
  lemma {:induction false} GaplessOrdered(run: Run, start: Instant, i: nat, j: nat)
    requires Gapless(run, start) && i < j < |run.capacity|
    ensures run.capacity[i].endedAt <= run.capacity[j].startedAt
    decreases j - i
  {
    assert IntervalSound(run, start, j);
    if i + 1 < j {
      GaplessOrdered(run, start, i, j - 1);
      assert IntervalSound(run, start, j - 1);
    }
  }

  /** Every measured instant lies in exactly one interval of a gapless timeline. */
  lemma {:induction false} GaplessPartition(run: Run, start: Instant, at: Instant) returns (k: nat)
    requires Gapless(run, start) && start <= at < run.endedAt
    ensures k < |run.capacity| && During(at, run.capacity[k].startedAt, run.capacity[k].endedAt)
    ensures forall j: nat :: j < |run.capacity| && During(at, run.capacity[j].startedAt, run.capacity[j].endedAt) ==>
        j == k
  {
    k := 0;
    while at >= run.capacity[k].endedAt
      invariant k < |run.capacity| && BoundaryBefore(run.capacity, start, k) <= at
      decreases |run.capacity| - k
    {
      k := k + 1;
    }
    assert IntervalSound(run, start, k);
    forall j: nat | j < |run.capacity| && During(at, run.capacity[j].startedAt, run.capacity[j].endedAt)
      ensures j == k
    {
      if j < k { GaplessOrdered(run, start, j, k); }
      if k < j { GaplessOrdered(run, start, k, j); }
    }
  }

  /** Walks the timeline with a cursor, as the evaluator does for one exclusion. */
  method ZeroCapacityCovers(run: Run, ghost start: Instant, e: ExclusionInterval) returns (covered: bool)
    // Whatever the timeline, a positive answer is evidence for every instant of the exclusion.
    ensures covered ==> forall at :: During(at, e.startedAt, e.endedAt) ==> ZeroAt(run, at)
    // On a gapless timeline the answer is exact.
    ensures Gapless(run, start) && start <= e.startedAt < e.endedAt <= run.endedAt ==>
              (covered <==>
                  forall k :: 0 <= k < |run.capacity| && Overlaps(run.capacity[k], e) ==>
                  run.capacity[k].availableDC == 0)
  {
    ghost var exact := Gapless(run, start) && start <= e.startedAt < e.endedAt <= run.endedAt;
    var cursor := e.startedAt;
    for n := 0 to |run.capacity|
      invariant forall at :: During(at, e.startedAt, cursor) ==> ZeroAt(run, at)
      invariant e.startedAt <= cursor
      invariant exact ==> BoundaryBefore(run.capacity, start, n) <= cursor < e.endedAt
      invariant exact ==> cursor == e.startedAt || cursor == BoundaryBefore(run.capacity, start, n)
      invariant exact ==> forall k :: 0 <= k < n && Overlaps(run.capacity[k], e) ==> run.capacity[k].availableDC == 0
    {
      var c := run.capacity[n];
      assert exact ==> IntervalSound(run, start, n);
      if c.endedAt <= cursor || c.startedAt >= e.endedAt {
        continue;
      }
      if c.startedAt > cursor || c.availableDC != 0 {
        assert exact ==> Overlaps(c, e);
        return false;
      }
      assert forall at :: During(at, cursor, c.endedAt) ==>
          During(at, run.capacity[n].startedAt, run.capacity[n].endedAt);
      assert forall at :: During(at, e.startedAt, c.endedAt) ==>
          During(at, e.startedAt, cursor) || During(at, cursor, c.endedAt);
      cursor := c.endedAt;
      if cursor >= e.endedAt {
        if exact {
          forall k | n < k < |run.capacity| ensures !Overlaps(run.capacity[k], e) {
            GaplessOrdered(run, start, n, k);
          }
        }
        return true;
      }
    }
    return false;
  }

  /** The evidence shows no data centre at that instant. */
  ghost predicate ZeroAt(run: Run, at: Instant) {
    exists k ::
        0 <= k < |run.capacity| && During(at, run.capacity[k].startedAt, run.capacity[k].endedAt) &&
        run.capacity[k].availableDC == 0
  }

  predicate ExclusionBounds(run: Run, start: Instant, i: nat)
    requires i < |run.exclusions|
  {
    var e := run.exclusions[i];
    && start <= e.startedAt < e.endedAt <= run.endedAt
    && (if i == 0 then start else run.exclusions[i-1].endedAt) <= e.startedAt
  }

  ghost predicate Justified(run: Run, e: ExclusionInterval) {
    forall k :: 0 <= k < |run.capacity| && Overlaps(run.capacity[k], e) ==> run.capacity[k].availableDC == 0
  }

  ghost predicate ExclusionProven(run: Run, start: Instant, i: nat)
    requires i < |run.exclusions|
  {
    && ExclusionBounds(run, start, i)
    && run.exclusions[i].reason.AllDataCentresUnavailable?
    && Justified(run, run.exclusions[i])
  }

  /** All exclusions of the ledger can be trusted. */
  ghost predicate ExclusionsProven(run: Run, start: Instant) {
    forall i: nat :: i < |run.exclusions| ==> ExclusionProven(run, start, i)
  }

  /** One bad exclusion or an incomplete timeline and none is applied. */
  ghost function AppliedExclusions(run: Run, start: Instant): seq<ExclusionInterval> {
    if WindowValid(run, start) && Gapless(run, start) && ExclusionsProven(run, start) then run.exclusions else []
  }

  predicate Excluded(exclusions: seq<ExclusionInterval>, at: Instant) {
    exists i :: 0 <= i < |exclusions| && During(at, exclusions[i].startedAt, exclusions[i].endedAt)
  }

  /** Only an instant whose capacity evidence is zero data centres is ever excluded. */
  lemma {:induction false} ExcludedOnlyWithoutCapacity(run: Run, start: Instant, at: Instant)
    requires Excluded(AppliedExclusions(run, start), at)
    ensures Gapless(run, start) && start <= at < run.endedAt && ZeroAt(run, at)
    ensures forall k :: 0 <= k < |run.capacity| && During(at, run.capacity[k].startedAt, run.capacity[k].endedAt)
                        ==> run.capacity[k].availableDC == 0
  {
    var i: nat :| i < |run.exclusions| && During(at, run.exclusions[i].startedAt, run.exclusions[i].endedAt);
    var e := run.exclusions[i];
    assert ExclusionProven(run, start, i);
    forall k | 0 <= k < |run.capacity| && During(at, run.capacity[k].startedAt, run.capacity[k].endedAt)
      ensures run.capacity[k].availableDC == 0
    {
      assert Overlaps(run.capacity[k], e);
    }
    var k := GaplessPartition(run, start, at);
  }
}
