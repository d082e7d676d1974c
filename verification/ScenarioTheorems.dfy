/** What every run of the pod-fault scenario guarantees, whatever the controller, probe and collector answer. */
module ScenarioTheorems {
  import opened Wrappers
  import opened FaultPlans
  import opened FaultScenario
  import Sorting

  // ---- one step -----------------------------------------------------------------------------------------

  /**
   * The log of a complete, successful step: steady, admitted, marked, deleted, recovered, steady again, passed,
   * collected.
   */
  predicate Complete(runID: string, f: Fault, log: seq<Event>) {
    && |log| == 8
    && log[0] == Steady(f.id, true)
    && log[1].Preflight? && log[1].id == f.id && log[1].state.Some? && BaselineGood(runID, f.step, log[1].state.value)
    && log[2] == Started(f.id, true)
    && log[3] == Delete(f.id, log[1].state.value.pod, true)
    && log[4].Recover? && log[4].id == f.id && log[4].state.Some? &&
         RecoveryGood(runID, log[1].state.value, log[4].state.value)
    && log[5] == Steady(f.id, true)
    && log[6] == Ended(f.id, Passed, true)
    && log[7] ==
         Collect(f.id, Diagnostics(Some(log[1].state.value.pod), Some(log[4].state.value.pod), true, true), true)
  }

  /** A step succeeds exactly when its log is complete. */
  lemma {:induction false} StepOkExact(runID: string, f: Fault, a: Answers)
    ensures StepOk(runID, f, a) <==> Complete(runID, f, StepLog(runID, f, a))
  {
    hide BaselineGood, RecoveryGood;
    if StepOk(runID, f, a) {
      assert StepLog(runID, f, a) == [Steady(f.id, true), Preflight(f.id, a.preflight), Started(f.id, true),
        Delete(f.id, a.preflight.value.pod, true), Recover(f.id, a.recovery), Steady(f.id, true),
            Ended(f.id, Passed, true),
        Collect(f.id, Seen(runID, f, a), true)];
    } else if Admitted(runID, f, a) && Recovered(runID, a) {
      var log := StepLog(runID, f, a);
      assert log[6] == Ended(f.id, Passed, a.ended) && log[7].Collect? && log[7].ok == a.collected;
    } else {
      ShortLog(runID, f, a);
    }
  }

  lemma {:induction false} ShortLog(runID: string, f: Fault, a: Answers)
    requires !(Admitted(runID, f, a) && Recovered(runID, a))
    ensures var log := StepLog(runID, f, a); |log| < 8 || (|log| == 8 && log[5] == Steady(f.id, false))
  {
    hide BaselineGood, RecoveryGood;
    if Admitted(runID, f, a) && |Outage(runID, f, a)| == 3 {
      assert StepLog(runID, f, a)[5] == Outage(runID, f, a)[2];
    }
  }

  /** A deletion is the fourth event of its step, after a good baseline and a written start marker. */
  lemma {:induction false} DeleteInStep(runID: string, f: Fault, a: Answers, p: nat)
    requires p < |StepLog(runID, f, a)| && StepLog(runID, f, a)[p].Delete?
    ensures p == 3 && Admitted(runID, f, a)
    ensures StepLog(runID, f, a)[..3] == [Steady(f.id, true), Preflight(f.id, a.preflight), Started(f.id, true)]
    ensures StepLog(runID, f, a)[3] == Delete(f.id, a.preflight.value.pod, a.deleted)
  {
    hide BaselineGood, RecoveryGood;
    var log := StepLog(runID, f, a);
    if Admitted(runID, f, a) {
      assert log ==
          Opening(runID, f, a) +
          (Outage(runID, f, a) + [Ended(f.id, if Recovered(runID, a) then Passed else Failed, a.ended)] +
          [Collect(f.id, Seen(runID, f, a), a.collected)]);
      assert forall i | 1 <= i < |Outage(runID, f, a)| :: !Outage(runID, f, a)[i].Delete?;
    }
  }

  // ---- whole runs ---------------------------------------------------------------------------------------

  /** The i-th step is reached: every earlier one succeeded. */
  predicate Reached(runID: string, faults: seq<Fault>, answers: seq<Answers>, i: nat)
    requires |answers| == |faults| && i <= |faults|
  {
    forall j | 0 <= j < i :: StepOk(runID, faults[j], answers[j])
  }

  /** The logs of the first i steps, one after the other. */
  function Concatenated(runID: string, faults: seq<Fault>, answers: seq<Answers>, i: nat): seq<Event>
    requires |answers| == |faults| && i <= |faults|
  {
    if i == 0 then [] else Concatenated(runID, faults, answers, i - 1) + StepLog(runID, faults[i - 1], answers[i - 1])
  }

  /** Just before p the log holds i complete steps and the opening of step i, and at p its pod is deleted. */
  predicate DeletesAt(runID: string, faults: seq<Fault>, answers: seq<Answers>, log: seq<Event>, p: nat, i: nat)
    requires |answers| == |faults| && p < |log|
  {
    && i < |faults| && Reached(runID, faults, answers, i) && Admitted(runID, faults[i], answers[i])
    && (forall j | 0 <= j < i :: Complete(runID, faults[j], StepLog(runID, faults[j], answers[j])))
    && log[..p] == Concatenated(runID, faults, answers, i)
         + [Steady(faults[i].id, true), Preflight(faults[i].id, answers[i].preflight), Started(faults[i].id, true)]
    && log[p] == Delete(faults[i].id, answers[i].preflight.value.pod, answers[i].deleted)
  }

  lemma {:induction false} ConcatenatedTail(runID: string, faults: seq<Fault>, answers: seq<Answers>, i: nat)
    requires |answers| == |faults| && i < |faults|
    ensures Concatenated(runID, faults, answers, i + 1) ==
        StepLog(runID, faults[0], answers[0]) + Concatenated(runID, faults[1..], answers[1..], i)
  {
    hide StepLog;
    if i > 0 { ConcatenatedTail(runID, faults, answers, i - 1); }
  }

  lemma {:induction false} DeletesHere(runID: string, faults: seq<Fault>, answers: seq<Answers>, p: nat)
    requires |answers| == |faults| && faults != [] && p < |StepLog(runID, faults[0], answers[0])|
    requires p < |RunLog(runID, faults, answers)| && RunLog(runID, faults, answers)[p].Delete?
    ensures DeletesAt(runID, faults, answers, RunLog(runID, faults, answers), p, 0)
  {
    var first := StepLog(runID, faults[0], answers[0]);
    assert RunLog(runID, faults, answers)[p] == first[p] && RunLog(runID, faults, answers)[..p] == first[..p];
    hide StepLog, RunLog, StepOk, Admitted;
    DeleteInStep(runID, faults[0], answers[0], p);
  }

  lemma {:induction false} RunLogParts(runID: string, faults: seq<Fault>, answers: seq<Answers>)
    requires |answers| == |faults| && faults != [] && StepOk(runID, faults[0], answers[0])
    ensures RunLog(runID, faults, answers) ==
        StepLog(runID, faults[0], answers[0]) + RunLog(runID, faults[1..], answers[1..])
  {
    hide StepLog, StepOk;
  }

  lemma {:induction false} ReachedLater(runID: string, faults: seq<Fault>, answers: seq<Answers>, i: nat)
    requires |answers| == |faults| && i < |faults| && StepOk(runID, faults[0], answers[0])
    requires Reached(runID, faults[1..], answers[1..], i)
    ensures Reached(runID, faults, answers, i + 1)
  {
    hide StepOk;
    forall j | 0 <= j < i + 1 ensures StepOk(runID, faults[j], answers[j]) {
      if j > 0 {
        assert faults[j] == faults[1..][j - 1] && answers[j] == answers[1..][j - 1];
      }
    }
  }

  lemma {:induction false} ReachedComplete(runID: string, faults: seq<Fault>, answers: seq<Answers>, i: nat)
    requires |answers| == |faults| && i <= |faults| && Reached(runID, faults, answers, i)
    ensures forall j | 0 <= j < i :: Complete(runID, faults[j], StepLog(runID, faults[j], answers[j]))
  {
    hide StepOk, StepLog, Complete;
    forall j | 0 <= j < i ensures Complete(runID, faults[j], StepLog(runID, faults[j], answers[j])) {
      StepOkExact(runID, faults[j], answers[j]);
    }
  }

  lemma {:induction false} DeletesLater(runID: string, faults: seq<Fault>, answers: seq<Answers>, p: nat, q: nat,
                                        i: nat)
    requires |answers| == |faults| && faults != [] && StepOk(runID, faults[0], answers[0])
    requires p == q + |StepLog(runID, faults[0], answers[0])| < |RunLog(runID, faults, answers)|
    requires q < |RunLog(runID, faults[1..], answers[1..])|
    requires DeletesAt(runID, faults[1..], answers[1..], RunLog(runID, faults[1..], answers[1..]), q, i)
    ensures DeletesAt(runID, faults, answers, RunLog(runID, faults, answers), p, i + 1)
  {
    hide StepLog, RunLog, Admitted, StepOk, Complete, Concatenated, Reached;
    var first, rest, log :=
        StepLog(runID, faults[0], answers[0]), RunLog(runID, faults[1..], answers[1..]), RunLog(runID, faults, answers);
    RunLogParts(runID, faults, answers);
    assert log[p] == rest[q] && log[..p] == first + rest[..q];
    ConcatenatedTail(runID, faults, answers, i);
    ReachedLater(runID, faults, answers, i);
    ReachedComplete(runID, faults, answers, i + 1);
  }

  /** A pod is deleted only after every earlier fault went through its complete, successful step. */
  lemma {:induction false} DeletesOnlyAfterRecovery(runID: string, faults: seq<Fault>, answers: seq<Answers>, p: nat)
    requires |answers| == |faults| && p < |RunLog(runID, faults, answers)| && RunLog(runID, faults, answers)[p].Delete?
    ensures exists i :: DeletesAt(runID, faults, answers, RunLog(runID, faults, answers), p, i)
    decreases |faults|
  {
    hide StepLog, StepOk, DeletesAt;
    var first := StepLog(runID, faults[0], answers[0]);
    if p < |first| {
      DeletesHere(runID, faults, answers, p);
    } else {
      var q := p - |first|;
      assert RunLog(runID, faults, answers)[p] == RunLog(runID, faults[1..], answers[1..])[q];
      DeletesOnlyAfterRecovery(runID, faults[1..], answers[1..], q);
      var i :| DeletesAt(runID, faults[1..], answers[1..], RunLog(runID, faults[1..], answers[1..]), q, i);
      DeletesLater(runID, faults, answers, p, q, i);
    }
  }

  // ---- markers and diagnostics ----------------------------------------------------------------------------

  /**
   * An end marker follows its written start marker, says passed exactly on recovery, and only the diagnostics come
   * after it.
   */
  lemma {:induction false} EndInStep(runID: string, f: Fault, a: Answers, p: nat)
    requires p < |StepLog(runID, f, a)| && StepLog(runID, f, a)[p].Ended?
    ensures p == |StepLog(runID, f, a)| - 2 && p >= 4 && Admitted(runID, f, a)
    ensures StepLog(runID, f, a)[2] == Started(f.id, true) && StepLog(runID, f, a)[3].Delete?
    ensures StepLog(runID, f, a)[p].status == if Recovered(runID, a) then Passed else Failed
    ensures StepLog(runID, f, a)[p + 1].Collect?
  {
    hide BaselineGood, RecoveryGood;
    var log := StepLog(runID, f, a);
    if Admitted(runID, f, a) {
      var opening, outage := Opening(runID, f, a), Outage(runID, f, a);
      assert forall i | 0 <= i < 3 :: log[i] == opening[i];
      assert forall i | 0 <= i < |outage| :: log[3 + i] == outage[i];
    }
  }

  datatype Kind = WrittenStart | AnyEnd | Diagnosis

  /**
   * The events of one kind for one fault: start markers that were written, end markers and collections that were
   * attempted.
   */
  function Is(kind: Kind, id: string): Event -> bool {
    (e: Event) =>
        e.id == id &&
        (match kind case WrittenStart => e.Started? && e.ok case AnyEnd => e.Ended? case Diagnosis => e.Collect?)
  }

  lemma {:induction false} CountOne(e: Event, p: Event -> bool)
    ensures Sorting.Count([e], p) == if p(e) then 1 else 0
  {
    assert [e][..0] == [];
  }

  lemma {:induction false} StepIDs(runID: string, f: Fault, a: Answers)
    ensures forall e | e in StepLog(runID, f, a) :: e.id == f.id
  {
    hide BaselineGood, RecoveryGood;
  }

  lemma {:induction false} OpeningCounts(runID: string, f: Fault, a: Answers, kind: Kind)
    ensures Sorting.Count(Opening(runID, f, a), Is(kind, f.id)) == if kind.WrittenStart? && Admitted(runID, f, a)
        then 1
        else 0
  {
    hide BaselineGood, RecoveryGood;
    var opening, p := Opening(runID, f, a), Is(kind, f.id);
    if kind.WrittenStart? && Admitted(runID, f, a) {
      assert opening[..2] == [Steady(f.id, true), Preflight(f.id, a.preflight)];
      Sorting.CountZero(opening[..2], p);
    } else {
      Sorting.CountZero(opening, p);
    }
  }

  lemma {:induction false} OutageCounts(runID: string, f: Fault, a: Answers, kind: Kind)
    requires a.preflight.Some?
    ensures Sorting.Count(Outage(runID, f, a), Is(kind, f.id)) == 0
  {
    hide BaselineGood, RecoveryGood;
    Sorting.CountZero(Outage(runID, f, a), Is(kind, f.id));
  }

  lemma {:induction false} StepCounts(runID: string, f: Fault, a: Answers, kind: Kind)
    ensures Sorting.Count(StepLog(runID, f, a), Is(kind, f.id)) == if Admitted(runID, f, a) || kind.Diagnosis?
        then 1
        else 0
  {
    hide BaselineGood, RecoveryGood, Opening, Outage, Recovered, Seen, Sorting.Count;
    var opening, close, p := Opening(runID, f, a), Collect(f.id, Seen(runID, f, a), a.collected), Is(kind, f.id);
    OpeningCounts(runID, f, a, kind);
    CountOne(close, p);
    if Admitted(runID, f, a) {
      var outage, end := Outage(runID, f, a), Ended(f.id, if Recovered(runID, a) then Passed else Failed, a.ended);
      OutageCounts(runID, f, a, kind);
      CountOne(end, p);
      Sorting.CountConcat(opening, outage, p);
      Sorting.CountConcat(opening + outage, [end], p);
      Sorting.CountConcat(opening + outage + [end], [close], p);
    } else {
      Sorting.CountConcat(opening, [close], p);
    }
  }

  predicate DistinctFaults(faults: seq<Fault>) { forall i, j | 0 <= i < j < |faults| :: faults[i].id != faults[j].id }

  lemma {:induction false} OtherFaults(runID: string, faults: seq<Fault>, answers: seq<Answers>, kind: Kind, id: string)
    requires |answers| == |faults| && forall i | 0 <= i < |faults| :: faults[i].id != id
    ensures Sorting.Count(RunLog(runID, faults, answers), Is(kind, id)) == 0
    decreases |faults|
  {
    hide StepLog, StepOk;
    if faults != [] {
      var first, p := StepLog(runID, faults[0], answers[0]), Is(kind, id);
      StepIDs(runID, faults[0], answers[0]);
      Sorting.CountZero(first, p);
      OtherFaults(runID, faults[1..], answers[1..], kind, id);
      Sorting.CountConcat(first, if StepOk(runID, faults[0], answers[0])
          then RunLog(runID, faults[1..], answers[1..])
          else [], p);
    }
  }

  lemma {:induction false} ReachedTail(runID: string, faults: seq<Fault>, answers: seq<Answers>, i: nat)
    requires |answers| == |faults| && 0 < i < |faults|
    ensures Reached(runID, faults, answers, i) <==>
        StepOk(runID, faults[0], answers[0]) && Reached(runID, faults[1..], answers[1..], i - 1)
  {
    hide StepOk;
    if StepOk(runID, faults[0], answers[0]) && Reached(runID, faults[1..], answers[1..], i - 1) {
      ReachedLater(runID, faults, answers, i - 1);
    } else if Reached(runID, faults, answers, i) {
      forall j | 0 <= j < i - 1 ensures StepOk(runID, faults[1..][j], answers[1..][j]) {
        assert faults[1..][j] == faults[j + 1] && answers[1..][j] == answers[j + 1];
      }
    }
  }

  /** One end marker per written start marker, and one collection of diagnostics per step that was begun. */
  lemma {:induction false} RunCounts(runID: string, faults: seq<Fault>, answers: seq<Answers>, i: nat, kind: Kind)
    requires |answers| == |faults| && i < |faults| && DistinctFaults(faults)
    ensures Sorting.Count(RunLog(runID, faults, answers), Is(kind, faults[i].id)) ==
      if Reached(runID, faults, answers, i) && (kind.Diagnosis? || Admitted(runID, faults[i], answers[i])) then 1 else 0
    decreases |faults|
  {
    hide StepLog, StepOk, Admitted, Sorting.Count, Reached;
    var first, p := StepLog(runID, faults[0], answers[0]), Is(kind, faults[i].id);
    var rest := if StepOk(runID, faults[0], answers[0]) then RunLog(runID, faults[1..], answers[1..]) else [];
    Sorting.CountConcat(first, rest, p);
    if i == 0 {
      ReachedFirst(runID, faults, answers);
      StepCounts(runID, faults[0], answers[0], kind);
      OtherFaults(runID, faults[1..], answers[1..], kind, faults[0].id);
      Sorting.CountZero([], p);
    } else {
      ReachedTail(runID, faults, answers, i);
      StepIDs(runID, faults[0], answers[0]);
      Sorting.CountZero(first, p);
      RunCounts(runID, faults[1..], answers[1..], i - 1, kind);
      Sorting.CountZero([], p);
    }
  }

  lemma {:induction false} ReachedFirst(runID: string, faults: seq<Fault>, answers: seq<Answers>)
    requires |answers| == |faults|
    ensures Reached(runID, faults, answers, 0)
  {}

  /** In a run of an accepted execution, each of the sixteen faults has as many end markers as written start markers. */
  lemma {:induction false} AcceptedRunCounts(e: Execution, answers: seq<Answers>, i: nat)
    requires Accepted(e) && |answers| == |AllFaults(e)| && i < |AllFaults(e)|
    ensures var log, id := RunLog(e.runID, AllFaults(e), answers), AllFaults(e)[i].id;
      && Sorting.Count(log, Is(AnyEnd, id)) ==
           Sorting.Count(log, Is(WrittenStart, id)) <= Sorting.Count(log, Is(Diagnosis, id))
      && Sorting.Count(log, Is(Diagnosis, id)) == if Reached(e.runID, AllFaults(e), answers, i) then 1 else 0
  {
    hide Accepted, AllFaults, RunLog, Sorting.Count, Reached, Admitted;
    FaultCount(e);
    forall j, k | 0 <= j < k < |AllFaults(e)| ensures AllFaults(e)[j].id != AllFaults(e)[k].id {
      DistinctIDs(e, j, k);
    }
    RunCounts(e.runID, AllFaults(e), answers, i, AnyEnd);
    RunCounts(e.runID, AllFaults(e), answers, i, WrittenStart);
    RunCounts(e.runID, AllFaults(e), answers, i, Diagnosis);
  }

  lemma {:induction false} FaultCount(e: Execution)
    requires Accepted(e)
    ensures |AllFaults(e)| == 16
  {
    hide DNSLabel, RunID, IDsGood, Reverses, FaultID, Sorting.NoRepeats, ValidStep;
  }

  /** The log is the complete logs of these faults, in order, and nothing else. */
  predicate AllComplete(runID: string, faults: seq<Fault>, log: seq<Event>) {
    if faults == []
        then log == []
        else |log| >= 8 && Complete(runID, faults[0], log[..8]) && AllComplete(runID, faults[1..], log[8..])
  }

  lemma {:induction false} StepLength(runID: string, f: Fault, a: Answers)
    ensures |StepLog(runID, f, a)| <= 8
  {
    hide BaselineGood, RecoveryGood;
  }

  lemma {:induction false} RunOkParts(runID: string, faults: seq<Fault>, answers: seq<Answers>)
    requires |answers| == |faults| && faults != []
    ensures RunOk(runID, faults, answers) <==>
        StepOk(runID, faults[0], answers[0]) && RunOk(runID, faults[1..], answers[1..])
  {
    hide StepOk;
    if StepOk(runID, faults[0], answers[0]) && RunOk(runID, faults[1..], answers[1..]) {
      forall i | 0 <= i < |faults| ensures StepOk(runID, faults[i], answers[i]) {
        if i > 0 { assert faults[i] == faults[1..][i - 1] && answers[i] == answers[1..][i - 1]; }
      }
    }
  }

  /** A run succeeds exactly when its log is the complete log of every fault, in order. */
  lemma {:induction false} RunOkExact(runID: string, faults: seq<Fault>, answers: seq<Answers>)
    requires |answers| == |faults|
    ensures RunOk(runID, faults, answers) <==> AllComplete(runID, faults, RunLog(runID, faults, answers))
    decreases |faults|
  {
    hide StepLog, StepOk, RunOk;
    if faults == [] {
      RunLogNone(runID, []);
    } else {
      var first, rest := StepLog(runID, faults[0], answers[0]), RunLog(runID, faults[1..], answers[1..]);
      StepOkExact(runID, faults[0], answers[0]);
      RunOkParts(runID, faults, answers);
      RunOkExact(runID, faults[1..], answers[1..]);
      if StepOk(runID, faults[0], answers[0]) {
        assert (first + rest)[..8] == first && (first + rest)[8..] == rest;
      } else {
        StepLength(runID, faults[0], answers[0]);
        assert |first| == 8 ==> (first + [])[..8] == first;
      }
    }
  }
}
