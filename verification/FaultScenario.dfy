/**
 * The sequential pod-fault scenario: every call it makes on the controller, the probe and the collector is an
 * event of its log, and the answers of those calls are arbitrary.
 */
module FaultScenario {
  import opened Wrappers
  import opened FaultPlans

  datatype PodRef = PodRef(kubeconfig: string, contextName: string, namespace: string, deployment: string, name: string,
                           uid: string, owner: string)

  datatype State = State(
    selected: Step, pod: PodRef, pods: seq<PodRef>, desired: int, ready: int, available: int,
    healthyPaths: int, healthyPathsWithoutPod: int, isPodReady: bool, isTunnelReady: bool, isRolling: bool)

  // ---- what the scenario checks of a snapshot -------------------------------------------------------------

  function Split(s: string, separator: char): (parts: seq<string>)
    ensures parts != []
  {
    if s == [] then [[]]
    else
      var rest := Split(s[1..], separator);
      if s[0] == separator then [[]] + rest else [[s[0]] + rest[0]] + rest[1..]
  }

  predicate DNSSubdomain(s: string) { 0 < |s| <= 253 && forall part | part in Split(s, '.') :: DNSLabel(part) }

  predicate ExactArgument(s: string) {
    && 0 < |s| <= 253 && s[0] != '-'
    && forall i | 0 <= i < |s| :: 'a' <= s[i] <= 'z' || 'A' <= s[i] <= 'Z' || '0' <= s[i] <= '9' || s[i] in "-._:/@"
  }

  /** An absolute path that cleaning leaves as it is, and that is not the root. */
  predicate CleanPath(s: string) {
    |s| > 1 && s[0] == '/' && forall part | part in Split(s[1..], '/') :: part != "" && part != "." && part != ".."
  }

  predicate PodGood(runID: string, pod: PodRef) {
    && RunID(runID) && pod.owner == runID && CleanPath(pod.kubeconfig) && ExactArgument(pod.contextName)
    && DNSSubdomain(pod.namespace) && DNSSubdomain(pod.deployment) && DNSSubdomain(pod.name) && ExactArgument(pod.uid)
  }

  predicate SameDeployment(a: PodRef, b: PodRef) {
    a.kubeconfig == b.kubeconfig && a.contextName == b.contextName && a.namespace == b.namespace &&
        a.deployment == b.deployment
  }

  /** The inventory: as many pods as desired, of one deployment, no name or uid twice, the selected one among them. */
  predicate PodSetGood(runID: string, selected: PodRef, pods: seq<PodRef>, desired: int) {
    && |pods| == desired
    && (forall i | 0 <= i < |pods| :: PodGood(runID, pods[i]) && SameDeployment(pods[i], selected))
    && (forall i, j | 0 <= i < j < |pods| :: pods[i].name != pods[j].name && pods[i].uid != pods[j].uid)
    && selected in pods
  }

  predicate BaselineGood(runID: string, step: Step, s: State) {
    && s.selected == step && PodGood(runID, s.pod)
    && s.isPodReady && s.isTunnelReady && !s.isRolling
    && s.desired >= 2 && PodSetGood(runID, s.pod, s.pods, s.desired)
    && s.ready == s.desired && s.available == s.desired
    && 1 <= s.healthyPathsWithoutPod <= s.healthyPaths
  }

  predicate RecoveryGood(runID: string, base: State, s: State) {
    && s.selected == base.selected && PodGood(runID, s.pod) && s.pod.uid != base.pod.uid &&
         SameDeployment(s.pod, base.pod)
    && PodSetGood(runID, s.pod, s.pods, s.desired)
    && s.isPodReady && s.isTunnelReady && !s.isRolling
    && s.desired == base.desired && s.ready == base.desired && s.available == base.desired &&
         s.healthyPaths >= base.healthyPaths
  }

  method ValidatePodSet(runID: string, selected: PodRef, pods: seq<PodRef>, desired: int) returns (ok: bool)
    ensures ok <==> PodSetGood(runID, selected, pods, desired)
  {
    hide PodGood, SameDeployment;
    if desired < 0 || |pods| != desired {
      return false;
    }
    var names: set<string>, uids: set<string>, present := {}, {}, false;
    for i := 0 to |pods|
      invariant forall j | 0 <= j < i :: PodGood(runID, pods[j]) && SameDeployment(pods[j], selected)
      invariant forall j, k | 0 <= j < k < i :: pods[j].name != pods[k].name && pods[j].uid != pods[k].uid
      invariant forall n :: n in names <==> exists j :: 0 <= j < i && pods[j].name == n
      invariant forall u :: u in uids <==> exists j :: 0 <= j < i && pods[j].uid == u
      invariant present <==> selected in pods[..i]
    {
      if !PodGood(runID, pods[i]) || !SameDeployment(pods[i], selected) || pods[i].name in names ||
          pods[i].uid in uids {
        return false;
      }
      names, uids := names + {pods[i].name}, uids + {pods[i].uid};
      present := present || pods[i] == selected;
    }
    assert pods[..|pods|] == pods;
    return present;
  }

  // ---- the log ------------------------------------------------------------------------------------------

  datatype Status = Unknown | Passed | Failed

  datatype Diagnostics = Diagnostics(pod: Option<PodRef>, replacement: Option<PodRef>, isDeleted: bool,
                                     isRecovered: bool)

  datatype Event =
    | Steady(id: string, ok: bool)
    | Preflight(id: string, state: Option<State>)
    | Started(id: string, ok: bool)
    | Delete(id: string, pod: PodRef, ok: bool)
    | Recover(id: string, state: Option<State>)
    | Ended(id: string, status: Status, ok: bool)
    | Collect(id: string, diagnostics: Diagnostics, ok: bool)

  /** What the outside world would answer during one step; answers to calls that are not made do not matter. */
  datatype Answers = Answers(
    steady: bool, preflight: Option<State>, started: bool, deleted: bool, recovery: Option<State>, steadyAgain: bool,
        ended: bool, collected: bool)

  predicate Admitted(runID: string, f: Fault, a: Answers) {
    a.steady && a.preflight.Some? && BaselineGood(runID, f.step, a.preflight.value) && a.started
  }

  predicate Recovered(runID: string, a: Answers)
    requires a.preflight.Some?
  {
    a.deleted && a.recovery.Some? && RecoveryGood(runID, a.preflight.value, a.recovery.value) && a.steadyAgain
  }

  predicate StepOk(runID: string, f: Fault, a: Answers) {
    Admitted(runID, f, a) && Recovered(runID, a) && a.ended && a.collected
  }

  function Opening(runID: string, f: Fault, a: Answers): seq<Event> {
    if !a.steady then [Steady(f.id, false)]
    else if a.preflight.None? || !BaselineGood(runID, f.step, a.preflight.value)
        then [Steady(f.id, true), Preflight(f.id, a.preflight)]
    else [Steady(f.id, true), Preflight(f.id, a.preflight), Started(f.id, a.started)]
  }

  function Outage(runID: string, f: Fault, a: Answers): seq<Event>
    requires a.preflight.Some?
  {
    var deletion := [Delete(f.id, a.preflight.value.pod, a.deleted)];
    if !a.deleted then deletion
    else if a.recovery.None? || !RecoveryGood(runID, a.preflight.value, a.recovery.value)
        then deletion + [Recover(f.id, a.recovery)]
    else deletion + [Recover(f.id, a.recovery), Steady(f.id, a.steadyAgain)]
  }

  function PodOf(s: Option<State>): Option<PodRef> { if s.Some? then Some(s.value.pod) else None }

  function Seen(runID: string, f: Fault, a: Answers): Diagnostics {
    if !a.steady then Diagnostics(None, None, false, false)
    else if !Admitted(runID, f, a) || !a.deleted then Diagnostics(PodOf(a.preflight), None, false, false)
    else Diagnostics(PodOf(a.preflight), PodOf(a.recovery), true, Recovered(runID, a))
  }

  function StepLog(runID: string, f: Fault, a: Answers): seq<Event> {
    var close := [Collect(f.id, Seen(runID, f, a), a.collected)];
    if !Admitted(runID, f, a) then Opening(runID, f, a) + close
    else
      var end := Ended(f.id, if Recovered(runID, a) then Passed else Failed, a.ended);
      Opening(runID, f, a) + Outage(runID, f, a) + [end] + close
  }

  predicate RunOk(runID: string, faults: seq<Fault>, answers: seq<Answers>)
    requires |answers| == |faults|
  {
    forall i | 0 <= i < |faults| :: StepOk(runID, faults[i], answers[i])
  }

  /** The steps in order, up to and including the first that fails. */
  function RunLog(runID: string, faults: seq<Fault>, answers: seq<Answers>): seq<Event>
    requires |answers| == |faults|
  {
    if faults == [] then []
    else
      var first := StepLog(runID, faults[0], answers[0]);
      first + if StepOk(runID, faults[0], answers[0]) then RunLog(runID, faults[1..], answers[1..]) else []
  }

  // ---- the scenario -------------------------------------------------------------------------------------

  class Scenario {
    var log: seq<Event>

    constructor ()
      ensures log == []
    {
      log := [];
    }

    /** Collects the diagnostics and joins their error to the step's. */
    method Finish(id: string, diagnostics: Diagnostics, fine: bool) returns (ok: bool, ghost collected: bool)
      modifies this
      ensures log == old(log) + [Collect(id, diagnostics, collected)] && ok == (fine && collected)
    {
      var answer := *;
      log, collected := log + [Collect(id, diagnostics, answer)], answer;
      ok := fine && answer;
    }

    method DeleteAndRecover(runID: string, f: Fault, baseline: State, ghost a: Answers)
      returns (ok: bool, diagnostics: Diagnostics, ghost b: Answers)
      requires a.preflight == Some(baseline) && Admitted(runID, f, a)
      modifies this
      ensures b == a.(deleted := b.deleted, recovery := b.recovery, steadyAgain := b.steadyAgain)
      ensures log == old(log) + Outage(runID, f, b) && ok == Recovered(runID, b)
      ensures diagnostics == Seen(runID, f, b)
    {
      diagnostics := Diagnostics(Some(baseline.pod), None, false, false);
      b := a;
      var deleted := *;
      log, b := log + [Delete(f.id, baseline.pod, deleted)], b.(deleted := deleted);
      if !deleted {
        return false, diagnostics, b;
      }
      diagnostics := diagnostics.(isDeleted := true);
      var recovery: Option<State> := *;
      log, b := log + [Recover(f.id, recovery)], b.(recovery := recovery);
      if recovery.None? {
        return false, diagnostics, b;
      }
      diagnostics := diagnostics.(replacement := Some(recovery.value.pod));
      if !RecoveryGood(runID, baseline, recovery.value) {
        return false, diagnostics, b;
      }
      var steady := *;
      log, b := log + [Steady(f.id, steady)], b.(steadyAgain := steady);
      if !steady {
        return false, diagnostics, b;
      }
      return true, diagnostics.(isRecovered := true), b;
    }

    /** Everything before the outage: the baseline is returned exactly when the outage may begin. */
    method OpenStep(runID: string, f: Fault) returns (baseline: Option<State>, diagnostics: Diagnostics,
                    ghost a: Answers)
      modifies this
      ensures log == old(log) + Opening(runID, f, a)
      ensures baseline.Some? <==> Admitted(runID, f, a)
      ensures baseline.Some? ==> a.preflight == baseline
      ensures baseline.None? ==> diagnostics == Seen(runID, f, a)
    {
      hide BaselineGood, RecoveryGood;
      a := *;
      diagnostics := Diagnostics(None, None, false, false);
      var steady := *;
      log, a := log + [Steady(f.id, steady)], a.(steady := steady);
      if !steady {
        return None, diagnostics, a;
      }
      var preflight: Option<State> := *;
      log, a := log + [Preflight(f.id, preflight)], a.(preflight := preflight);
      if preflight.None? {
        return None, diagnostics, a;
      }
      diagnostics := diagnostics.(pod := Some(preflight.value.pod));
      if !BaselineGood(runID, f.step, preflight.value) {
        return None, diagnostics, a;
      }
      var started := *;
      log, a := log + [Started(f.id, started)], a.(started := started);
      return if started then preflight else None, diagnostics, a;
    }

    method RunStep(runID: string, f: Fault) returns (ok: bool, ghost a: Answers)
      modifies this
      ensures log == old(log) + StepLog(runID, f, a) && ok == StepOk(runID, f, a)
    {
      hide BaselineGood, RecoveryGood;
      var baseline, diagnostics;
      ghost var collected: bool;
      baseline, diagnostics, a := OpenStep(runID, f);
      if baseline.None? {
        ok, collected := Finish(f.id, diagnostics, false);
        a := a.(collected := collected);
      } else {
        ok, a := CloseStep(runID, f, baseline.value, a);
      }
    }

    /** Everything after a written start marker: the outage, its end marker and the diagnostics. */
    method CloseStep(runID: string, f: Fault, baseline: State, ghost a: Answers) returns (ok: bool, ghost b: Answers)
      requires a.preflight == Some(baseline) && Admitted(runID, f, a)
      modifies this
      ensures Admitted(runID, f, b) && Opening(runID, f, b) == Opening(runID, f, a)
      ensures ok == StepOk(runID, f, b)
      ensures log ==
        old(log) + Outage(runID, f, b) + [Ended(f.id, if Recovered(runID, b) then Passed else Failed, b.ended)]
        + [Collect(f.id, Seen(runID, f, b), b.collected)]
    {
      hide BaselineGood, RecoveryGood;
      var recovered, diagnostics;
      ghost var collected: bool;
      recovered, diagnostics, b := DeleteAndRecover(runID, f, baseline, a);
      var status := if recovered then Passed else Failed;
      var ended := *;
      log, b := log + [Ended(f.id, status, ended)], b.(ended := ended);
      ok, collected := Finish(f.id, diagnostics, recovered && ended);
      b := b.(collected := collected);
    }

    method Run(e: Execution) returns (ok: bool, ghost answers: seq<Answers>)
      modifies this
      ensures !Accepted(e) ==> !ok && log == old(log)
      ensures Accepted(e) ==> |answers| == |AllFaults(e)| && log == old(log) + RunLog(e.runID, AllFaults(e), answers)
      ensures Accepted(e) ==> ok == RunOk(e.runID, AllFaults(e), answers)
    {
      hide StepLog, StepOk, Accepted, RunLog, RunOk;
      answers := [];
      var all := Faults(e);
      if all.Err? {
        return false, answers;
      }
      var faults := all.value;
      RunLogNone(e.runID, faults);
      for i := 0 to |faults|
        invariant |answers| == i && RunOk(e.runID, faults[..i], answers)
        invariant log == old(log) + RunLog(e.runID, faults[..i], answers)
      {
        ghost var a;
        ok, a := RunStep(e.runID, faults[i]);
        RunLogNext(e.runID, faults, answers, i, a);
        answers := answers + [a];
        if !ok {
          answers := RunLogStops(e.runID, faults, i, answers);
          return;
        }
      }
      assert faults[..|faults|] == faults;
      ok := true;
    }
  }

  lemma {:induction false} RunLogNone(runID: string, faults: seq<Fault>)
    ensures RunOk(runID, faults[..0], []) && RunLog(runID, faults[..0], []) == []
  {}

  lemma {:induction false} RunLogNext(runID: string, faults: seq<Fault>, answers: seq<Answers>, i: nat, a: Answers)
    requires i < |faults| && |answers| == i && RunOk(runID, faults[..i], answers)
    ensures RunLog(runID, faults[..i + 1], answers + [a]) ==
        RunLog(runID, faults[..i], answers) + StepLog(runID, faults[i], a)
    ensures StepOk(runID, faults[i], a) ==> RunOk(runID, faults[..i + 1], answers + [a])
  {
    hide StepLog, StepOk, RunLog;
    RunLogSnoc(runID, faults[..i], answers, faults[i], a);
    assert faults[..i + 1] == faults[..i] + [faults[i]];
  }

  lemma {:induction false} RunLogSnoc(runID: string, faults: seq<Fault>, answers: seq<Answers>, f: Fault, a: Answers)
    requires |answers| == |faults| && RunOk(runID, faults, answers)
    ensures RunLog(runID, faults + [f], answers + [a]) == RunLog(runID, faults, answers) + StepLog(runID, f, a)
  {
    hide StepLog, StepOk;
    if faults != [] {
      assert (faults + [f])[1..] == faults[1..] + [f] && (answers + [a])[1..] == answers[1..] + [a];
      RunLogSnoc(runID, faults[1..], answers[1..], f, a);
    }
  }

  /** After a failed step, whatever later steps would be answered does not show. */
  lemma {:induction false} RunLogStops(runID: string, faults: seq<Fault>, i: nat,
                                       answers: seq<Answers>) returns (all: seq<Answers>)
    requires i < |faults| && |answers| == i + 1 && !StepOk(runID, faults[i], answers[i])
    ensures |all| == |faults| && all[..i + 1] == answers && !RunOk(runID, faults, all)
    ensures RunLog(runID, faults, all) == RunLog(runID, faults[..i + 1], answers)
  {
    hide StepLog, StepOk;
    if i == 0 {
      all := answers + seq(|faults| - 1, _ => answers[0]);
    } else {
      var rest := RunLogStops(runID, faults[1..], i - 1, answers[1..]);
      all := [answers[0]] + rest;
      assert all[1..] == rest && faults[..i + 1][1..] == faults[1..][..i];
    }
    assert all[i] == answers[i];
  }
}
