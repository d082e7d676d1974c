/** The pod-fault matrix: which executions are accepted, the sixteen faults they yield and the names these get. */
module FaultPlans {
  import opened Sorting
  import opened Wrappers

  datatype Step = Step(dc: string, component: string, role: string)

  datatype Plan = Plan(id: string, steps: seq<Step>)

  datatype Execution = Execution(runID: string, plans: seq<Plan>)

  datatype Fault = Fault(id: string, step: Step)

  const REQUIRED_PLANS := 2
  const REQUIRED_STEPS := 8
  const MAX_LABEL := 63
  const MAX_RUN_ID := 32

  // ---- names ------------------------------------------------------------------------------------------

  predicate LabelChar(c: char) { 'a' <= c <= 'z' || '0' <= c <= '9' || c == '-' }

  predicate DNSLabel(s: string) {
    && 0 < |s| <= MAX_LABEL
    && (forall i | 0 <= i < |s| :: LabelChar(s[i]))
    && s[0] != '-' && s[|s| - 1] != '-'
  }

  method IsDNSLabel(s: string) returns (ok: bool)
    ensures ok <==> DNSLabel(s)
  {
    if |s| == 0 || |s| > MAX_LABEL {
      return false;
    }
    for i := 0 to |s|
      invariant forall j | 0 <= j < i :: LabelChar(s[j])
      invariant forall j | 0 <= j < i :: s[j] == '-' ==> j != 0 && j != |s| - 1
    {
      var alphanumeric := 'a' <= s[i] <= 'z' || '0' <= s[i] <= '9';
      if !alphanumeric && s[i] != '-' {
        return false;
      }
      if s[i] == '-' && (i == 0 || i == |s| - 1) {
        return false;
      }
    }
    return true;
  }

  predicate RunID(s: string) { |s| <= MAX_RUN_ID && DNSLabel(s) && "mm32-" <= s }

  predicate ValidStep(s: Step) {
    && (s.dc == "dc-a" || s.dc == "dc-b")
    && (s.component == "gateway-in" || s.component == "gateway-out")
    && (s.role == "active" || s.role == "standby")
  }

  function Digit(n: nat): char
    requires n < 10
  {
    "0123456789"[n]
  }

  function Decimal(n: nat): string { if n < 10 then [Digit(n)] else Decimal(n / 10) + [Digit(n % 10)] }

  function TwoDigits(n: nat): string { if n < 10 then "0" + Decimal(n) else Decimal(n) }

  function Tail(index: nat, step: Step): string {
    "-" + TwoDigits(index + 1) + "-" + step.dc + "-" + step.component + "-" + step.role
  }

  function FaultID(plan: string, index: nat, step: Step): string { plan + Tail(index, step) }

  lemma {:induction false} LastChar(x: string, a: string)
    requires a != []
    ensures x + a != [] && (x + a)[|x + a| - 1] == a[|a| - 1]
  {}

  lemma {:induction false} SameEnding(x: string, y: string, a: string, b: string)
    requires x + a == y + b && a != [] && b != []
    ensures a[|a| - 1] == b[|b| - 1]
  {
    LastChar(x, a);
    LastChar(y, b);
  }

  function UpToRole(plan: string, index: nat, step: Step): string {
    UpToComponent(plan, index, step) + step.component + "-"
  }

  function UpToComponent(plan: string, index: nat, step: Step): string { UpToDC(plan, index) + step.dc + "-" }

  function UpToDC(plan: string, index: nat): string { plan + "-" + TwoDigits(index + 1) + "-" }

  lemma {:induction false} FaultIDParts(plan: string, index: nat, step: Step)
    ensures FaultID(plan, index, step) == UpToRole(plan, index, step) + step.role
  {}

  lemma {:induction false} DigitsInjective(m: nat, n: nat)
    requires m < 100 && n < 100 && TwoDigits(m) == TwoDigits(n)
    ensures m == n
  {
    TwoDigitsForm(m);
    TwoDigitsForm(n);
    DigitInjective(m / 10, n / 10);
    DigitInjective(m % 10, n % 10);
  }

  lemma {:induction false} TwoDigitsForm(n: nat)
    requires n < 100
    ensures TwoDigits(n) == [Digit(n / 10), Digit(n % 10)]
  {
    if n >= 10 { assert Decimal(n / 10) == [Digit(n / 10)]; }
  }

  lemma {:induction false} DigitInjective(m: nat, n: nat)
    requires m < 10 && n < 10 && Digit(m) == Digit(n)
    ensures m == n
  {}

  lemma {:induction false} SameRole(x: string, y: string, s: Step, t: Step)
    requires ValidStep(s) && ValidStep(t) && x + s.role == y + t.role
    ensures s.role == t.role && x == y
  {
    SameEnding(x, y, s.role, t.role);
    SplitEqual(x, y, s.role, t.role);
  }

  lemma {:induction false} SameComponent(x: string, y: string, s: Step, t: Step)
    requires ValidStep(s) && ValidStep(t) && x + s.component + "-" == y + t.component + "-"
    ensures s.component == t.component && x == y
  {
    SplitEqual(x + s.component, y + t.component, "-", "-");
    SameEnding(x, y, s.component, t.component);
    SplitEqual(x, y, s.component, t.component);
  }

  lemma {:induction false} SameDC(x: string, y: string, s: Step, t: Step)
    requires ValidStep(s) && ValidStep(t) && x + s.dc + "-" == y + t.dc + "-"
    ensures s.dc == t.dc && x == y
  {
    SplitEqual(x + s.dc, y + t.dc, "-", "-");
    SameEnding(x, y, s.dc, t.dc);
    SplitEqual(x, y, s.dc, t.dc);
  }

  lemma {:induction false} SameIndex(p: string, q: string, i: nat, j: nat)
    requires i < 99 && j < 99 && UpToDC(p, i) == UpToDC(q, j)
    ensures p == q && i == j
  {
    TwoDigitsForm(i + 1);
    TwoDigitsForm(j + 1);
    SplitEqual(p + "-" + TwoDigits(i + 1), q + "-" + TwoDigits(j + 1), "-", "-");
    SplitEqual(p + "-", q + "-", TwoDigits(i + 1), TwoDigits(j + 1));
    SplitEqual(p, q, "-", "-");
    DigitsInjective(i + 1, j + 1);
  }

  /** A fault ID decodes from its right end: it names its plan, position and step, whatever the plan is called. */
  lemma {:induction false} FaultIDInjective(p: string, q: string, i: nat, j: nat, s: Step, t: Step)
    requires ValidStep(s) && ValidStep(t) && i < 99 && j < 99
    requires FaultID(p, i, s) == FaultID(q, j, t)
    ensures p == q && i == j && s == t
  {
    hide UpToDC, ValidStep, FaultID, TwoDigits;
    FaultIDParts(p, i, s);
    FaultIDParts(q, j, t);
    SameRole(UpToRole(p, i, s), UpToRole(q, j, t), s, t);
    SameComponent(UpToComponent(p, i, s), UpToComponent(q, j, t), s, t);
    SameDC(UpToDC(p, i), UpToDC(q, j), s, t);
    SameIndex(p, q, i, j);
  }

  // ---- which fault IDs are labels -----------------------------------------------------------------------

  lemma {:induction false} JoinLabels(a: string, b: string)
    requires DNSLabel(a) && DNSLabel(b) && |a| + 1 + |b| <= MAX_LABEL
    ensures DNSLabel(a + "-" + b)
  {}

  lemma {:induction false} StepLabels(s: Step, index: nat)
    requires ValidStep(s) && index < 99
    ensures DNSLabel(TwoDigits(index + 1)) && DNSLabel(s.dc) && DNSLabel(s.component) && DNSLabel(s.role)
    ensures |TwoDigits(index + 1)| == 2 && |s.dc| == 4 && |s.component| <= 11 && |s.role| <= 7
  {
    hide DNSLabel;
    NumberLabel(index + 1);
    WordLabels();
  }

  lemma {:induction false} NumberLabel(n: nat)
    requires n < 100
    ensures DNSLabel(TwoDigits(n)) && |TwoDigits(n)| == 2
  {
    TwoDigitsForm(n);
    DigitChar(n / 10);
    DigitChar(n % 10);
  }

  lemma {:induction false} DigitChar(n: nat)
    requires n < 10
    ensures '0' <= Digit(n) <= '9'
  {}

  lemma {:induction false} WordLabels()
    ensures DNSLabel("dc-a") && DNSLabel("dc-b") && DNSLabel("active") && DNSLabel("standby")
    ensures DNSLabel("gateway-in") && DNSLabel("gateway-out")
  {}

  /** For a valid step the label check of the fault ID only ever refuses for length. */
  lemma {:induction false} FaultIDLabel(plan: string, index: nat, s: Step)
    requires DNSLabel(plan) && ValidStep(s) && index < 99
    ensures DNSLabel(FaultID(plan, index, s)) <==> |FaultID(plan, index, s)| <= MAX_LABEL
  {
    hide ValidStep, DNSLabel, TwoDigits;
    StepLabels(s, index);
    var a := plan + "-" + TwoDigits(index + 1);
    var b := a + "-" + s.dc;
    var c := b + "-" + s.component;
    assert FaultID(plan, index, s) == c + "-" + s.role;
    if |FaultID(plan, index, s)| <= MAX_LABEL {
      JoinLabels(plan, TwoDigits(index + 1));
      JoinLabels(a, s.dc);
      JoinLabels(b, s.component);
      JoinLabels(c, s.role);
    } else {
      LabelLength(FaultID(plan, index, s));
    }
  }

  lemma {:induction false} LabelLength(s: string)
    ensures DNSLabel(s) ==> |s| <= MAX_LABEL
  {}

  // ---- validation ---------------------------------------------------------------------------------------

  ghost predicate PlanGood(plan: Plan) {
    && |plan.steps| == REQUIRED_STEPS
    && (forall i | 0 <= i < |plan.steps| :: ValidStep(plan.steps[i]))
    && NoRepeats(plan.steps)
  }

  predicate IDsGood(plan: Plan) { forall i: nat | i < |plan.steps| :: DNSLabel(FaultID(plan.id, i, plan.steps[i])) }

  predicate Reverses(first: seq<Step>, second: seq<Step>) {
    |first| == |second| && forall i | 0 <= i < |first| :: first[i] == second[|second| - i - 1]
  }

  ghost predicate Accepted(e: Execution) {
    && RunID(e.runID) && |e.plans| == REQUIRED_PLANS
    && (forall i | 0 <= i < |e.plans| :: DNSLabel(e.plans[i].id) && PlanGood(e.plans[i]) && IDsGood(e.plans[i]))
    && e.plans[0].id != e.plans[1].id
    && Reverses(e.plans[0].steps, e.plans[1].steps)
  }

  method IsReverseOrder(first: seq<Step>, second: seq<Step>) returns (ok: bool)
    ensures ok <==> Reverses(first, second)
  {
    if |first| != |second| {
      return false;
    }
    for i := 0 to |first|
      invariant forall j | 0 <= j < i :: first[j] == second[|second| - j - 1]
    {
      if first[i] != second[|second| - i - 1] {
        return false;
      }
    }
    return true;
  }

  method ValidatePlan(plan: Plan) returns (ok: bool)
    ensures ok <==> PlanGood(plan)
  {
    if |plan.steps| != REQUIRED_STEPS {
      return false;
    }
    var seen: set<Step> := {};
    for i := 0 to |plan.steps|
      invariant forall s :: s in seen <==> s in plan.steps[..i]
      invariant forall j | 0 <= j < i :: ValidStep(plan.steps[j])
      invariant NoRepeats(plan.steps[..i])
    {
      if !ValidStep(plan.steps[i]) || plan.steps[i] in seen {
        return false;
      }
      seen := seen + {plan.steps[i]};
      assert plan.steps[..i + 1] == plan.steps[..i] + [plan.steps[i]];
    }
    assert plan.steps[..|plan.steps|] == plan.steps;
    return true;
  }

  method ValidateIDs(plan: Plan) returns (ok: bool)
    ensures ok <==> IDsGood(plan)
  {
    hide DNSLabel, FaultID;
    for i := 0 to |plan.steps|
      invariant forall j: nat | j < i :: DNSLabel(FaultID(plan.id, j, plan.steps[j]))
    {
      var isLabel := IsDNSLabel(FaultID(plan.id, i, plan.steps[i]));
      if !isLabel {
        return false;
      }
    }
    return true;
  }

  method ValidateExecution(e: Execution) returns (ok: bool)
    ensures ok <==> Accepted(e)
  {
    hide RunID, DNSLabel, PlanGood, IDsGood, Reverses;
    if !RunID(e.runID) || |e.plans| != REQUIRED_PLANS {
      return false;
    }
    var planIDs: set<string> := {};
    for i := 0 to |e.plans|
      invariant forall id :: id in planIDs <==> exists j | 0 <= j < i :: id == e.plans[j].id
      invariant forall j | 0 <= j < i :: DNSLabel(e.plans[j].id) && PlanGood(e.plans[j]) && IDsGood(e.plans[j])
      invariant i == 2 ==> e.plans[0].id != e.plans[1].id
    {
      var isLabel := IsDNSLabel(e.plans[i].id);
      if !isLabel {
        return false;
      }
      if e.plans[i].id in planIDs {
        assert i == 1;
        return false;
      }
      planIDs := planIDs + {e.plans[i].id};
      var good := ValidatePlan(e.plans[i]);
      if !good {
        return false;
      }
      var labels := ValidateIDs(e.plans[i]);
      if !labels {
        return false;
      }
    }
    ok := IsReverseOrder(e.plans[0].steps, e.plans[1].steps);
  }

  // ---- the faults of an execution -----------------------------------------------------------------------

  function PlanFaults(plan: Plan): seq<Fault> {
    seq(|plan.steps|, i requires 0 <= i < |plan.steps| => Fault(FaultID(plan.id, i, plan.steps[i]), plan.steps[i]))
  }

  method Faults(e: Execution) returns (r: Result<seq<Fault>>)
    ensures r.Ok? <==> Accepted(e)
    ensures r.Ok? ==> r.value == PlanFaults(e.plans[0]) + PlanFaults(e.plans[1])
  {
    hide RunID, DNSLabel, PlanGood, IDsGood, Reverses, FaultID;
    var accepted := ValidateExecution(e);
    if !accepted {
      return Err("invalid execution");
    }
    var faults: seq<Fault> := [];
    for i := 0 to |e.plans|
      invariant i == 0 ==> faults == []
      invariant i == 1 ==> faults == PlanFaults(e.plans[0])
      invariant i == 2 ==> faults == PlanFaults(e.plans[0]) + PlanFaults(e.plans[1])
    {
      var before, plan := faults, e.plans[i];
      for j := 0 to |plan.steps|
        invariant faults == before + PlanFaults(plan)[..j]
      {
        faults := faults + [Fault(FaultID(plan.id, j, plan.steps[j]), plan.steps[j])];
      }
    }
    return Ok(faults);
  }

  const ALL_STEPS := [
    Step("dc-a", "gateway-in", "active"), Step("dc-a", "gateway-in", "standby"),
    Step("dc-a", "gateway-out", "active"), Step("dc-a", "gateway-out", "standby"),
    Step("dc-b", "gateway-in", "active"), Step("dc-b", "gateway-in", "standby"),
    Step("dc-b", "gateway-out", "active"), Step("dc-b", "gateway-out", "standby")]

  lemma {:induction false} EightSteps(s: Step)
    ensures ValidStep(s) <==> s in ALL_STEPS
  {
    assert forall i | 0 <= i < 8 :: ValidStep(ALL_STEPS[i]);
    if ValidStep(s) {
      var i :=
          (if s.dc == "dc-a" then 0 else 4) + (if s.component == "gateway-in" then 0 else 2) +
          (if s.role == "active" then 0 else 1);
      assert ALL_STEPS[i] == s;
    }
  }

  function Elements(steps: seq<Step>): set<Step> { set i | 0 <= i < |steps| :: steps[i] }

  lemma {:induction false} ElementsAtMost(steps: seq<Step>)
    ensures |Elements(steps)| <= |steps|
  {
    if steps != [] {
      var init := steps[..|steps| - 1];
      ElementsAtMost(init);
      assert Elements(steps) == Elements(init) + {steps[|steps| - 1]};
    }
  }

  lemma {:induction false} FullSubset(a: set<Step>, b: set<Step>)
    requires a <= b && |a| >= |b|
    ensures a == b
  {
    assert b == a + (b - a);
    assert |b| == |a| + |b - a|;
  }

  /** Eight distinct valid steps are all eight of them. */
  lemma {:induction false} PlanCovers(plan: Plan, s: Step)
    requires PlanGood(plan) && ValidStep(s)
    ensures exists i :: 0 <= i < REQUIRED_STEPS && plan.steps[i] == s
  {
    DistinctSize(plan.steps, Elements(plan.steps));
    ElementsAtMost(ALL_STEPS);
    forall t | t in Elements(plan.steps) ensures t in Elements(ALL_STEPS) {
      EightSteps(t);
      var i :| 0 <= i < |ALL_STEPS| && ALL_STEPS[i] == t;
    }
    FullSubset(Elements(plan.steps), Elements(ALL_STEPS));
    EightSteps(s);
    var i :| 0 <= i < |ALL_STEPS| && ALL_STEPS[i] == s;
    assert s in Elements(plan.steps);
  }

  ghost function AllFaults(e: Execution): seq<Fault>
    requires Accepted(e)
  {
    PlanFaults(e.plans[0]) + PlanFaults(e.plans[1])
  }

  /** The step stands at position i, at its mirror image, and nowhere else. */
  predicate OnlyMirrored(faults: seq<Fault>, s: Step, i: int) {
    forall j | 0 <= j < |faults| :: faults[j].step == s <==> j == i || j == |faults| - 1 - i
  }

  /** An accepted execution injects every combination exactly twice, at mirrored positions. */
  lemma {:induction false} EachStepTwice(e: Execution, s: Step)
    requires Accepted(e) && ValidStep(s)
    ensures |AllFaults(e)| == 16
    ensures exists i :: 0 <= i < 8 && OnlyMirrored(AllFaults(e), s, i)
  {
    hide ValidStep, DNSLabel, RunID, IDsGood;
    var first, second := e.plans[0].steps, e.plans[1].steps;
    PlanCovers(e.plans[0], s);
    var i :| 0 <= i < 8 && first[i] == s;
    forall j | 0 <= j < 16 ensures AllFaults(e)[j].step == s <==> j == i || j == 15 - i {
      if j < 8 {
        assert AllFaults(e)[j].step == first[j];
      } else {
        assert AllFaults(e)[j].step == second[j - 8];
        assert first[15 - j] == second[8 - (15 - j) - 1];
      }
    }
    assert OnlyMirrored(AllFaults(e), s, i);
  }

  lemma {:induction false} FaultAt(e: Execution, i: nat)
    requires Accepted(e) && i < 16
    ensures |AllFaults(e)| == 16
    ensures var plan, k := e.plans[i / 8], i % 8;
      k < |plan.steps| && ValidStep(plan.steps[k]) &&
          AllFaults(e)[i] == Fault(FaultID(plan.id, k, plan.steps[k]), plan.steps[k])
  {
    hide ValidStep, DNSLabel, RunID, IDsGood, Reverses, FaultID;
  }

  /** The sixteen fault IDs are pairwise distinct, whatever the plans are called. */
  lemma {:induction false} DistinctIDs(e: Execution, i: nat, j: nat)
    requires Accepted(e) && i < j < 16
    ensures |AllFaults(e)| == 16 && AllFaults(e)[i].id != AllFaults(e)[j].id
  {
    hide ValidStep, DNSLabel, RunID, IDsGood, PlanGood, Reverses, FaultID, AllFaults;
    FaultAt(e, i);
    FaultAt(e, j);
    var p, q := e.plans[i / 8], e.plans[j / 8];
    if AllFaults(e)[i].id == AllFaults(e)[j].id {
      FaultIDInjective(p.id, q.id, i % 8, j % 8, p.steps[i % 8], q.steps[j % 8]);
    }
  }

  // ---- the default execution ----------------------------------------------------------------------------

  method OrderedSteps(dcs: seq<string>, roles: seq<string>, components: seq<string>) returns (steps: seq<Step>)
    ensures steps == Ordered(dcs, roles, components)
  {
    hide OrderedRole, OrderedIn, Ordered;
    steps := [];
    OrderedNone(dcs, roles, components);
    for i := 0 to |dcs|
      invariant steps == Ordered(dcs[..i], roles, components)
    {
      var before := steps;
      OrderedNoneIn(dcs[i], roles, components);
      for j := 0 to |roles|
        invariant steps == before + OrderedIn(dcs[i], roles[..j], components)
      {
        var inner := steps;
        OrderedNoneRole(dcs[i], roles[j], components);
        for k := 0 to |components|
          invariant steps == inner + OrderedRole(dcs[i], roles[j], components[..k])
        {
          steps := steps + [Step(dcs[i], components[k], roles[j])];
          OrderedNextRole(dcs[i], roles[j], components, k);
        }
        OrderedNextIn(dcs[i], roles, components, j);
      }
      OrderedNext(dcs, roles, components, i);
    }
    assert dcs[..|dcs|] == dcs;
  }

  lemma {:induction false} OrderedNone(dcs: seq<string>, roles: seq<string>, components: seq<string>)
    ensures Ordered(dcs[..0], roles, components) == []
  {}

  lemma {:induction false} OrderedNoneIn(dc: string, roles: seq<string>, components: seq<string>)
    ensures OrderedIn(dc, roles[..0], components) == []
  {}

  lemma {:induction false} OrderedNoneRole(dc: string, role: string, components: seq<string>)
    ensures OrderedRole(dc, role, components[..0]) == []
  {}

  lemma {:induction false} OrderedNextRole(dc: string, role: string, components: seq<string>, k: nat)
    requires k < |components|
    ensures OrderedRole(dc, role, components[..k + 1]) ==
        OrderedRole(dc, role, components[..k]) + [Step(dc, components[k], role)]
  {
    assert components[..k + 1][..k] == components[..k];
  }

  lemma {:induction false} OrderedNextIn(dc: string, roles: seq<string>, components: seq<string>, j: nat)
    requires j < |roles|
    ensures components[..|components|] == components && roles[..|roles|] == roles
    ensures OrderedIn(dc, roles[..j + 1], components) ==
        OrderedIn(dc, roles[..j], components) + OrderedRole(dc, roles[j], components)
  {
    assert roles[..j + 1][..j] == roles[..j];
  }

  lemma {:induction false} OrderedNext(dcs: seq<string>, roles: seq<string>, components: seq<string>, i: nat)
    requires i < |dcs|
    ensures roles[..|roles|] == roles
    ensures Ordered(dcs[..i + 1], roles, components) ==
        Ordered(dcs[..i], roles, components) + OrderedIn(dcs[i], roles, components)
  {
    assert dcs[..i + 1][..i] == dcs[..i];
  }

  function OrderedRole(dc: string, role: string, components: seq<string>): seq<Step> {
    if components == [] then []
    else OrderedRole(dc, role, components[..|components| - 1]) + [Step(dc, components[|components| - 1], role)]
  }

  function OrderedIn(dc: string, roles: seq<string>, components: seq<string>): seq<Step> {
    if roles == [] then []
    else OrderedIn(dc, roles[..|roles| - 1], components) + OrderedRole(dc, roles[|roles| - 1], components)
  }

  function Ordered(dcs: seq<string>, roles: seq<string>, components: seq<string>): seq<Step> {
    if dcs == [] then []
    else Ordered(dcs[..|dcs| - 1], roles, components) + OrderedIn(dcs[|dcs| - 1], roles, components)
  }

  lemma {:induction false} OrderedTwo(a: string, b: string, r: string, q: string, c: string, d: string)
    ensures Ordered([a, b], [r, q], [c, d]) ==
      [Step(a, c, r), Step(a, d, r), Step(a, c, q), Step(a, d, q), Step(b, c, r), Step(b, d, r), Step(b, c, q),
          Step(b, d, q)]
  {
    forall x: string, y: string ensures OrderedRole(x, y, [c, d]) == [Step(x, c, y), Step(x, d, y)] {
      assert [c, d][..1] == [c] && [c][..0] == [];
      assert OrderedRole(x, y, [c]) == [Step(x, c, y)];
    }
    forall x: string ensures OrderedIn(x, [r, q], [c, d]) ==
        [Step(x, c, r), Step(x, d, r), Step(x, c, q), Step(x, d, q)] {
      assert [r, q][..1] == [r] && [r][..0] == [];
      assert OrderedIn(x, [r], [c, d]) == [Step(x, c, r), Step(x, d, r)];
    }
    assert [a, b][..1] == [a] && [a][..0] == [];
    assert Ordered([a], [r, q], [c, d]) == OrderedIn(a, [r, q], [c, d]);
  }

  lemma {:induction false} FirstPlanGood()
    ensures PlanGood(Plan("a-active", Ordered(["dc-a", "dc-b"], ["active", "standby"], ["gateway-in", "gateway-out"])))
  {
    hide Ordered;
    OrderedTwo("dc-a", "dc-b", "active", "standby", "gateway-in", "gateway-out");
  }

  lemma {:induction false} SecondPlanGood()
    ensures PlanGood(Plan("b-standby", Ordered(["dc-b", "dc-a"], ["standby", "active"], ["gateway-out", "gateway-in"])))
  {
    hide Ordered;
    OrderedTwo("dc-b", "dc-a", "standby", "active", "gateway-out", "gateway-in");
  }

  lemma {:induction false} PlansReverse()
    ensures Reverses(Ordered(["dc-a", "dc-b"], ["active", "standby"], ["gateway-in", "gateway-out"]),
                     Ordered(["dc-b", "dc-a"], ["standby", "active"], ["gateway-out", "gateway-in"]))
  {
    hide Ordered;
    OrderedTwo("dc-a", "dc-b", "active", "standby", "gateway-in", "gateway-out");
    OrderedTwo("dc-b", "dc-a", "standby", "active", "gateway-out", "gateway-in");
  }

  lemma {:induction false} PlanNames()
    ensures DNSLabel("a-active") && DNSLabel("b-standby") && "a-active" != "b-standby"
  {}

  /** The built-in execution is accepted for every run ID that is acceptable at all. */
  method DefaultExecution(runID: string) returns (e: Execution)
    ensures e.runID == runID
    ensures Accepted(e) <==> RunID(runID)
  {
    hide RunID, Ordered, IDsGood, PlanGood, Reverses, DNSLabel;
    var first := OrderedSteps(["dc-a", "dc-b"], ["active", "standby"], ["gateway-in", "gateway-out"]);
    var second := OrderedSteps(["dc-b", "dc-a"], ["standby", "active"], ["gateway-out", "gateway-in"]);
    e := Execution(runID, [Plan("a-active", first), Plan("b-standby", second)]);
    FirstPlanGood();
    SecondPlanGood();
    PlansReverse();
    PlanNames();
    ShortPlan(e.plans[0]);
    ShortPlan(e.plans[1]);
  }

  lemma {:induction false} ShortPlan(plan: Plan)
    requires DNSLabel(plan.id) && |plan.id| <= 35 && PlanGood(plan)
    ensures IDsGood(plan)
  {
    forall i: nat | i < |plan.steps| ensures DNSLabel(FaultID(plan.id, i, plan.steps[i])) {
      StepLabels(plan.steps[i], i);
      FaultIDLabel(plan.id, i, plan.steps[i]);
    }
  }
}
