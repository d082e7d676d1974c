/**
 * Which states of the failover can return to health, and how a fault and a restore proceed when nothing disturbs them.
 */
module FailoverProgress {
  import opened Failover

  // ---- a completed cycle ------------------------------------------------------------------------------

  const LEADING := Site(true, true, true, Primary, PrimaryData, Writable)
  const FOLLOWING := Site(true, true, true, Replica, StandbyData, Standby(false))
  const STOPPED := Site(false, false, true, Fenced, PrimaryData, Down)

  /** One data centre leads and the other follows it; the leader may have been fenced by a controller that gave up. */
  predicate Ready(w: World, dc: DC, role: Role) {
    && w.stage.Idle? && w.stopped == {} && w.primary == dc && w.saved == dc
    && w.At(dc) == LEADING.(role := role) && w.At(Other(dc)) == FOLLOWING
  }

  predicate Healthy(w: World, dc: DC) { Ready(w, dc, Primary) }

  predicate FailedOver(w: World, dc: DC) {
    && w.stage.Idle? && w.stopped == BothNodes(dc) && w.primary == Other(dc) && w.saved == Other(dc)
    && w.At(dc) == STOPPED && w.At(Other(dc)) == LEADING
  }

  function Steps(w: World, n: nat): World { if n == 0 then w else Advance(Steps(w, n - 1)) }

  lemma {:induction false} StepsTwo(w: World, n: nat)
    ensures Steps(w, 0) == w && Steps(w, n + 1) == Advance(Steps(w, n))
    ensures Steps(w, n + 2) == Advance(Advance(Steps(w, n)))
  {
    hide Advance;
  }

  /** The two sites, as seen from the data centre under fault or restore, and the controller's memory. */
  predicate View(w: World, dc: DC, stage: Stage, site: Site, other: Site, stopped: set<Node>, primary: DC) {
    w.dc == dc && w.stage == stage && w.At(dc) == site && w.At(Other(dc)) == other && w.stopped == stopped &&
        w.primary == primary
  }

  lemma {:induction false} FaultSees(w: World, dc: DC, role: Role)
    requires View(w, dc, SeePrimary, LEADING.(role := role), FOLLOWING, {}, dc)
    ensures View(Advance(Advance(w)), dc, WriteFence, LEADING.(role := role), FOLLOWING, {}, dc)
  {}

  lemma {:induction false} FaultFences(w: World, dc: DC, role: Role)
    requires View(w, dc, WriteFence, LEADING.(role := role), FOLLOWING, {}, dc)
    ensures View(Advance(Advance(w)), dc, StopDmz, LEADING.(role := Fenced, internal := false, server := Down),
        FOLLOWING, {Node(dc, Internal)}, dc)
  {}

  lemma {:induction false} FaultStops(w: World, dc: DC)
    requires View(w, dc, StopDmz, LEADING.(role := Fenced, internal := false, server := Down), FOLLOWING,
        {Node(dc, Internal)}, dc)
    ensures View(Advance(Advance(w)), dc, ProveStandby, STOPPED, FOLLOWING, BothNodes(dc), dc)
  {}

  lemma {:induction false} FaultPromotes(w: World, dc: DC)
    requires View(w, dc, ProveStandby, STOPPED, FOLLOWING, BothNodes(dc), dc)
    ensures View(Advance(Advance(w)), dc, AwaitPromotion, STOPPED, FOLLOWING.(server := Standby(true)), BothNodes(dc),
        dc)
  {}

  lemma {:induction false} FaultPromoted(w: World, dc: DC)
    requires View(w, dc, AwaitPromotion, STOPPED, FOLLOWING.(server := Standby(true)), BothNodes(dc), dc)
    ensures View(Step(w, PromotionEnds(Other(dc))), dc, AwaitPromotion, STOPPED, LEADING.(role := Replica),
        BothNodes(dc), dc)
  {}

  lemma {:induction false} FaultLeads(w: World, dc: DC)
    requires View(w, dc, AwaitPromotion, STOPPED, LEADING.(role := Replica), BothNodes(dc), dc)
    ensures View(Advance(Advance(w)), dc, AdoptPeer, STOPPED, LEADING, BothNodes(dc), dc)
  {}

  lemma {:induction false} FaultSaves(w: World, dc: DC)
    requires View(w, dc, AdoptPeer, STOPPED, LEADING, BothNodes(dc), dc)
    ensures FailedOver(Advance(Advance(w)), dc)
  {}

  /** An undisturbed fault moves the primary and leaves the old one stopped behind its fence. */
  lemma {:induction false} FaultMoves(w: World, dc: DC, role: Role)
    requires Ready(w, dc, role)
    ensures FailedOver(Steps(Step(Steps(Step(w, BeginFault(dc)), 8), PromotionEnds(Other(dc))), 4), dc)
  {
    var v := Step(w, BeginFault(dc));
    assert View(v, dc, SeePrimary, LEADING.(role := role), FOLLOWING, {}, dc);
    hide Step, Advance, Steps, FailedOver, View;
    StepsTwo(v, 0);
    FaultSees(v, dc, role);
    StepsTwo(v, 2);
    FaultFences(Steps(v, 2), dc, role);
    StepsTwo(v, 4);
    FaultStops(Steps(v, 4), dc);
    StepsTwo(v, 6);
    FaultPromotes(Steps(v, 6), dc);
    var q := Step(Steps(v, 8), PromotionEnds(Other(dc)));
    FaultPromoted(Steps(v, 8), dc);
    StepsTwo(q, 0);
    FaultLeads(q, dc);
    StepsTwo(q, 2);
    FaultSaves(Steps(q, 2), dc);
  }

  lemma {:induction false} RestoreStarts(w: World, dc: DC)
    requires View(w, dc, StartInternal, STOPPED, LEADING, BothNodes(dc), Other(dc))
    ensures View(Advance(Advance(w)), dc, ProveFence, STOPPED.(internal := true, dmz := true), LEADING, BothNodes(dc),
        Other(dc))
  {}

  lemma {:induction false} RestoreDeletes(w: World, dc: DC)
    requires View(w, dc, ProveFence, STOPPED.(internal := true, dmz := true), LEADING, BothNodes(dc), Other(dc))
    ensures View(Advance(Advance(w)), dc, RemoveData, STOPPED.(internal := true, dmz := true, pod := false), LEADING,
        BothNodes(dc), Other(dc))
  {}

  lemma {:induction false} RestoreClears(w: World, dc: DC)
    requires View(w, dc, RemoveData, STOPPED.(internal := true, dmz := true, pod := false), LEADING, BothNodes(dc),
        Other(dc))
    ensures View(Advance(Advance(w)), dc, ApplyPod, Fresh(Replica).(pod := false), LEADING, BothNodes(dc), Other(dc))
  {}

  lemma {:induction false} RestoreApplies(w: World, dc: DC)
    requires View(w, dc, ApplyPod, Fresh(Replica).(pod := false), LEADING, BothNodes(dc), Other(dc))
    ensures View(Advance(w), dc, AwaitRebuilt, Fresh(Replica), LEADING, BothNodes(dc), Other(dc))
  {}

  lemma {:induction false} RestoreCopies(w: World, dc: DC)
    requires View(w, dc, AwaitRebuilt, Fresh(Replica), LEADING, BothNodes(dc), Other(dc))
    ensures View(Step(Step(w, ReadsRole(dc)), ServerStarts(dc)), dc, AwaitRebuilt, FOLLOWING, LEADING, BothNodes(dc),
        Other(dc))
  {}

  lemma {:induction false} RestoreSees(w: World, dc: DC)
    requires View(w, dc, AwaitRebuilt, FOLLOWING, LEADING, BothNodes(dc), Other(dc))
    ensures View(Advance(Advance(w)), dc, SeeStandbyAgain, FOLLOWING, LEADING, BothNodes(dc), Other(dc))
  {}

  lemma {:induction false} RestoreSaves(w: World, dc: DC)
    requires View(w, dc, SeeStandbyAgain, FOLLOWING, LEADING, BothNodes(dc), Other(dc))
    ensures Healthy(Advance(Advance(w)), Other(dc))
  {}

  /** An undisturbed restore rebuilds the old primary as the standby of the new one: the roles have swapped. */
  lemma {:induction false} RestoreRebuilds(w: World, dc: DC)
    requires FailedOver(w, dc)
    ensures Healthy(Steps(Step(Step(Steps(Step(w, BeginRestore(dc)), 7), ReadsRole(dc)), ServerStarts(dc)), 4),
        Other(dc))
  {
    var v := Step(w, BeginRestore(dc));
    assert View(v, dc, StartInternal, STOPPED, LEADING, BothNodes(dc), Other(dc));
    hide Step, Advance, Steps, Healthy, View;
    StepsTwo(v, 0);
    RestoreStarts(v, dc);
    StepsTwo(v, 2);
    RestoreDeletes(Steps(v, 2), dc);
    StepsTwo(v, 4);
    RestoreClears(Steps(v, 4), dc);
    StepsTwo(v, 6);
    RestoreApplies(Steps(v, 6), dc);
    RestoreCopies(Steps(v, 7), dc);
    var q := Step(Step(Steps(v, 7), ReadsRole(dc)), ServerStarts(dc));
    StepsTwo(q, 0);
    RestoreSees(q, dc);
    StepsTwo(q, 2);
    RestoreSaves(Steps(q, 2), dc);
  }

  // ---- schedules ----------------------------------------------------------------------------------------

  /** Some sequence of controller and environment steps leads from one state to the other. */
  ghost predicate Reaches(w: World, v: World) { exists actions :: Run(w, actions) == v }

  lemma {:induction false} ReachesSelf(w: World)
    ensures Reaches(w, w)
  {
    assert Run(w, []) == w;
  }

  lemma {:induction false} ReachesStep(w: World, v: World, action: Action)
    requires Reaches(w, v)
    ensures Reaches(w, Step(v, action))
  {
    hide Step;
    var actions :| Run(w, actions) == v;
    assert (actions + [action])[..|actions|] == actions;
    assert Run(w, actions + [action]) == Step(v, action);
  }

  lemma {:induction false} ReachesSteps(w: World, v: World, n: nat)
    requires Reaches(w, v)
    ensures Reaches(w, Steps(v, n))
  {
    hide Reaches, Advance;
    if n > 0 {
      ReachesSteps(w, v, n - 1);
      ReachesStep(w, Steps(v, n - 1), Proceed);
      assert Step(Steps(v, n - 1), Proceed) == Advance(Steps(v, n - 1));
    }
  }

  ghost predicate CanHeal(w: World) { exists v, dc :: Reaches(w, v) && Healthy(v, dc) }

  lemma {:induction false} HealsFromFailedOver(w: World, v: World, dc: DC)
    requires Reaches(w, v) && FailedOver(v, dc)
    ensures CanHeal(w)
  {
    hide Reaches, Healthy, FailedOver, Step, Steps;
    RestoreRebuilds(v, dc);
    ReachesStep(w, v, BeginRestore(dc));
    var a := Steps(Step(v, BeginRestore(dc)), 7);
    ReachesSteps(w, Step(v, BeginRestore(dc)), 7);
    ReachesStep(w, a, ReadsRole(dc));
    var b := Step(Step(a, ReadsRole(dc)), ServerStarts(dc));
    ReachesStep(w, Step(a, ReadsRole(dc)), ServerStarts(dc));
    ReachesSteps(w, b, 4);
    assert Reaches(w, Steps(b, 4)) && Healthy(Steps(b, 4), Other(dc));
  }

  lemma {:induction false} HealsFromReady(w: World, v: World, dc: DC, role: Role)
    requires Reaches(w, v) && Ready(v, dc, role)
    ensures CanHeal(w)
  {
    hide Reaches, Ready, FailedOver, Step, Steps;
    FaultMoves(v, dc, role);
    ReachesStep(w, v, BeginFault(dc));
    var a := Steps(Step(v, BeginFault(dc)), 8);
    ReachesSteps(w, Step(v, BeginFault(dc)), 8);
    ReachesStep(w, a, PromotionEnds(Other(dc)));
    ReachesSteps(w, Step(a, PromotionEnds(Other(dc))), 4);
    HealsFromFailedOver(w, Steps(Step(a, PromotionEnds(Other(dc))), 4), dc);
  }
}
