/**
 * When the failover can return to health: exactly while no fence and no missing pod has outlived the controller's
 * memory of it.
 */
module FailoverHealing {
  import opened Failover
  import opened FailoverProgress

  // ---- states that are lost -------------------------------------------------------------------------------

  /** Nothing but a rejoin could ever start a server here. */
  predicate NeverServes(site: Site) { site.server.Down? && (site.role.Fenced? || !site.pod) }

  /** No controller remembers the site, and none can get past looking for its server. */
  predicate LostAt(w: World, dc: DC) {
    NeverServes(w.At(dc)) && w.stopped == {} &&
        (w.stage.Idle? || w.stage.SeePrimary? || (w.stage.SeeStandby? && w.dc == Other(dc)))
  }

  predicate Lost(w: World) { LostAt(w, A) || LostAt(w, B) }

  lemma {:induction false} LostAdvance(w: World, dc: DC)
    requires LostAt(w, dc)
    ensures LostAt(Advance(w), dc)
  {}

  lemma {:induction false} LostStep(w: World, action: Action, dc: DC)
    requires LostAt(w, dc)
    ensures LostAt(Step(w, action), dc)
  {
    hide Advance;
    if action.Proceed? { LostAdvance(w, dc); }
  }

  lemma {:induction false} LostRun(w: World, actions: seq<Action>, dc: DC)
    requires LostAt(w, dc)
    ensures LostAt(Run(w, actions), dc)
    decreases |actions|
  {
    hide LostAt, Step;
    if actions != [] {
      LostRun(w, actions[..|actions| - 1], dc);
      LostStep(Run(w, actions[..|actions| - 1]), actions[|actions| - 1], dc);
    }
  }

  /** A lost state never becomes healthy again. */
  lemma {:induction false} LostForGood(w: World)
    requires Lost(w)
    ensures !CanHeal(w)
  {
    var lost := if LostAt(w, A) then A else B;
    forall v, dc | Reaches(w, v) ensures !Healthy(v, dc) {
      var actions :| Run(w, actions) == v;
      LostRun(w, actions, lost);
    }
  }

  /** A controller that gives up once it has stopped the fenced primary loses it. */
  lemma {:induction false} QuitLoses(w: World, dc: DC, role: Role, saves: bool)
    requires Ready(w, dc, role)
    ensures var v := Step(Steps(Step(w, BeginFault(dc)), 4), Quit(saves)); Lost(v) && !CanHeal(v)
  {
    hide CanHeal, Advance;
    var v := Step(w, BeginFault(dc));
    assert View(v, dc, SeePrimary, LEADING.(role := role), FOLLOWING, {}, dc);
    StepsTwo(v, 0);
    FaultSees(v, dc, role);
    StepsTwo(v, 2);
    FaultFences(Steps(v, 2), dc, role);
    assert LostAt(Step(Steps(v, 4), Quit(saves)), dc);
    LostForGood(Step(Steps(v, 4), Quit(saves)));
  }

  // ---- states that are alive ------------------------------------------------------------------------------

  /** The site that has the primary role, possibly behind a fence. */
  predicate Leads(site: Site) {
    && site.pod && !site.role.Replica? && !site.data.StandbyData?
    && (site.data.Empty? ==> site.role.Primary? && (site.server.Down? || site.server == Starting(Primary)))
  }

  /** The site that replicates, or will once its server starts. */
  predicate Follows(site: Site) {
    && site.pod && site.role.Replica? && !site.data.PrimaryData?
    && (site.server.Standby? ==> !site.server.promoting) && (site.server.Starting? ==> site.server.role.Replica?)
  }

  /** The old primary, stopped behind its fence. */
  predicate Fallen(site: Site) { site.pod && FencedDown(site) && site.data.PrimaryData? }

  /** The promoted site once its role is written. */
  predicate Rules(site: Site) { site.pod && site.role.Primary? && site.data.PrimaryData? }

  /** Where a transition stands, as far as the two sites are concerned. */
  datatype Kind = Leading | Watched | Falling | Rising | Raised | Ruling | Emptying | Emptied | Rejoining

  function KindOf(w: World): Kind {
    match w.stage
    case Idle => if w.stopped == {} then Leading else Ruling
    case SeePrimary => Leading
    case SeeStandby | WriteFence | StopInternal => Watched
    case StopDmz | ProveStopped | ProveStandby | Promote => Falling
    case AwaitPromotion => Rising
    case WritePrimary => Raised
    case AdoptPeer | SavePromoted | StartInternal | StartDmz | ProveFence | DeletePod => Ruling
    case RemoveData | WriteReplica => Emptying
    case ApplyPod => Emptied
    case _ => Rejoining
  }

  /** The site of the old primary and the other one. */
  predicate Pair(kind: Kind, site: Site, other: Site) {
    match kind
    case Leading => Leads(site) && Follows(other)
    case Watched => Leads(site) && site.data.PrimaryData? && Follows(other)
    case Falling => Fallen(site) && Follows(other)
    case Rising => Fallen(site) && other.pod && other.role.Replica? && !other.data.Empty?
    case Raised => Fallen(site) && other.pod && other.role.Replica? && other.data.PrimaryData?
    case Ruling => Fallen(site) && Rules(other)
    case Emptying => FencedDown(site) && !site.pod && Rules(other)
    case Emptied => site.role.Replica? && site.data.Empty? && !site.pod && Rules(other)
    case Rejoining => Follows(site) && Rules(other)
  }

  /** The data centre under fault or restore; when idle, the one that would be faulted or restored next. */
  function Focus(w: World): DC {
    if !w.stage.Idle? then w.dc else if w.stopped == {} then w.primary else Other(w.primary)
  }

  predicate Memory(w: World) {
    if w.stage.Idle? then w.primary == w.saved
    else if Restoring(w.stage) then w.primary == w.saved == Other(w.dc)
    else if w.stage.SavePromoted? then w.primary == Other(w.dc)
    else w.primary == w.saved == w.dc
  }

  predicate Alive(w: World) { Memory(w) && Pair(KindOf(w), w.At(Focus(w)), w.At(Other(Focus(w)))) }

  /** What machines, servers and promotions can make of one site. */
  function Environs(site: Site, other: Site, action: Action): Site
    requires Environment(action)
  {
    match action
    case MachineStops(_, zone) => SetMachine(site, zone, false)
    case MachineStarts(_, zone) => SetMachine(site, zone, true)
    case ServerExits(_) => site.(server := Down)
    case ReadsRole(_) => ReadRole(site)
    case ServerStarts(_) => Start(site, other)
    case PromotionEnds(_) => EndPromotion(site)
  }

  lemma {:induction false} EnvironsKeep(site: Site, other: Site, action: Action)
    requires Environment(action) && SiteGood(site)
    ensures var next := Environs(site, other, action);
      && (Leads(site) ==> Leads(next)) && (Follows(site) ==> Follows(next)) && (Fallen(site) ==> Fallen(next)) &&
           (Rules(site) ==> Rules(next))
      && (FencedDown(site) ==> FencedDown(next)) && next.role == site.role && next.pod == site.pod
      && (site.data.PrimaryData? ==> next.data.PrimaryData?) && (!site.data.Empty? ==> !next.data.Empty?)
      && (!site.pod ==> next.data == site.data)
  {}

  lemma {:induction false} PairEnvirons(kind: Kind, site: Site, other: Site, action: Action)
    requires Environment(action) && SiteGood(site) && SiteGood(other) && Pair(kind, site, other)
    ensures Pair(kind, Environs(site, other, action), other) && Pair(kind, site, Environs(other, site, action))
  {
    hide Environs, Leads, Follows, Fallen, Rules, FencedDown, SiteGood;
    EnvironsKeep(site, other, action);
    EnvironsKeep(other, site, action);
  }

  lemma {:induction false} AliveEnvironment(w: World, action: Action)
    requires Inv(w) && Alive(w) && Environment(action)
    ensures Alive(Step(w, action))
  {
    hide SetMachine, ReadRole, Start, EndPromotion, Pair, Potential, SiteGood, StageGood, StoppedGood;
    var f := Focus(w);
    PairEnvirons(KindOf(w), w.At(f), w.At(Other(f)), action);
    assert Other(Other(f)) == f;
  }

  lemma {:induction false} AliveWatch(w: World)
    requires Inv(w) && Alive(w)
    requires (w.stage.Idle? || w.stage.SeePrimary? || w.stage.SeeStandby? || w.stage.WriteFence? ||
        w.stage.StopInternal?)
    ensures Alive(Advance(w))
  {
    hide Potential;
  }

  lemma {:induction false} AliveFall(w: World)
    requires Inv(w) && Alive(w)
    requires (w.stage.StopDmz? || w.stage.ProveStopped? || w.stage.ProveStandby? || w.stage.Promote?)
    ensures Alive(Advance(w))
  {
    hide Potential;
  }

  lemma {:induction false} AliveRise(w: World)
    requires Inv(w) && Alive(w)
    requires (w.stage.AwaitPromotion? || w.stage.WritePrimary? || w.stage.AdoptPeer? || w.stage.SavePromoted?)
    ensures Alive(Advance(w))
  {
    hide Potential;
    assert Other(Other(w.dc)) == w.dc;
  }

  lemma {:induction false} AliveFault(w: World)
    requires Inv(w) && Alive(w) && !Restoring(w.stage)
    ensures Alive(Advance(w))
  {
    hide Inv, Alive, Advance;
    match w.stage
    case Idle | SeePrimary | SeeStandby | WriteFence | StopInternal => AliveWatch(w);
    case StopDmz | ProveStopped | ProveStandby | Promote => AliveFall(w);
    case AwaitPromotion | WritePrimary | AdoptPeer | SavePromoted => AliveRise(w);
    case _ =>
  }

  lemma {:induction false} AliveRestart(w: World)
    requires Inv(w) && Alive(w) && (w.stage.StartInternal? || w.stage.StartDmz? || w.stage.ProveFence?)
    ensures Alive(Advance(w))
  {
    hide Potential;
  }

  lemma {:induction false} AliveRebuild(w: World)
    requires Inv(w) && Alive(w)
    requires (w.stage.DeletePod? || w.stage.RemoveData? || w.stage.WriteReplica? || w.stage.ApplyPod?)
    ensures Alive(Advance(w))
  {
    hide Potential;
  }

  lemma {:induction false} AliveRejoin(w: World)
    requires Inv(w) && Alive(w) && KindOf(w).Rejoining?
    ensures Alive(Advance(w))
  {
    hide Potential;
    assert Other(Other(w.dc)) == w.dc;
  }

  lemma {:induction false} AliveRestore(w: World)
    requires Inv(w) && Alive(w) && Restoring(w.stage)
    ensures Alive(Advance(w))
  {
    hide Inv, Alive, Advance;
    match w.stage
    case StartInternal | StartDmz | ProveFence => AliveRestart(w);
    case DeletePod | RemoveData | WriteReplica | ApplyPod => AliveRebuild(w);
    case _ => AliveRejoin(w);
  }

  lemma {:induction false} AliveBegin(w: World, action: Action)
    requires Inv(w) && Alive(w) && (action.BeginFault? || action.BeginRestore?)
    ensures Alive(Step(w, action))
  {
    hide Potential, SiteGood, StageGood, Leads, Follows, Fallen, Rules;
    assert Other(Other(w.primary)) == w.primary;
  }

  /** A controller that gives up leaves the sites alive or lost. */
  lemma {:induction false} QuitOutcome(w: World, saves: bool)
    requires Inv(w) && Alive(w)
    ensures Alive(QuitStep(w, saves)) || Lost(QuitStep(w, saves))
  {
    hide Potential;
    assert Other(Other(w.dc)) == w.dc && Other(Other(w.primary)) == w.primary;
  }

  lemma {:induction false} EitherStep(w: World, action: Action)
    requires Inv(w) && (Alive(w) || Lost(w))
    ensures Alive(Step(w, action)) || Lost(Step(w, action))
  {
    hide Inv, Alive, Advance, LostAt, QuitStep;
    if LostAt(w, A) { LostStep(w, action, A); }
    else if LostAt(w, B) { LostStep(w, action, B); }
    else if Environment(action) { AliveEnvironment(w, action); }
    else if action.Proceed? { if Restoring(w.stage) { AliveRestore(w); } else { AliveFault(w); } }
    else if action.Quit? { QuitOutcome(w, action.saves); }
    else { AliveBegin(w, action); }
  }

  lemma {:induction false} EitherRun(actions: seq<Action>)
    ensures Inv(Run(Initial(), actions)) && (Alive(Run(Initial(), actions)) || Lost(Run(Initial(), actions)))
    decreases |actions|
  {
    hide Inv, Lost, Step;
    RunInv(actions);
    if actions != [] {
      hide Alive;
      EitherRun(actions[..|actions| - 1]);
      EitherStep(Run(Initial(), actions[..|actions| - 1]), actions[|actions| - 1]);
    }
  }

  // ---- every idle state that is alive can heal ------------------------------------------------------------

  /** Both machines of a data centre are started, its server is stopped and the start script runs once. */
  function Restarted(w: World, dc: DC): World {
    var up := Step(Step(Step(w, MachineStarts(dc, Internal)), MachineStarts(dc, Dmz)), ServerExits(dc));
    Step(Step(up, ReadsRole(dc)), ServerStarts(dc))
  }

  lemma {:induction false} ReachesRestarted(w: World, v: World, dc: DC)
    requires Reaches(w, v)
    ensures Reaches(w, Restarted(v, dc))
  {
    hide Reaches, Step;
    var a := Step(v, MachineStarts(dc, Internal));
    ReachesStep(w, v, MachineStarts(dc, Internal));
    var b := Step(a, MachineStarts(dc, Dmz));
    ReachesStep(w, a, MachineStarts(dc, Dmz));
    var c := Step(b, ServerExits(dc));
    ReachesStep(w, b, ServerExits(dc));
    ReachesStep(w, c, ReadsRole(dc));
    ReachesStep(w, Step(c, ReadsRole(dc)), ServerStarts(dc));
  }

  /** What a restart makes of a site on its own. */
  function RestartedSite(site: Site, other: Site): Site {
    Start(ReadRole(SetMachine(SetMachine(site, Internal, true), Dmz, true).(server := Down)), other)
  }

  lemma {:induction false} RestartedAt(w: World, dc: DC)
    ensures Restarted(w, dc) == w.With(dc, RestartedSite(w.At(dc), w.At(Other(dc))))
  {
    hide SetMachine, ReadRole, Start;
  }

  lemma {:induction false} RestartedLeader(site: Site, other: Site)
    requires site.pod && site.role.Primary? && !site.data.StandbyData?
    ensures RestartedSite(site, other) == LEADING
  {}

  lemma {:induction false} RestartedFollower(site: Site, other: Site)
    requires Follows(site) && other.server.Writable?
    ensures RestartedSite(site, other) == FOLLOWING
  {}

  /** An unfenced leader and its follower are simply restarted. */
  lemma {:induction false} HealsUnfenced(w: World)
    requires w.stage.Idle? && w.stopped == {} && Alive(w) && w.At(w.primary).role.Primary?
    ensures CanHeal(w)
  {
    hide Reaches, RestartedSite, Restarted;
    var dc := w.primary;
    ReachesSelf(w);
    ReachesRestarted(w, w, dc);
    RestartedAt(w, dc);
    RestartedLeader(w.At(dc), w.At(Other(dc)));
    var v := Restarted(w, dc);
    ReachesRestarted(w, v, Other(dc));
    RestartedAt(v, Other(dc));
    assert Other(Other(dc)) == dc;
    RestartedFollower(v.At(Other(dc)), v.At(dc));
    assert Healthy(Restarted(v, Other(dc)), dc);
  }

  /**
   * A leader that is fenced but still serves is made to finish starting, its follower is restarted, and it is faulted
   * again.
   */
  lemma {:induction false} HealsFenced(w: World)
    requires Inv(w) && w.stage.Idle? && w.stopped == {} && Alive(w)
    requires w.At(w.primary).role.Fenced? && !w.At(w.primary).server.Down?
    ensures CanHeal(w)
  {
    hide Reaches, Restarted, Potential, RestartedSite, StageGood, StoppedGood;
    var dc := w.primary;
    ReachesSelf(w);
    var a := Step(w, MachineStarts(dc, Dmz));
    ReachesStep(w, w, MachineStarts(dc, Dmz));
    var b := Step(a, ServerStarts(dc));
    ReachesStep(w, a, ServerStarts(dc));
    assert b.At(dc) == LEADING.(role := Fenced);
    ReachesRestarted(w, b, Other(dc));
    RestartedAt(b, Other(dc));
    assert Other(Other(dc)) == dc;
    RestartedFollower(b.At(Other(dc)), b.At(dc));
    assert Ready(Restarted(b, Other(dc)), dc, Fenced);
    HealsFromReady(w, Restarted(b, Other(dc)), dc, Fenced);
  }

  /** A remembered stop is restored. */
  lemma {:induction false} HealsStopped(w: World)
    requires Inv(w) && w.stage.Idle? && w.stopped != {} && Alive(w)
    ensures CanHeal(w)
  {
    hide Reaches, Restarted, Potential, RestartedSite;
    var dc := Other(w.primary);
    assert Other(dc) == w.primary;
    ReachesSelf(w);
    var a := Step(w, MachineStops(dc, Internal));
    ReachesStep(w, w, MachineStops(dc, Internal));
    var b := Step(a, MachineStops(dc, Dmz));
    ReachesStep(w, a, MachineStops(dc, Dmz));
    assert b.At(dc) == STOPPED;
    ReachesRestarted(w, b, Other(dc));
    RestartedAt(b, Other(dc));
    RestartedLeader(b.At(Other(dc)), b.At(dc));
    assert FailedOver(Restarted(b, Other(dc)), dc);
    HealsFromFailedOver(w, Restarted(b, Other(dc)), dc);
  }

  predicate Recoverable(w: World) {
    w.a.pod && w.b.pod && (w.stopped != {} || (!FencedDown(w.a) && !FencedDown(w.b)))
  }

  /**
   * A reachable idle state can return to health if and only if both pods exist and no fenced site without a server was
   * forgotten by its controller.
   */
  lemma {:induction false} HealsExactly(actions: seq<Action>)
    requires Run(Initial(), actions).stage.Idle?
    ensures CanHeal(Run(Initial(), actions)) <==> Recoverable(Run(Initial(), actions))
  {
    hide CanHeal, Run;
    var w := Run(Initial(), actions);
    EitherRun(actions);
    if !Recoverable(w) {
      NotRecoverable(w);
      LostForGood(w);
    } else {
      StillAlive(w);
      if w.stopped != {} { HealsStopped(w); }
      else if w.At(w.primary).role.Fenced? { HealsFenced(w); }
      else { HealsUnfenced(w); }
    }
  }

  lemma {:induction false} NotRecoverable(w: World)
    requires Inv(w) && w.stage.Idle? && (Alive(w) || Lost(w)) && !Recoverable(w)
    ensures Lost(w)
  {
    hide Potential;
  }

  lemma {:induction false} StillAlive(w: World)
    requires Inv(w) && w.stage.Idle? && (Alive(w) || Lost(w)) && Recoverable(w)
    ensures Alive(w)
  {
    hide Potential, Alive;
  }
}
