/**
 * The two data-centre PostgreSQL failover: a controller that fences and stops the primary, promotes the
 * standby and later rebuilds the old primary as a standby, one effect per step, beside an environment that
 * stops and starts machines, server processes and promotions whenever it likes.
 */
module Failover {
  datatype DC = A | B

  function Other(dc: DC): DC { if dc.A? then B else A }

  datatype Zone = Internal | Dmz

  datatype Node = Node(dc: DC, zone: Zone)

  /** The persistent role file that the start script obeys. */
  datatype Role = Fenced | Primary | Replica

  /** What the data directory would run as. */
  datatype Data = Empty | PrimaryData | StandbyData

  /** Starting holds the role the start script read before it left its waiting loop. */
  datatype Server = Down | Starting(role: Role) | Standby(promoting: bool) | Writable

  datatype Site = Site(internal: bool, dmz: bool, pod: bool, role: Role, data: Data, server: Server)

  datatype Stage =
    | Idle
    // fault(dc)
    | SeePrimary | SeeStandby | WriteFence | StopInternal | StopDmz | ProveStopped
    | ProveStandby | Promote | AwaitPromotion | WritePrimary | AdoptPeer | SavePromoted
    // restore(dc) and rejoin(dc)
    | StartInternal | StartDmz | ProveFence | DeletePod | RemoveData | WriteReplica
    | ApplyPod | AwaitRebuilt | SeePrimaryAgain | SeeStandbyAgain | SaveRecovered

  datatype World = World(a: Site, b: Site, primary: DC, saved: DC, stopped: set<Node>, dc: DC, stage: Stage)
  {
    function At(which: DC): Site { if which.A? then a else b }

    function With(which: DC, site: Site): (w: World)
      ensures w.At(which) == site && w.At(Other(which)) == At(Other(which))
      ensures w.primary == primary && w.saved == saved && w.stopped == stopped && w.dc == dc && w.stage == stage
    {
      if which.A? then this.(a := site) else this.(b := site)
    }

    function To(next: Stage): World { this.(stage := next) }
  }

  datatype Action =
    | MachineStops(dc: DC, zone: Zone)
    | MachineStarts(dc: DC, zone: Zone)
    | ServerExits(dc: DC)
    | ReadsRole(dc: DC)
    | ServerStarts(dc: DC)
    | PromotionEnds(dc: DC)
    | Quit(saves: bool)
    | BeginFault(dc: DC)
    | BeginRestore(dc: DC)
    | Proceed

  function BothNodes(dc: DC): set<Node> { {Node(dc, Internal), Node(dc, Dmz)} }

  function Fresh(role: Role): Site { Site(true, true, true, role, Empty, Down) }

  /** The fixture before its first database start: empty directories, dc-a written as the primary. */
  function Initial(): World { World(Fresh(Primary), Fresh(Replica), A, A, {}, A, Idle) }

  // ---- machines and servers -------------------------------------------------------------------------

  function SetMachine(site: Site, zone: Zone, up: bool): Site {
    match zone
    case Dmz => site.(dmz := up)
    case Internal => if up then site.(internal := true) else site.(internal := false, server := Down)
  }

  /** One turn of the start script's loop: it leaves only when the role file is not fenced. */
  function ReadRole(site: Site): Site {
    if site.internal && site.pod && site.server.Down? && !site.role.Fenced?
        then site.(server := Starting(site.role))
        else site
  }

  /** The rest of the start script. A replica without data copies it from the other site's server. */
  function Start(site: Site, other: Site): Site {
    if !site.server.Starting? then site
    else match site.data
    case PrimaryData => site.(server := Writable)
    case StandbyData => site.(server := Standby(false))
    case Empty =>
      if site.server.role.Primary? then site.(data := PrimaryData, server := Writable)
      else if other.server.Standby? || other.server.Writable? then site.(data := StandbyData, server := Standby(false))
      else site
  }

  function EndPromotion(site: Site): Site {
    if site.server.Standby? && site.server.promoting then site.(data := PrimaryData, server := Writable) else site
  }

  // ---- controller -----------------------------------------------------------------------------------

  /** The next effect of fault(dc); where its check fails the controller waits (or gives up, which is Quit). */
  function FaultStep(w: World): World {
    var dc, peer := w.dc, Other(w.dc);
    var site, other := w.At(dc), w.At(peer);
    match w.stage
    case SeePrimary => if site.server.Writable? then w.To(SeeStandby) else w
    case SeeStandby => if other.server.Standby? then w.To(WriteFence) else w
    case WriteFence => if site.internal && site.dmz then w.With(dc, site.(role := Fenced)).To(StopInternal) else w
    case StopInternal =>
        w.With(dc, SetMachine(site, Internal, false)).(stopped := w.stopped + {Node(dc, Internal)}).To(StopDmz)
    case StopDmz => w.With(dc, SetMachine(site, Dmz, false)).(stopped := w.stopped + {Node(dc, Dmz)}).To(ProveStopped)
    case ProveStopped => if !site.internal && !site.dmz then w.To(ProveStandby) else w
    case ProveStandby => if other.server.Standby? then w.To(Promote) else w
    case Promote =>
        if other.server.Standby? then w.With(peer, other.(server := Standby(true))).To(AwaitPromotion) else w
    case AwaitPromotion => if other.server.Writable? then w.To(WritePrimary) else w
    case WritePrimary => if other.internal then w.With(peer, other.(role := Primary)).To(AdoptPeer) else w
    case AdoptPeer => w.(primary := peer).To(SavePromoted)
    case SavePromoted => w.(saved := w.primary).To(Idle)
    case _ => w
  }

  /** The next effect of restore(dc) and of the rejoin(dc) it ends with. */
  function RestoreStep(w: World): World {
    var dc := w.dc;
    var site := w.At(dc);
    match w.stage
    case StartInternal => if !site.internal then w.With(dc, SetMachine(site, Internal, true)).To(StartDmz) else w
    case StartDmz => if !site.dmz then w.With(dc, SetMachine(site, Dmz, true)).To(ProveFence) else w
    case ProveFence =>
        if site.internal && site.pod && site.role.Fenced? && site.server.Down? then w.To(DeletePod) else w
    case DeletePod => if site.internal then w.With(dc, site.(pod := false, server := Down)).To(RemoveData) else w
    case RemoveData => if site.internal then w.With(dc, site.(data := Empty)).To(WriteReplica) else w
    case WriteReplica => if site.internal then w.With(dc, site.(role := Replica)).To(ApplyPod) else w
    case ApplyPod => if site.internal then w.With(dc, site.(pod := true)).To(AwaitRebuilt) else w
    case AwaitRebuilt => if site.server.Standby? then w.To(SeePrimaryAgain) else w
    case SeePrimaryAgain => if w.At(w.primary).server.Writable? then w.To(SeeStandbyAgain) else w
    case SeeStandbyAgain => if w.At(Other(w.primary)).server.Standby? then w.To(SaveRecovered) else w
    case SaveRecovered => w.(stopped := {}, saved := w.primary).To(Idle)
    case _ => w
  }

  predicate Restoring(stage: Stage) {
    || stage.StartInternal? || stage.StartDmz? || stage.ProveFence? || stage.DeletePod? || stage.RemoveData? ||
         stage.WriteReplica?
    || stage.ApplyPod? || stage.AwaitRebuilt? || stage.SeePrimaryAgain? || stage.SeeStandbyAgain? ||
         stage.SaveRecovered?
  }

  function Advance(w: World): World { if Restoring(w.stage) then RestoreStep(w) else FaultStep(w) }

  /** A controller that gives up (having saved its state, or not) is followed by one that loads the saved primary. */
  function QuitStep(w: World, saves: bool): World {
    var saved := if saves then w.primary else w.saved;
    w.(saved := saved, primary := saved, stopped := {}).To(Idle)
  }

  function Step(w: World, action: Action): World {
    match action
    case MachineStops(dc, zone) => w.With(dc, SetMachine(w.At(dc), zone, false))
    case MachineStarts(dc, zone) => w.With(dc, SetMachine(w.At(dc), zone, true))
    case ServerExits(dc) => w.With(dc, w.At(dc).(server := Down))
    case ReadsRole(dc) => w.With(dc, ReadRole(w.At(dc)))
    case ServerStarts(dc) => w.With(dc, Start(w.At(dc), w.At(Other(dc))))
    case PromotionEnds(dc) => w.With(dc, EndPromotion(w.At(dc)))
    case Quit(saves) => QuitStep(w, saves)
    case BeginFault(dc) =>
        if w.stage.Idle? && dc == w.primary && w.stopped == {} then w.(dc := dc).To(SeePrimary) else w
    case BeginRestore(dc) =>
      if w.stage.Idle? && w.stopped == BothNodes(dc) && w.primary != dc then w.(dc := dc).To(StartInternal) else w
    case Proceed => Advance(w)
  }

  function Run(w: World, actions: seq<Action>): World
    decreases |actions|
  {
    if actions == [] then w else Step(Run(w, actions[..|actions| - 1]), actions[|actions| - 1])
  }

  // ---- the invariant --------------------------------------------------------------------------------

  /** What this site has could become a writable server without the controller touching it again. */
  predicate Potential(site: Site) {
    || site.server.Writable?
    || (site.server.Standby? && site.server.promoting)
    || ((site.server.Starting? || !site.role.Fenced?) && site.data.PrimaryData?)
    || (site.data.Empty? && (site.role.Primary? || site.server == Starting(Primary)))
  }

  predicate SiteGood(site: Site) {
    && (!site.server.Down? ==> site.internal && site.pod)
    && (site.server.Writable? ==> site.data.PrimaryData?)
    && (site.server.Standby? ==> site.data.StandbyData?)
    && (site.server.Starting? ==> !site.server.role.Fenced?)
    && (site.role.Fenced? ==> !site.data.StandbyData? && (site.data.Empty? ==> site.server.Down?))
  }

  /** The stages of a fault after the machine was stopped, and of a restore before the fence is lifted. */
  predicate Fencing(stage: Stage) {
    stage in {StopDmz, ProveStopped, ProveStandby, Promote, AwaitPromotion, WritePrimary, AdoptPeer, SavePromoted,
              StartInternal, StartDmz, ProveFence, DeletePod, RemoveData, WriteReplica}
  }

  predicate FencedDown(site: Site) { site.role.Fenced? && site.server.Down? }

  predicate StageGood(w: World) {
    var site, other := w.At(w.dc), w.At(Other(w.dc));
    && (Fencing(w.stage) ==> FencedDown(site))
    && (w.stage in {SeeStandby, WriteFence} ==> site.data.PrimaryData?)
    && (w.stage == StopInternal ==> site.role.Fenced?)
    && (w.stage in {Promote, AwaitPromotion, WritePrimary} ==> !other.role.Fenced?)
    && (w.stage in {RemoveData, WriteReplica, ApplyPod} ==> !site.pod)
    && (w.stage in {WriteReplica, ApplyPod} ==> site.data.Empty?)
    && (w.stage == ApplyPod ==> site.role.Replica?)
    && (w.stage in {WritePrimary, AdoptPeer, SavePromoted} || Restoring(w.stage) ==> other.data.PrimaryData?)
    && (w.stage == SavePromoted || Restoring(w.stage) ==> w.primary == Other(w.dc))
  }

  /** What the controller remembers having stopped, between a fault and its restore. */
  predicate StoppedGood(w: World) {
    && (w.stage in {SeePrimary, SeeStandby, WriteFence, StopInternal} ==> w.stopped == {})
    && (w.stage == StopDmz ==> w.stopped == {Node(w.dc, Internal)})
    && ((Fencing(w.stage) && w.stage != StopDmz) || Restoring(w.stage) ==> w.stopped == BothNodes(w.dc))
    && (w.stage.Idle? && w.stopped != {} ==>
          && w.stopped == BothNodes(Other(w.primary))
          && FencedDown(w.At(Other(w.primary))) && w.At(w.primary).data.PrimaryData?)
  }

  predicate Inv(w: World) {
    && SiteGood(w.a) && SiteGood(w.b)
    && !(Potential(w.a) && Potential(w.b))
    && StageGood(w) && StoppedGood(w)
  }

  lemma {:induction false} InitialInv()
    ensures Inv(Initial())
  {}

  /** A site whose change cannot make it a writer keeps the sites safe. */
  lemma {:induction false} SiteStep(w: World, which: DC, site: Site)
    requires Inv(w)
    requires SiteGood(site) && (Potential(site) ==> Potential(w.At(which)))
    requires FencedDown(w.At(which)) ==> FencedDown(site)
    requires w.At(which).role == site.role && (w.At(which).pod == site.pod)
    requires w.At(which).data.PrimaryData? ==> site.data.PrimaryData?
    requires w.At(which).data.Empty? && !w.At(which).pod ==> site.data.Empty?
    ensures Inv(w.With(which, site))
  {
    hide Potential, SiteGood;
  }

  lemma {:induction false} MachineInv(w: World, dc: DC, zone: Zone, up: bool)
    requires Inv(w)
    ensures Inv(w.With(dc, SetMachine(w.At(dc), zone, up)))
  {
    SiteStep(w, dc, SetMachine(w.At(dc), zone, up));
  }

  lemma {:induction false} ServerInv(w: World, dc: DC)
    requires Inv(w)
    ensures Inv(w.With(dc, w.At(dc).(server := Down)))
    ensures Inv(w.With(dc, ReadRole(w.At(dc))))
    ensures Inv(w.With(dc, Start(w.At(dc), w.At(Other(dc)))))
    ensures Inv(w.With(dc, EndPromotion(w.At(dc))))
  {
    SiteStep(w, dc, w.At(dc).(server := Down));
    SiteStep(w, dc, ReadRole(w.At(dc)));
    SiteStep(w, dc, Start(w.At(dc), w.At(Other(dc))));
    SiteStep(w, dc, EndPromotion(w.At(dc)));
  }

  predicate Early(stage: Stage) {
    stage in {Idle, SeePrimary, SeeStandby, WriteFence, StopInternal, StopDmz, ProveStopped}
  }

  lemma {:induction false} EarlyInv(w: World)
    requires Inv(w) && Early(w.stage)
    ensures Inv(Advance(w))
  {}

  lemma {:induction false} PromotionInv(w: World)
    requires Inv(w) && w.stage in {ProveStandby, Promote, AwaitPromotion}
    ensures Inv(Advance(w))
  {}

  lemma {:induction false} PromotedInv(w: World)
    requires Inv(w) && w.stage in {WritePrimary, AdoptPeer, SavePromoted}
    ensures Inv(Advance(w))
  {}

  predicate Rejoining(stage: Stage) {
    stage in {ApplyPod, AwaitRebuilt, SeePrimaryAgain, SeeStandbyAgain, SaveRecovered}
  }

  lemma {:induction false} RestartInv(w: World)
    requires Inv(w) && w.stage in {StartInternal, StartDmz, ProveFence}
    ensures Inv(Advance(w))
  {}

  lemma {:induction false} RebuildInv(w: World)
    requires Inv(w) && w.stage in {DeletePod, RemoveData, WriteReplica}
    ensures Inv(Advance(w))
  {}

  lemma {:induction false} RejoinInv(w: World)
    requires Inv(w) && Rejoining(w.stage)
    ensures Inv(Advance(w))
  {}

  lemma {:induction false} RestoreInv(w: World)
    requires Inv(w) && Restoring(w.stage)
    ensures Inv(Advance(w))
  {
    hide Inv, Advance;
    if Rejoining(w.stage) { RejoinInv(w); }
    else if w.stage in {DeletePod, RemoveData, WriteReplica} { RebuildInv(w); }
    else { RestartInv(w); }
  }

  lemma {:induction false} LateInv(w: World)
    requires Inv(w) && !Early(w.stage) && !Restoring(w.stage)
    ensures Inv(Advance(w))
  {
    hide Inv, Advance;
    match w.stage
    case ProveStandby | Promote | AwaitPromotion => PromotionInv(w);
    case WritePrimary | AdoptPeer | SavePromoted => PromotedInv(w);
    case _ =>
  }

  lemma {:induction false} ControllerInv(w: World, action: Action)
    requires Inv(w) && (action.Quit? || action.BeginFault? || action.BeginRestore?)
    ensures Inv(Step(w, action))
  {
    hide Potential, SiteGood;
  }

  lemma {:induction false} StepInv(w: World, action: Action)
    requires Inv(w)
    ensures Inv(Step(w, action))
  {
    hide Inv, Advance, SetMachine, ReadRole, Start, EndPromotion, Restoring, Early;
    match action
    case MachineStops(dc, zone) => MachineInv(w, dc, zone, false);
    case MachineStarts(dc, zone) => MachineInv(w, dc, zone, true);
    case ServerExits(dc) => ServerInv(w, dc);
    case ReadsRole(dc) => ServerInv(w, dc);
    case ServerStarts(dc) => ServerInv(w, dc);
    case PromotionEnds(dc) => ServerInv(w, dc);
    case Quit(_) => ControllerInv(w, action);
    case BeginFault(_) => ControllerInv(w, action);
    case BeginRestore(_) => ControllerInv(w, action);
    case Proceed =>
      if Early(w.stage) { EarlyInv(w); }
      else if Restoring(w.stage) { RestoreInv(w); }
      else { LateInv(w); }
  }

  lemma {:induction false} RunInv(actions: seq<Action>)
    ensures Inv(Run(Initial(), actions))
    decreases |actions|
  {
    if actions == [] {
      InitialInv();
    } else {
      RunInv(actions[..|actions| - 1]);
      StepInv(Run(Initial(), actions[..|actions| - 1]), actions[|actions| - 1]);
    }
  }

  /** In every reachable state at most one data centre is writable. */
  lemma {:induction false} OneWriter(actions: seq<Action>)
    ensures var w := Run(Initial(), actions); !(w.a.server.Writable? && w.b.server.Writable?)
  {
    RunInv(actions);
  }

  // ---- the fence and the data -----------------------------------------------------------------------

  /** The step that lifts the fence of a data centre. */
  predicate Lifts(w: World, action: Action, dc: DC) { action.Proceed? && w.stage == WriteReplica && w.dc == dc }

  /** A fenced data centre without a server stays so, whatever restarts, until its rejoin lifts the fence. */
  lemma {:induction false} FenceHolds(before: seq<Action>, dc: DC, action: Action)
    requires FencedDown(Run(Initial(), before).At(dc)) && !Lifts(Run(Initial(), before), action, dc)
    ensures FencedDown(Run(Initial(), before + [action]).At(dc))
  {
    RunInv(before);
    assert (before + [action])[..|before|] == before;
    FenceStep(Run(Initial(), before), dc, action);
  }

  /** No machine start, role read, server start or promotion brings up a server behind the fence. */
  lemma {:induction false} FencedSite(site: Site, zone: Zone, up: bool, other: Site)
    requires FencedDown(site)
    ensures FencedDown(SetMachine(site, zone, up)) && FencedDown(ReadRole(site))
    ensures FencedDown(Start(site, other)) && FencedDown(EndPromotion(site))
  {}

  lemma {:induction false} FenceAdvance(w: World, dc: DC)
    requires StageGood(w) && FencedDown(w.At(dc)) && !Lifts(w, Proceed, dc)
    ensures FencedDown(Advance(w).At(dc))
  {
    hide SetMachine;
    FencedSite(w.At(dc), Internal, true, w.At(dc));
    FencedSite(w.At(dc), Internal, false, w.At(dc));
    FencedSite(w.At(dc), Dmz, true, w.At(dc));
    FencedSite(w.At(dc), Dmz, false, w.At(dc));
  }

  lemma {:induction false} FenceStep(w: World, dc: DC, action: Action)
    requires Inv(w) && FencedDown(w.At(dc)) && !Lifts(w, action, dc)
    ensures FencedDown(Step(w, action).At(dc))
  {
    hide Advance, SetMachine, ReadRole, Start, EndPromotion, StageGood, StoppedGood, SiteGood, Potential;
    match action
    case MachineStops(_, zone) => FencedSite(w.At(dc), zone, false, w.At(dc));
    case MachineStarts(_, zone) => FencedSite(w.At(dc), zone, true, w.At(dc));
    case Proceed => FenceAdvance(w, dc);
    case _ => FencedSite(w.At(dc), Internal, true, w.At(Other(dc)));
  }

  predicate HasPrimaryData(w: World) { w.a.data.PrimaryData? || w.b.data.PrimaryData? }

  /** A primary's directory is only ever removed while the other data centre holds the promoted one. */
  lemma {:induction false} DataKept(before: seq<Action>, action: Action)
    requires HasPrimaryData(Run(Initial(), before))
    ensures HasPrimaryData(Run(Initial(), before + [action]))
  {
    RunInv(before);
    assert (before + [action])[..|before|] == before;
    DataStep(Run(Initial(), before), action);
  }

  lemma {:induction false} ControllerData(w: World)
    requires w.stage != RemoveData
    ensures Advance(w).a.data == w.a.data && Advance(w).b.data == w.b.data
  {}

  lemma {:induction false} DataAdvance(w: World)
    requires StageGood(w) && HasPrimaryData(w)
    ensures HasPrimaryData(Advance(w))
  {
    if w.stage == RemoveData {
      assert Advance(w).At(Other(w.dc)) == w.At(Other(w.dc));
    } else {
      ControllerData(w);
    }
  }

  lemma {:induction false} DataStep(w: World, action: Action)
    requires Inv(w) && HasPrimaryData(w)
    ensures HasPrimaryData(Step(w, action))
  {
    hide Advance, StageGood, StoppedGood, Potential;
    if action.Proceed? { DataAdvance(w); }
  }

  // ---- what the environment alone can do --------------------------------------------------------------

  predicate Environment(action: Action) {
    action.MachineStops? || action.MachineStarts? || action.ServerExits? || action.ReadsRole? || action.ServerStarts? ||
        action.PromotionEnds?
  }

  predicate EnvironmentOnly(actions: seq<Action>) { forall action | action in actions :: Environment(action) }

  lemma {:induction false} EnvironmentStep(w: World, action: Action, dc: DC)
    requires Environment(action) && SiteGood(w.At(dc)) && !Potential(w.At(dc))
    ensures SiteGood(Step(w, action).At(dc)) && !Potential(Step(w, action).At(dc))
  {}

  lemma {:induction false} EnvironmentRun(w: World, actions: seq<Action>, dc: DC)
    requires EnvironmentOnly(actions) && SiteGood(w.At(dc)) && !Potential(w.At(dc))
    ensures SiteGood(Run(w, actions).At(dc)) && !Potential(Run(w, actions).At(dc))
    decreases |actions|
  {
    hide SiteGood, Potential, Step;
    if actions != [] {
      EnvironmentRun(w, actions[..|actions| - 1], dc);
      EnvironmentStep(Run(w, actions[..|actions| - 1]), actions[|actions| - 1], dc);
    }
  }

  lemma {:induction false} RunFour(w: World, a: Action, b: Action, c: Action, d: Action)
    ensures Run(w, [a, b, c, d]) == Step(Step(Step(Step(w, a), b), c), d)
  {
    hide Step;
    assert [a, b, c, d][..3] == [a, b, c] && [a, b, c][..2] == [a, b] && [a, b][..1] == [a];
    assert Run(w, [a]) == Step(w, a);
    assert Run(w, [a, b]) == Step(Run(w, [a]), b);
    assert Run(w, [a, b, c]) == Step(Run(w, [a, b]), c);
  }

  function Escape(w: World, dc: DC): seq<Action> {
    if w.At(dc).server == Starting(Replica) && w.At(dc).data.Empty?
    then [ServerExits(dc), ReadsRole(dc), ServerStarts(dc), PromotionEnds(dc)]
    else [MachineStarts(dc, Internal), ReadsRole(dc), ServerStarts(dc), PromotionEnds(dc)]
  }

  lemma {:induction false} SiteEscape(site: Site, other: Site)
    requires SiteGood(site) && site.pod && Potential(site)
    ensures var up := if site.server == Starting(Replica) && site.data.Empty?
        then site.(server := Down)
        else SetMachine(site, Internal, true);
      EndPromotion(Start(ReadRole(up), other)).server.Writable?
  {}

  lemma {:induction false} EscapeWrites(w: World, dc: DC)
    requires SiteGood(w.At(dc)) && w.At(dc).pod && Potential(w.At(dc))
    ensures Run(w, Escape(w, dc)).At(dc).server.Writable?
  {
    hide Run, SiteGood, Potential, SetMachine, ReadRole, Start, EndPromotion;
    SiteEscape(w.At(dc), w.At(Other(dc)));
    var first := if w.At(dc).server == Starting(Replica) && w.At(dc).data.Empty?
        then ServerExits(dc)
        else MachineStarts(dc, Internal);
    RunFour(w, first, ReadsRole(dc), ServerStarts(dc), PromotionEnds(dc));
  }

  /** Potential is exactly the power to become writable without the controller. */
  lemma {:induction false} PotentialExact(w: World, dc: DC)
    requires SiteGood(w.At(dc)) && w.At(dc).pod
    ensures Potential(w.At(dc)) <==>
        exists actions :: EnvironmentOnly(actions) && Run(w, actions).At(dc).server.Writable?
  {
    if Potential(w.At(dc)) {
      EscapeWrites(w, dc);
      assert EnvironmentOnly(Escape(w, dc));
    } else {
      forall actions | EnvironmentOnly(actions) ensures !Run(w, actions).At(dc).server.Writable? {
        EnvironmentRun(w, actions, dc);
      }
    }
  }
}
