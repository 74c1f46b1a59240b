/** Make-before-break: with --keep-old-sni the SNIs in .env and in the running
    container keep working while a rotation is under way. On which hosts this
    holds is decided exactly, over all histories of commands. */
module Continuity {
  import opened Wrappers
  import opened Names
  import opened Planning
  import opened Reality
  import opened World
  import opened Verification
  import opened Rotation
  import opened Staircase
  import opened Histories
  import opened Recovery
  import opened Guarantees
  import opened Shortfalls
  import opened Undisturbed

  /** The panel accepts this SNI, if it is one, and every ACL line lets it
      through. */
  predicate Serves(names: seq<string>, acl: AclLines, sni: Option<string>) {
    IsSet(sni) ==>
      && Lower(sni.value) in NameSet(names)
      && forall i | 0 <= i < |acl| :: Lower(sni.value) in NameSet(acl[i])
  }

  /** The SNIs in .env and in the container are served. */
  predicate Serving(l: Layers) {
    Serves(l.panel.names, l.acl, l.env) && Serves(l.panel.names, l.acl, l.container)
  }

  /** What .env and the running container hand out works. */
  predicate Served(w: World) {
    Serves(PanelOf(w).names, w.acl, w.env) && Serves(PanelOf(w).names, w.acl, ContainerSni(w.bot))
  }

  /** What can be looked up before the run: .env sets SNI_VALUE; or

      * the old panel and ACL already serve the new SNI, unless .env defines
        SNI_VALUE (as empty) or an ACL line names nobody; and
      * they serve the compose default, or, where a rollback never recreates
        the container under them, the planned ones do. */
  predicate SafeHost(origin: Layers, goal: Layers, composeDefault: Option<string>) {
    || IsSet(origin.env)
    || (&& (origin.env == None && NoEmptyLine(origin.acl) ==> Serves(origin.panel.names, origin.acl, goal.env))
        && if Held(origin) then Serves(goal.panel.names, goal.acl, composeDefault)
           else Serves(origin.panel.names, origin.acl, composeDefault))
  }

  /** A --keep-old-sni rotation of such a host. */
  predicate KeepsOld(snap: Snapshot, composeDefault: Option<string>) {
    snap.keepOld && Serving(snap.origin) && SafeHost(snap.origin, snap.goal, composeDefault)
  }

  // ---- the condition suffices ------------------------------------------------------------------

  lemma GoalServesMore(snap: Snapshot, sni: Option<string>)
    requires Planned(snap) && snap.keepOld
    ensures Serves(snap.goal.panel.names, snap.goal.acl, snap.goal.env)
    ensures Serves(snap.origin.panel.names, snap.origin.acl, sni) ==>
              && Serves(snap.goal.panel.names, snap.origin.acl, sni)
              && Serves(snap.goal.panel.names, snap.goal.acl, sni)
              && Serves(snap.origin.panel.names, snap.goal.acl, sni)
  {
    PlannedNames(snap.origin.panel, snap.sni, true);
    PlannedAclCoversNames(snap.origin, snap.sni, snap.dest, true);
    hide NameSet, Lower, TransformNames, NewNames, RemovedNames;
  }

  lemma SamePanelServes(a: seq<string>, b: seq<string>, acl: AclLines, sni: Option<string>)
    requires SameNames(a, b) && Serves(a, acl, sni)
    ensures Serves(b, acl, sni)
  {
    SameNamesSameSet(a, b);
  }

  lemma SameAclServes(names: seq<string>, a: AclLines, b: AclLines, sni: Option<string>)
    requires AclEqual(a, b) && Serves(names, a, sni)
    ensures Serves(names, b, sni)
  {
    forall i | 0 <= i < |b| ensures NameSet(a[i]) == NameSet(b[i]) {
      SameNamesSameSet(a[i], b[i]);
    }
  }

  lemma GoalServed(w: World, g: Layers, sni: Option<string>)
    requires AtPanel(w, g) && AtAcl(w, g) && Serves(g.panel.names, g.acl, sni)
    ensures Serves(PanelOf(w).names, w.acl, sni)
  {
    assert AclEqual(g.acl, w.acl);
    SameAclServes(g.panel.names, g.acl, w.acl, sni);
    SamePanelServes(g.panel.names, PanelOf(w).names, w.acl, sni);
  }

  /** Whatever the old layers serve is served anywhere on the stairs. */
  lemma OldServedOnStairs(w: World, snap: Snapshot, sni: Option<string>)
    requires Planned(snap) && snap.keepOld && Stairs(w, snap.origin, snap.goal)
    requires Serves(snap.origin.panel.names, snap.origin.acl, sni)
    ensures Serves(PanelOf(w).names, w.acl, sni)
  {
    GoalServesMore(snap, sni);
    hide Serves, Planned, SamePanel, AclEqual, ReadReality;
  }

  /** The new panel and ACL serve what the planned ones serve. */
  lemma FrontServes(w: World, g: Layers, sni: Option<string>)
    requires Serves(g.panel.names, g.acl, sni)
    ensures AtFront(w, g) ==> Serves(PanelOf(w).names, w.acl, sni)
  {
    if AtFront(w, g) { GoalServed(w, g, sni); }
    hide Serves;
  }

  lemma ServedOnStairs(w: World, snap: Snapshot)
    requires Planned(snap) && KeepsOld(snap, w.composeDefault) && Stairs(w, snap.origin, snap.goal)
    ensures Served(w)
  {
    hide Serves, AtAcl, AtPanel, ReadReality, PlanTarget, NoEmptyLine;
    var o, g, d := snap.origin, snap.goal, w.composeDefault;
    PlannedFacts(snap);
    OldServedOnStairs(w, snap, o.env);
    OldServedOnStairs(w, snap, o.container);
    GoalServesMore(snap, o.env);
    FrontServes(w, g, g.env);
    if Serves(g.panel.names, g.acl, d) { FrontServes(w, g, d); }
    if Serves(o.panel.names, o.acl, g.env) { OldServedOnStairs(w, snap, g.env); }
    if Serves(o.panel.names, o.acl, d) { OldServedOnStairs(w, snap, d); }
    NothingToServe(PanelOf(w).names, w.acl);
  }

  lemma NothingToServe(names: seq<string>, acl: AclLines)
    ensures Serves(names, acl, None)
  {
  }

  /** Over every history of a rotation that keeps the old SNI on a safe host:
      the SNI in .env and in the running container is served before and after
      every write, and in the state the last run left, killed or not. */
  lemma MakeBeforeBreak(s: Sys, history: seq<Invocation>)
    requires Inv(s) && QuietHistory(history)
    ensures var s' := RunAll(s, history);
            && (s'.disk.Some? && KeepsOld(s'.disk.value, s'.world.composeDefault) ==> Served(s'.world))
            && (forall e | e in s'.trace ::
                  && e.disk.Some?
                  && (KeepsOld(e.disk.value, e.before.composeDefault) ==> Served(e.before))
                  && (KeepsOld(e.disk.value, e.after.composeDefault) ==> Served(e.after)))
  {
    hide Stairs, Planned, Served, KeepsOld, RunAll;
    StaircaseHolds(s, history);
    var s' := RunAll(s, history);
    if s'.disk.Some? && KeepsOld(s'.disk.value, s'.world.composeDefault) {
      ServedOnStairs(s'.world, s'.disk.value);
    }
    forall e | e in s'.trace
      ensures e.disk.Some?
      ensures KeepsOld(e.disk.value, e.before.composeDefault) ==> Served(e.before)
      ensures KeepsOld(e.disk.value, e.after.composeDefault) ==> Served(e.after)
    {
      assert GoodEvent(e);
      if KeepsOld(e.disk.value, e.before.composeDefault) { ServedOnStairs(e.before, e.disk.value); }
      if KeepsOld(e.disk.value, e.after.composeDefault) { ServedOnStairs(e.after, e.disk.value); }
    }
  }

  // ---- the condition is necessary ----------------------------------------------------------------------

  /** Rotate, then roll back twice, the first time with the bot recreate
      refused. */
  function StrandedHistory(o: Opts): seq<Invocation> {
    [Invocation(DoApply(o), WillingFates(20)),
     Invocation(DoRollback(false, true), WillingFates(4) + [REFUSED] + WillingFates(20)),
     Invocation(DoRollback(false, true), WillingFates(20))]
  }

  /** Rotate, then roll back. */
  function ReturnHistory(o: Opts): seq<Invocation> {
    [Invocation(DoApply(o), WillingFates(20)), Invocation(DoRollback(false, true), WillingFates(20))]
  }

  /** Rotate, then roll back and die after the recreate. */
  function LateHistory(o: Opts): seq<Invocation> {
    [Invocation(DoApply(o), WillingFates(20)), Invocation(DoRollback(false, true), ToBot(true, false))]
  }

  /** Die before the first step, then roll back and die after the recreate. */
  function EarlyHistory(s: Sys, o: Opts): seq<Invocation> {
    [Invocation(DoApply(o), DyingApply(s)), Invocation(DoRollback(false, true), ToBot(false, false))]
  }

  lemma HistoriesQuiet(s: Sys, o: Opts)
    requires ValidOpts(o)
    ensures QuietHistory(StrandedHistory(o)) && QuietHistory(ReturnHistory(o))
    ensures QuietHistory(LateHistory(o)) && QuietHistory(EarlyHistory(s, o))
  {
    RefusedFourth();
    ToBotFates(true, false);
    ToBotFates(false, false);
    WillingQuiet(20);
    WillingQuiet(|DyingApply(s)|);
    hide ValidOpts, Quiet, ToBot, WillingFates;
  }

  lemma WillingQuiet(n: nat)
    ensures Quiet(WillingFates(n))
  {
  }

  /** On a host without SNI_VALUE the three runs leave the old panel and ACL
      under a container with the new SNI. */
  lemma StrandedHistoryEnds(s: Sys, o: Opts)
    requires Inv(s) && !Resumes(s.disk) && Rotatable(s.world) && ValidOpts(o) && o.yes
    requires s.world.env == None && NoEmptyLine(s.world.acl)
    ensures var s' := RunAll(s, StrandedHistory(o));
            && SameRotation(s'.disk, Some(FreshSnapshot(s.world, o)))
            && BackAtOrigin(s'.world, LayersOf(s.world))
            && ContainerSni(s'.world.bot) == Some(o.sni)
  {
    hide Inv, Exec, CmdApply, CmdRollback, Cooperates, Cooperative, LayersOf, PlanTarget, Rotatable, WillingFates,
         BackAtOrigin, NoEmptyLine, Quiet, OnOrigin;
    var h := StrandedHistory(o);
    RunThree(s, h);
    var s0 := s.(script := h[0].script);
    NewProcess(s, h[0].script);
    assert Exec(s0, DoApply(o)) == CmdApply(s0, o).0 by { ExecUnfolds(s0, o, false); }
    ApplyRotates(s0, o);
    var s1 := CmdApply(s0, o).0.(script := h[1].script);
    NewProcess(CmdApply(s0, o).0, h[1].script);
    RotatableReads(s.world);
    FreshLayers(s.world, o);
    RefusedFourth();
    ExecUnfolds(s1, o, false);
    var s2 := CmdRollback(s1, false, true).0.(script := h[2].script);
    WillingCooperate(20);
    ContainerClauseNeedsSetEnv(s1, h[2].script, false);
    RollbackKeeps(s1, false, true);
    RollbackKeeps(s2, false, true);
    ExecUnfolds(s2, o, false);
  }

  lemma RefusedFourth()
    ensures var f := WillingFates(4) + [REFUSED] + WillingFates(20);
            && Quiet(f) && |f| == 25 && !f[4].lands && forall i | 0 <= i < 4 :: Cooperates(f[i])
  {
    var f := WillingFates(4) + [REFUSED] + WillingFates(20);
    forall x | x in f ensures x.meddle == None {
      var i :| 0 <= i < |f| && f[i] == x;
    }
  }

  /** A rollback to which nothing happens recreates the container, from an .env
      that no longer sets SNI_VALUE. */
  lemma RollbackSetsBot(s: Sys, restart: bool)
    requires Inv(s) && s.disk.Some? && Cooperative(s.script, 20)
    requires s.disk.value.origin.env == None && s.world.env.Some?
    requires s.world.bot.Running? && s.world.editable && NoEmptyLine(s.disk.value.origin.acl)
    ensures var w := CmdRollback(s, restart, true).0.world;
            && BackAtOrigin(w, s.disk.value.origin)
            && w.bot.Running? && w.bot.sni == s.world.composeDefault
  {
    hide Stairs, GoodTrace, Planned, Converge, RunVerify, Quiet, RollBackNow, ReadReality, NoEmptyLine, StepsNeeded,
         BackAtOrigin, RollbackConflict, LayersOf, Save, Reached, AtAcl;
    Recoverable(s, restart);
    CooperativeQuiet(s.script, 20);
    CooperativeTail(s.script, 20);
    ReadEntryLooks(s);
    var (s1, entry) := ReadEntry(s);
    CooperativeTail(s1.script, 19);
    ReadPanelLooks(s1);
    var (s2, panel) := ReadPanel(s1);
    InvLooked(s, s2);
    CompleteReading(s);
    InvSnap(s);
    var snap := s.disk.value;
    var cur := LayersOf(s.world);
    EnvAndAclOf(s.world);
    EnvThenBot(cur, snap.origin);
    RollBackSetsBot(s2, snap, cur, restart);
  }

  lemma RollBackSetsBot(s: Sys, snap: Snapshot, cur: Layers, restart: bool)
    requires Inv(s) && s.disk == Some(snap) && Cooperative(s.script, 18)
    requires s.world.bot.Running? && s.world.editable && cur == LayersOf(s.world)
    requires snap.origin.env == None && s.world.env.Some? && NoEmptyLine(snap.origin.acl)
    ensures var w := RollBackNow(s, snap, cur, restart).0.world;
            w.bot.Running? && w.bot.sni == s.world.composeDefault
  {
    hide Stairs, GoodTrace, Planned, Converge, RunVerify, Quiet, RollBackNow, ReadReality, NoEmptyLine, StepsNeeded,
         BackAtOrigin, Save, Reached, BackReady, LayersOf, SafeToRevert;
    InvSnap(s);
    CooperativeQuiet(s.script, 18);
    EnvAndAclOf(s.world);
    EnvThenBot(cur, snap.origin);
    RollBackStays(s, snap, cur, restart);
    var rolling := snap.(status := StRollingBack);
    PlannedStatus(snap, StRollingBack);
    SavedMoves(s, rolling);
    var s1 := Save(s, rolling);
    SavedScript(s, rolling);
    CooperativeFrom(s.script, 18, 1);
    var steps := StepsNeeded(AsReading(cur), snap.origin, ROLLBACK_ORDER);
    assert steps[1] in steps;
    LayersRead(s1.world);
    AllSafe(s1.world, snap.origin);
    MovingFacts(s1, rolling);
    ReadyToRevert(s1.world, AsReading(cur), rolling, ALL_STEPS);
    OnlyAll(steps);
    FewSteps(AsReading(cur), snap.origin);
    ConvergeBackWorks(s1, AsReading(cur), rolling, steps, 17, restart);
    ConvergeStays(s1, AsReading(cur), None, rolling, steps, true, restart);
    var (s2, run) := Converge(s1, AsReading(cur), None, snap.origin, steps, restart);
    BackEnv(s2.world, snap.origin);
  }

  lemma AllSafe(w: World, origin: Layers)
    ensures SafeToRevert(w, origin, ALL_STEPS)
  {
  }

  lemma BackEnv(w: World, origin: Layers)
    ensures BackAtOrigin(w, origin) ==> w.env == origin.env
  {
  }

  lemma ReturnHistoryEnds(s: Sys, o: Opts)
    requires Inv(s) && !Resumes(s.disk) && Rotatable(s.world) && ValidOpts(o) && o.yes
    requires s.world.env == None && NoEmptyLine(s.world.acl)
    ensures var s' := RunAll(s, ReturnHistory(o));
            && SameRotation(s'.disk, Some(FreshSnapshot(s.world, o)))
            && BackAtOrigin(s'.world, LayersOf(s.world))
            && ContainerSni(s'.world.bot) == s.world.composeDefault
  {
    hide Inv, Exec, CmdApply, CmdRollback, Cooperates, Cooperative, LayersOf, PlanTarget, Rotatable, WillingFates,
         BackAtOrigin, NoEmptyLine, Quiet;
    var h := ReturnHistory(o);
    RunTwo(s, h);
    var s0 := s.(script := h[0].script);
    NewProcess(s, h[0].script);
    ExecUnfolds(s0, o, false);
    ApplyRotates(s0, o);
    var s1 := CmdApply(s0, o).0.(script := h[1].script);
    NewProcess(CmdApply(s0, o).0, h[1].script);
    RotatableReads(s.world);
    FreshLayers(s.world, o);
    WillingCooperate(20);
    RollbackSetsBot(s1, false);
    RollbackKeeps(s1, false, true);
    ExecUnfolds(s1, o, false);
  }

  lemma BackServed(w: World, origin: Layers)
    requires BackAtOrigin(w, origin) && Served(w)
    ensures Serves(origin.panel.names, origin.acl, ContainerSni(w.bot))
  {
  }

  /** Where .env is not set, a rollback that dies after the recreate leaves the
      compose default under the new panel and ACL. */
  lemma LateHistoryEnds(s: Sys, o: Opts)
    requires Inv(s) && !Resumes(s.disk) && Rotatable(s.world) && ValidOpts(o) && o.yes && !IsSet(s.world.env)
    ensures var s' := RunAll(s, LateHistory(o));
            && SameRotation(s'.disk, Some(FreshSnapshot(s.world, o)))
            && AtFront(s'.world, FreshSnapshot(s.world, o).goal)
            && ContainerSni(s'.world.bot) == s.world.composeDefault
  {
    hide Inv, Exec, CmdApply, CmdRollback, LayersOf, PlanTarget, Rotatable, WillingFates, Quiet, ToBot, AtFront;
    var h := LateHistory(o);
    RunTwo(s, h);
    var s0 := s.(script := h[0].script);
    NewProcess(s, h[0].script);
    ExecUnfolds(s0, o, false);
    FreshLayers(s.world, o);
    RotatableReads(s.world);
    assert IsSet(Some(o.sni));
    ApplyRotates(s0, o);
    var s1 := CmdApply(s0, o).0.(script := h[1].script);
    NewProcess(CmdApply(s0, o).0, h[1].script);
    RollbackToBot(s1, false, false);
    RollbackKeeps(s1, false, true);
    ExecUnfolds(s1, o, false);
    FrontFrame(s1.world, CmdRollback(s1, false, true).0.world, FreshSnapshot(s.world, o).goal);
  }

  lemma FrontFrame(w: World, w': World, goal: Layers)
    requires w'.stream == w.stream && w'.acl == w.acl
    ensures AtFront(w', goal) <==> AtFront(w, goal)
  {
    hide SamePanel, AclEqual, ReadReality;
  }

  /** Where .env holds an empty value and the container something else, a
      rollback recreates the container even if nothing has moved. */
  lemma EarlyHistoryEnds(s: Sys, o: Opts)
    requires Inv(s) && !Resumes(s.disk) && Rotatable(s.world) && ValidOpts(o) && o.yes
    requires s.world.env == Some("") && ContainerSni(s.world.bot) != Some("")
    ensures var s' := RunAll(s, EarlyHistory(s, o));
            && SameRotation(s'.disk, Some(FreshSnapshot(s.world, o)))
            && s'.world.stream == s.world.stream && s'.world.acl == s.world.acl
            && ContainerSni(s'.world.bot) == s.world.composeDefault
  {
    hide Inv, Exec, CmdApply, CmdRollback, LayersOf, PlanTarget, Rotatable, Quiet, ToBot;
    var h := EarlyHistory(s, o);
    RunTwo(s, h);
    var s0 := s.(script := h[0].script);
    NewProcess(s, h[0].script);
    ExecUnfolds(s0, o, false);
    FreshLayers(s.world, o);
    RotatableReads(s.world);
    WillingQuiet(|DyingApply(s)|);
    ApplyStays(s0, o);
    ApplyDies(s0, o);
    var s1 := CmdApply(s0, o).0.(script := h[1].script);
    NewProcess(CmdApply(s0, o).0, h[1].script);
    RollbackToBot(s1, false, false);
    RollbackKeeps(s1, false, true);
    ExecUnfolds(s1, o, false);
  }

  lemma ServedBehind(w: World, g: Layers)
    requires AtFront(w, g) && Served(w)
    ensures Serves(g.panel.names, g.acl, ContainerSni(w.bot))
  {
    assert SameNames(PanelOf(w).names, g.panel.names) && AclEqual(w.acl, g.acl);
    SameAclServes(PanelOf(w).names, w.acl, g.acl, ContainerSni(w.bot));
    SamePanelServes(PanelOf(w).names, g.panel.names, g.acl, ContainerSni(w.bot));
  }

  lemma ServedWhereFound(w: World, w': World)
    requires w'.stream == w.stream && w'.acl == w.acl && Served(w')
    ensures Serves(LayersOf(w).panel.names, LayersOf(w).acl, ContainerSni(w'.bot))
  {
  }

  // ---- both directions --------------------------------------------------------------------------------------

  /** As long as this rotation's snapshot is the one on disk, what .env and the
      container hand out is served, whatever was run and wherever it died. */
  ghost predicate NeverBreaks(s: Sys, snap: Snapshot) {
    forall h | QuietHistory(h) && SameRotation(RunAll(s, h).disk, Some(snap)) :: Served(RunAll(s, h).world)
  }

  /** Make-before-break holds on exactly the safe hosts, among those that pass
      the checks and whose SNIs are served. */
  lemma MakeBeforeBreakIff(s: Sys, o: Opts)
    requires Inv(s) && !Resumes(s.disk) && Rotatable(s.world) && ValidOpts(o) && o.keepOld && o.yes
    requires Serving(LayersOf(s.world))
    ensures var snap := FreshSnapshot(s.world, o);
            NeverBreaks(s, snap) <==> SafeHost(snap.origin, snap.goal, s.world.composeDefault)
  {
    hide Inv, RunAll, Served, Serves, LayersOf, PlanTarget, Rotatable, Stairs, Planned, SafeHost;
    var snap := FreshSnapshot(s.world, o);
    if SafeHost(snap.origin, snap.goal, s.world.composeDefault) {
      RotatableReads(s.world);
      FreshLayers(s.world, o);
      InvHasReality(s);
      FreshSnapshotOnStairs(s.world, o);
      forall h | QuietHistory(h) && SameRotation(RunAll(s, h).disk, Some(snap)) ensures Served(RunAll(s, h).world) {
        StaircaseHolds(s, h);
        HistorySteady(s, h);
        InvSnap(RunAll(s, h));
        ServedOnStairs(RunAll(s, h).world, snap);
      }
    } else if NeverBreaks(s, snap) {
      UnsafeBreaks(s, o);
    }
  }

  /** On every other host one of the histories above breaks it. */
  lemma UnsafeBreaks(s: Sys, o: Opts)
    requires Inv(s) && !Resumes(s.disk) && Rotatable(s.world) && ValidOpts(o) && o.yes
    requires NeverBreaks(s, FreshSnapshot(s.world, o))
    ensures SafeHost(LayersOf(s.world), FreshSnapshot(s.world, o).goal, s.world.composeDefault)
  {
    hide Inv, RunAll, Served, Serves, LayersOf, PlanTarget, Rotatable, BackAtOrigin, NoEmptyLine, StrandedHistory,
         ReturnHistory, LateHistory, EarlyHistory, QuietHistory, AtFront;
    var w, snap := s.world, FreshSnapshot(s.world, o);
    HistoriesQuiet(s, o);
    EnvAndAclOf(w);
    FreshLayers(w, o);
    if !IsSet(w.env) {
      if Held(snap.origin) {
        LateHistoryEnds(s, o);
        ServedBehind(RunAll(s, LateHistory(o)).world, snap.goal);
      } else if w.env == None {
        StrandedHistoryEnds(s, o);
        ReturnHistoryEnds(s, o);
        BackServed(RunAll(s, StrandedHistory(o)).world, snap.origin);
        BackServed(RunAll(s, ReturnHistory(o)).world, snap.origin);
      } else {
        EarlyHistoryEnds(s, o);
        ServedWhereFound(w, RunAll(s, EarlyHistory(s, o)).world);
      }
    }
  }

  // ---- a host on which it breaks -------------------------------------------------------------------------------

  /** Panel, ACL, container and compose default on a.example, SNI_VALUE not set. */
  function UnsetHost(): World {
    World(Stream(Some(RealitySettings(LISTED.dest, LISTED.names, None)), map[]), XrayView(LISTED.dest, LISTED.names),
          [["a.example"]], true, None, Running(Some("a.example"), true), Probe(false, None, false),
          Some("a.example"), true)
  }

  const TO_B := Opts("b.example", "b.example:443", true, false, false, true)

  /** Everything is served on that host before the rotation; after it, and two
      rollbacks of which the first could not recreate the container, the
      container hands out b.example under a panel and an ACL that only know
      a.example: neither served nor where the staircase wants it. */
  lemma UnsetHostBreaks()
    ensures var s := Sys(UnsetHost(), None, [], []);
            && Inv(s) && ValidOpts(TO_B) && TO_B.keepOld
            && Rotatable(s.world) && NoEmptyLine(s.world.acl) && Serving(LayersOf(s.world)) && Served(s.world)
            && QuietHistory(StrandedHistory(TO_B))
            && var s' := RunAll(s, StrandedHistory(TO_B));
            && SameRotation(s'.disk, Some(FreshSnapshot(s.world, TO_B)))
            && !Served(s'.world)
            && BackAtOrigin(s'.world, LayersOf(s.world)) && !OnOrigin(s'.world, LayersOf(s.world))
  {
    var s := Sys(UnsetHost(), None, [], []);
    hide RunAll, Inv, PlanTarget;
    assert Inv(s) by { NoRotationYet(s); }
    UnsetHostReads();
    HistoriesQuiet(s, TO_B);
    StrandedHistoryEnds(s, TO_B);
    HistorySteady(s, StrandedHistory(TO_B));
    var w := RunAll(s, StrandedHistory(TO_B)).world;
    assert w.composeDefault == Some("a.example");
    if Served(w) {
      BackServed(w, LayersOf(s.world));
    }
  }

  lemma NoRotationYet(s: Sys)
    requires s.disk == None && s.trace == [] && s.world.stream.reality.Some?
    ensures Inv(s)
  {
  }

  lemma UnsetHostReads()
    ensures var w := UnsetHost();
            && Rotatable(w) && NoEmptyLine(w.acl) && ValidOpts(TO_B) && Serving(LayersOf(w)) && Served(w)
            && !Serves(LayersOf(w).panel.names, w.acl, Some("b.example"))
            && LayersOf(w).acl == w.acl && LayersOf(w).env == None && LayersOf(w).container == Some("a.example")
  {
    var w := UnsetHost();
    assert PanelOf(w).names == ["a.example"];
    assert PanelOf(w).dest["dest"] == "a.example:443";
    InNameSet(["a.example"], Lower("a.example"));
    InNameSet(["a.example"], Lower("b.example"));
    assert ["a.example"][0] == "a.example" && Lower("a.example")[0] == 'a' && Lower("b.example")[0] == 'b';
    assert Lower("b.example") == "b.example";
    assert |TO_B.sni| == 9;
    assert w.acl[0] == ["a.example"];
  }
}
