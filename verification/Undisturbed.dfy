/** Runs to which nothing happens: every read sees everything, every write lands
    and is reported. What they change, and what no quiet run changes. */
module Undisturbed {
  import opened Wrappers
  import opened Names
  import opened Planning
  import opened Reality
  import opened World
  import opened Verification
  import opened Rotation
  import opened Staircase
  import opened Histories
  import opened Recovery
  import opened Guarantees
  import opened Shortfalls

  // ---- what no command changes -------------------------------------------------------------------

  /** Only quiet fates are left, and compose file and checks are as before. */
  predicate Steady(s: Sys, s1: Sys) {
    Quiet(s1.script) && ConstantsKept(s.world, s1.world)
  }

  lemma PanelSetSteady(s: Sys, expected: PanelValues, target: PanelValues, restart: bool)
    requires Quiet(s.script)
    ensures Steady(s, PanelSet(s, expected, target, restart).0)
    ensures Steady(s, ReadPanel(s).0)
  {
    hide SamePanel, ReadReality, ApplyRealityChanges, Quiet;
    if s.script != [] { QuietTail(s); }
  }

  lemma HostSteady(s: Sys, step: Step, cur: Reading, guard: Option<PanelValues>, t: Layers, restart: bool)
    requires Quiet(s.script) && step != PanelStep
    ensures Steady(s, DoStep(s, step, cur, guard, t, restart).0)
  {
    hide SamePanel, AclEqual, PanelSet, NoEmptyLine, Quiet, SniMatches;
    if s.script != [] { QuietTail(s); }
  }

  lemma StepSteady(s: Sys, step: Step, cur: Reading, guard: Option<PanelValues>, t: Layers, restart: bool)
    requires Quiet(s.script)
    ensures Steady(s, DoStep(s, step, cur, guard, t, restart).0)
  {
    hide SamePanel, PanelSet, ReadPanel, Quiet, HaproxySet, EnvSet, BotRecreate, ProbeRegen;
    if step != PanelStep {
      HostSteady(s, step, cur, guard, t, restart);
    } else if cur.panel.Some? {
      PanelSetSteady(s, cur.panel.value, t.panel, restart);
    } else {
      PanelSetSteady(s, t.panel, t.panel, restart);
      var (s1, r) := ReadPanel(s);
      if r.Some? { PanelSetSteady(s1, r.value, t.panel, restart); }
    }
  }

  lemma {:induction false} ConvergeSteady(s: Sys, cur: Reading, guard: Option<PanelValues>, t: Layers, steps: seq<Step>,
                                          restart: bool)
    requires Quiet(s.script)
    ensures Steady(s, Converge(s, cur, guard, t, steps, restart).0)
    decreases |steps|
  {
    hide DoStep, Advance, Quiet;
    if steps != [] {
      StepSteady(s, steps[0], cur, guard, t, restart);
      var (s1, r) := DoStep(s, steps[0], cur, guard, t, restart);
      ConvergeSteady(s1, if r.ok then Advance(cur, steps[0], t, r) else cur, guard, t, steps[1..], restart);
    }
  }

  lemma SaveSteady(s: Sys, snap: Snapshot)
    requires Quiet(s.script)
    ensures Steady(s, Save(s, snap)) && Steady(s, Archive(s))
  {
    if s.script != [] { QuietTail(s); }
  }

  lemma VerifySteady(s: Sys, t: Layers, strict: bool)
    requires Quiet(s.script)
    ensures Steady(s, RunVerify(s, t, strict).0)
  {
    VerifyLooks(s, t, strict);
    hide RunVerify;
  }

  lemma RevertSteady(s: Sys, snap: Snapshot, attempted: set<Step>, restart: bool)
    requires Quiet(s.script)
    ensures Steady(s, RevertTo(s, snap, attempted, restart).0)
  {
    hide Converge, RevertConflict, ReadReality, StepsNeeded, Only, Widened, Quiet;
    ReadEntryLooks(s);
    var (s1, entry) := ReadEntry(s);
    if entry.Some? {
      var cur := ValuesFrom(entry, None);
      ConvergeSteady(s1, cur, Some(snap.goal.panel), snap.origin,
                     Only(StepsNeeded(cur, snap.origin, ROLLBACK_ORDER), Widened(attempted)), restart);
    }
  }

  /** Saving a status, then looking. */
  lemma FinishSteady(s: Sys, snap: Snapshot, t: Layers, strict: bool)
    requires Quiet(s.script)
    ensures Steady(s, Save(s, snap)) && Steady(s, RunVerify(Save(s, snap), t, strict).0)
  {
    SaveSteady(s, snap);
    VerifySteady(Save(s, snap), t, strict);
    hide RunVerify, Save;
  }

  lemma ApplyPlanSteady(s: Sys, snap: Snapshot, plan: Plan, o: Opts)
    requires Quiet(s.script) && plan.Ready?
    ensures Steady(s, ApplyPlan(s, snap, plan, o).0)
  {
    hide Converge, RunVerify, RevertTo, RestartedIn, Attempted, Quiet, Save;
    ConvergeSteady(s, AsReading(plan.cur), None, plan.target, plan.steps, o.xrayRestart);
    var (s1, run) := Converge(s, AsReading(plan.cur), None, plan.target, plan.steps, o.xrayRestart);
    FinishSteady(s1, snap.(status := if run.soft then StPartial else StApplied), snap.goal, RestartedIn(run.log));
    FinishSteady(s1, snap.(status := StFailed), snap.origin, false);
    RevertSteady(s1, snap, Attempted(run.log), o.xrayRestart);
    var s2 := RevertTo(s1, snap, Attempted(run.log), o.xrayRestart).0;
    FinishSteady(s2, snap.(status := StReverted), snap.origin, false);
    FinishSteady(s2, snap.(status := StFailed), snap.origin, false);
  }

  lemma ApplySteady(s: Sys, o: Opts)
    requires Quiet(s.script)
    ensures Steady(s, CmdApply(s, o).0)
  {
    hide RunCheck, ApplyPlan, Archive, Save, PlanTarget, StepsNeeded, Quiet, SameOptions;
    var existing, resume := s.disk, Resumes(s.disk);
    var override := if resume then Some(existing.value.goal) else None;
    CheckLooks(s, o, override);
    var (s1, plan) := RunCheck(s, o, override);
    if plan.Ready? {
      if resume { SaveSteady(s1, existing.value.(status := StApplied)); }
      var snap := if resume then existing.value.(status := StPending) else NewSnapshot(plan, o);
      SaveSteady(s1, snap);
      var s2 := if !resume && existing.Some? then Archive(s1) else s1;
      SaveSteady(s2, snap);
      ApplyPlanSteady(Save(s2, snap), snap, plan, o);
    }
  }

  lemma RollbackSteady(s: Sys, restart: bool, yes: bool)
    requires Quiet(s.script)
    ensures Steady(s, CmdRollback(s, restart, yes).0)
  {
    hide RunVerify, Converge, StepsNeeded, RollbackConflict, ReadReality, RestartedIn, Quiet, Save, RollBackNow;
    ReadEntryLooks(s);
    var (s1, entry) := ReadEntry(s);
    ReadPanelLooks(s1);
    var (s2, panel) := ReadPanel(s1);
    var r := ValuesFrom(entry, panel);
    if s.disk.Some? && Complete(r) {
      var snap := s.disk.value;
      VerifySteady(s2, snap.origin, false);
      FinishSteady(s2, snap.(status := StRolledBack), snap.origin, false);
      RollBackSteady(s2, snap, AllValues(r), restart);
    }
  }

  lemma RollBackSteady(s: Sys, snap: Snapshot, cur: Layers, restart: bool)
    requires Quiet(s.script)
    ensures Steady(s, RollBackNow(s, snap, cur, restart).0)
  {
    hide RunVerify, Converge, StepsNeeded, RestartedIn, Quiet, Save;
    var s1 := Save(s, snap.(status := StRollingBack));
    SaveSteady(s, snap.(status := StRollingBack));
    var steps := StepsNeeded(AsReading(cur), snap.origin, ROLLBACK_ORDER);
    ConvergeSteady(s1, AsReading(cur), None, snap.origin, steps, restart);
    var (s2, run) := Converge(s1, AsReading(cur), None, snap.origin, steps, restart);
    FinishSteady(s2, snap.(status := if run.failed == None then StRolledBack else StFailed), snap.origin,
                 RestartedIn(run.log));
  }

  lemma ExecSteady(s: Sys, c: Command)
    requires Quiet(s.script)
    ensures Steady(s, Exec(s, c))
  {
    hide RunCheck, CmdApply, CmdRollback, RunVerify, Quiet;
    match c
    case DoCheck(o) =>
      CheckLooks(s, o, if Resumes(s.disk) && SameOptions(s.disk.value, o) then Some(s.disk.value.goal) else None);
    case DoApply(o) => ApplySteady(s, o);
    case DoVerify =>
      if s.disk.Some? {
        var snap := s.disk.value;
        VerifySteady(s, if snap.status == StReverted || snap.status == StRolledBack then snap.origin else snap.goal, false);
      }
    case DoRollback(restart, yes) => RollbackSteady(s, restart, yes);
  }

  lemma {:induction false} HistorySteady(s: Sys, history: seq<Invocation>)
    requires QuietHistory(history)
    ensures ConstantsKept(s.world, RunAll(s, history).world)
    decreases |history|
  {
    hide Exec, Quiet;
    if history != [] {
      var h := history[0];
      assert h in history;
      var s1 := s.(script := h.script);
      ExecSteady(s1, h.command);
      assert QuietHistory(history[1..]) by {
        forall x | x in history[1..] ensures x in history { }
      }
      HistorySteady(Exec(s1, h.command), history[1..]);
    }
  }

  // ---- a rotation to which nothing happens -----------------------------------------------------------

  /** The checks of build_plan. */
  predicate Rotatable(w: World) {
    && w.bot.Running? && w.bot.healthy && w.haproxyActive && w.editable
    && w.acl != [] && PanelOf(w).dest != map[]
  }

  const WILLING := Fate(None, true, true, false, Mask(true, true, true, true), true, Unreachable)
  const REFUSED := WILLING.(lands := false)

  function WillingFates(n: nat): (r: seq<Fate>)
    ensures |r| == n && forall i | 0 <= i < n :: r[i] == WILLING
  {
    seq(n, i => WILLING)
  }

  lemma WillingCooperate(n: nat)
    ensures Cooperative(WillingFates(n), n)
  {
  }

  lemma BotNeedsEnv(w: World, goal: Layers)
    ensures ForwardAllowed(w, goal, BotStep) ==> w.env == goal.env
  {
  }

  lemma {:induction false} ConvergeForwardWorks(s: Sys, cur: Reading, snap: Snapshot, steps: seq<Step>, n: nat,
                                                restart: bool)
    requires Moving(s, snap) && Cooperative(s.script, n) && n >= |steps|
    requires s.world.bot.Running? && s.world.editable
    requires ForwardReady(s.world, cur, snap.goal, steps)
    requires cur.panel.Some? && cur.acl.Some? && cur.env.Some?
    ensures Converge(s, cur, None, snap.goal, steps, restart).1.failed == None
    decreases |steps|
  {
    hide Stairs, GoodTrace, Cooperative, Quiet, Planned, ReadReality, SamePanel, AclEqual, DoStep, ForwardAllowed, Accurate,
         OthersKept, StillAccurate, Reached;
    if steps != [] {
      var step := steps[0];
      FirstStepAllowed(s.world, cur, snap, steps, false);
      StepStays(s, step, cur, None, snap, false, restart);
      StairsFit(s.world, snap);
      PlannedFacts(snap);
      assert step == BotStep ==> s.world.env == snap.goal.env by { BotNeedsEnv(s.world, snap.goal); }
      StepWorks(s, step, cur, snap.goal, n, restart);
      var (s1, r) := DoStep(s, step, cur, None, snap.goal, restart);
      ConstantsFrame(step, s.world, s1.world);
      var cur1 := if r.ok then Advance(cur, step, snap.goal, r) else cur;
      AdvanceAccurate(s.world, cur, step, snap.goal, r);
      SelfAccurate(s.world, cur, step);
      ReadyForRest(s.world, s1.world, cur, cur1, snap, steps, false);
      ConvergeForwardWorks(s1, cur1, snap, steps[1..], n - 1, restart);
    }
  }

  lemma PlanLetsThrough(w: World, o: Opts)
    requires ValidOpts(o)
    ensures NoEmptyLine(PlanTarget(LayersOf(w), o.sni, o.dest, o.keepOld).acl)
  {
    PlannedAclCoversNames(LayersOf(w), o.sni, o.dest, o.keepOld);
    hide NameSet, NoDuplicates;
  }

  /** The check sees everything and finds nothing to object to. */
  lemma CheckWorks(s: Sys, o: Opts)
    requires s.script == WillingFates(|s.script|) && |s.script| >= 3 && Rotatable(s.world) && ValidOpts(o)
    ensures var (s1, plan) := RunCheck(s, o, None);
            var goal := PlanTarget(LayersOf(s.world), o.sni, o.dest, o.keepOld);
            && s1 == s.(script := s.script[3..])
            && plan == Ready(LayersOf(s.world), goal, StepsNeeded(AsReading(LayersOf(s.world)), goal, APPLY_ORDER))
  {
    hide ReadReality, PlanTarget, StepsNeeded, NoEmptyLine, ValidOpts;
    var f := s.script;
    var goal := PlanTarget(LayersOf(s.world), o.sni, o.dest, o.keepOld);
    assert NoEmptyLine(goal.acl) by { PlanLetsThrough(s.world, o); }
    assert f[1..][0] == f[1] && f[1..][1..] == f[2..] && f[2..][0] == f[2] && f[2..][1..] == f[3..];
  }

  function FreshSnapshot(w: World, o: Opts): Snapshot {
    Snapshot(StPending, o.sni, o.dest, o.keepOld, LayersOf(w), PlanTarget(LayersOf(w), o.sni, o.dest, o.keepOld))
  }

  /** Left alone, a fresh --apply on a host that passes the checks rotates it,
      and leaves its snapshot on disk. */
  lemma ApplyRotates(s: Sys, o: Opts)
    requires Inv(s) && !Resumes(s.disk) && s.script == WillingFates(20)
    requires Rotatable(s.world) && ValidOpts(o) && o.yes && s.world.env != Some(o.sni)
    ensures var s' := CmdApply(s, o).0;
            && Inv(s') && SameRotation(s'.disk, Some(FreshSnapshot(s.world, o)))
            && s'.world.env == Some(o.sni)
            && s'.world.bot.Running? && s'.world.bot.sni == Some(o.sni)
            && AtFront(s'.world, FreshSnapshot(s.world, o).goal)
            && ConstantsKept(s.world, s'.world)
  {
    hide CmdApply, Inv, Quiet, Rotatable, LayersOf, PlanTarget, Rotated, BackAtOrigin, Cooperative, WillingFates, ValidOpts,
         ConstantsKept, AtPanel, AtAcl;
    WillingCooperate(20);
    CooperativeQuiet(s.script, 20);
    ApplyStays(s, o);
    ApplySteady(s, o);
    ApplyEndsWell(s, o);
    FreshLayers(s.world, o);
    var (s', outcome) := CmdApply(s, o);
    RotatedFully(s'.world, Heading(s, o), outcome.status == Some(StApplied));
  }

  lemma CooperativeFrom(script: seq<Fate>, n: nat, k: nat)
    requires Cooperative(script, n) && k <= n
    ensures Cooperative(script[k..], n - k)
  {
    forall f | f in script[k..] ensures Cooperates(f) {
      assert f in script;
    }
  }

  lemma OneFateSpent(s: Sys, s1: Sys)
    requires Cooperative(s.script, 17) && Cooperative(s.script[1..], 16)
    requires s1 == s || s1 == Archive(s)
    ensures Cooperative(s1.script, 16)
  {
  }

  lemma EnvIsNeeded(w: World, goal: Layers)
    requires w.env != goal.env
    ensures StepsNeeded(AsReading(LayersOf(w)), goal, APPLY_ORDER) != []
  {
    EveryStepListed();
    assert Needed(EnvStep, AsReading(LayersOf(w)), goal) by { hide ReadReality; }
  }

  lemma InvHasReality(s: Sys)
    requires Inv(s)
    ensures s.world.stream.reality.Some?
  {
  }

  lemma RotatableReads(w: World)
    requires Rotatable(w)
    ensures LayersOf(w).panel.dest != map[] && w.bot.Running? && w.editable
  {
  }

  /** Once the pending snapshot is saved, nothing fails but the probe. */
  lemma ApplyPlanWorks(s: Sys, snap: Snapshot, plan: Plan, o: Opts)
    requires Moving(s, snap) && Cooperative(s.script, 15)
    requires s.world.bot.Running? && s.world.editable
    requires plan == Ready(LayersOf(s.world), snap.goal,
                           StepsNeeded(AsReading(LayersOf(s.world)), snap.goal, APPLY_ORDER))
    ensures var status := ApplyPlan(s, snap, plan, o).1.status;
            status == Some(StApplied) || status == Some(StPartial)
  {
    hide Converge, RunVerify, RevertTo, Moving, Save, ForwardReady, StepsNeeded, LayersOf, Cooperative, RestartedIn;
    ReadyToApply(s.world, snap.goal);
    StepsShorter(AsReading(plan.cur), plan.target, APPLY_ORDER);
    ConvergeForwardWorks(s, AsReading(plan.cur), snap, plan.steps, 15, o.xrayRestart);
  }

  lemma ApplyEndsWell(s: Sys, o: Opts)
    requires Inv(s) && !Resumes(s.disk) && s.script == WillingFates(20)
    requires Rotatable(s.world) && ValidOpts(o) && o.yes && s.world.env != Some(o.sni)
    ensures var (s', outcome) := CmdApply(s, o);
            && (outcome.status == Some(StApplied) || outcome.status == Some(StPartial))
            && SameRotation(s'.disk, Some(FreshSnapshot(s.world, o)))
  {
    hide RunCheck, ApplyPlan, Converge, Stairs, PlanTarget, StepsNeeded, GoodTrace, Planned, Quiet, Moving, LayersOf,
         Rotatable, Cooperative;
    CheckWorks(s, o);
    var (s1, plan) := RunCheck(s, o, None);
    WillingCooperate(20);
    CooperativeFrom(s.script, 20, 3);
    CooperativeQuiet(s1.script, 17);
    NewProcess(s, s1.script);
    FreshLayers(s.world, o);
    assert plan.steps != [] by { EnvIsNeeded(s.world, plan.target); }
    RotatableReads(s.world);
    InvHasReality(s);
    FreshSnapshotOnStairs(s.world, o);
    ArchivedStays(s1);
    var s2 := if s.disk.Some? then Archive(s1) else s1;
    CooperativeFrom(s1.script, 17, 1);
    assert Cooperative(s2.script, 16) by { OneFateSpent(s1, s2); }
    var snap := NewSnapshot(plan, o);
    SavedMoves(s2, snap);
    CooperativeFrom(s2.script, 16, 1);
    var s3 := Save(s2, snap);
    ApplyPlanWorks(s3, snap, plan, o);
    ApplyPlanKeeps(s3, snap, plan, o);
  }

  // ---- histories of a few runs ------------------------------------------------------------------------

  lemma RunTwo(s: Sys, h: seq<Invocation>)
    requires |h| == 2
    ensures RunAll(s, h) == Exec(Exec(s.(script := h[0].script), h[0].command).(script := h[1].script), h[1].command)
  {
    hide Exec;
    var s1 := Exec(s.(script := h[0].script), h[0].command);
    assert RunAll(s, h) == RunAll(s1, h[1..]) && h[1..] == [h[1]];
    var s2 := Exec(s1.(script := h[1].script), h[1].command);
    assert RunAll(s1, [h[1]]) == RunAll(s2, []);
  }

  lemma RunThree(s: Sys, h: seq<Invocation>)
    requires |h| == 3
    ensures RunAll(s, h) == Exec(Exec(Exec(s.(script := h[0].script), h[0].command).(script := h[1].script),
                                      h[1].command).(script := h[2].script), h[2].command)
  {
    hide Exec;
    var s1 := Exec(s.(script := h[0].script), h[0].command);
    assert RunAll(s, h) == RunAll(s1, h[1..]);
    RunTwo(s1, h[1..]);
  }

  lemma ExecUnfolds(s: Sys, o: Opts, restart: bool)
    ensures Exec(s, DoApply(o)) == CmdApply(s, o).0
    ensures Exec(s, DoRollback(restart, true)) == CmdRollback(s, restart, true).0
  {
    hide CmdApply, CmdRollback;
  }

  lemma FreshLayers(w: World, o: Opts)
    ensures var snap := FreshSnapshot(w, o);
            && snap.origin == LayersOf(w) && snap.origin.env == w.env && snap.origin.acl == w.acl
            && snap.goal.env == Some(o.sni)
  {
    hide ReadReality, TransformNames, NewNames, RemovedNames;
  }

  lemma EnvAndAclOf(w: World)
    ensures LayersOf(w).env == w.env && LayersOf(w).acl == w.acl && LayersOf(w).container == ContainerSni(w.bot)
  {
    hide ReadReality;
  }

  // ---- a run that dies where it is told to ---------------------------------------------------------------

  /** The last fate of a rollback: its recreate works, or leaves no container. */
  function LastFate(wreck: bool): Fate { WILLING.(wreck := wreck) }

  /** A rollback that dies after it has recreated the container; `moved` tells
      whether .env has to be put back first. */
  function ToBot(moved: bool, wreck: bool): (f: seq<Fate>)
    ensures |f| == if moved then 5 else 4
  {
    WillingFates(if moved then 4 else 3) + [LastFate(wreck)]
  }

  lemma ToBotFates(moved: bool, wreck: bool)
    ensures var f := ToBot(moved, wreck);
            && Quiet(f) && (forall i | 0 <= i < |f| - 1 :: f[i] == WILLING) && f[|f| - 1] == LastFate(wreck)
  {
    var f := ToBot(moved, wreck);
    forall x | x in f ensures x.meddle == None {
      var i :| 0 <= i < |f| && f[i] == x;
    }
  }

  function Recreated(w: World, wreck: bool): Bot {
    if wreck then Down else Running(Effective(w.env, w.composeDefault), true)
  }

  lemma BotThenDead(s: Sys, cur: Reading, t: Layers, steps: seq<Step>, wreck: bool, restart: bool)
    requires s.script == [LastFate(wreck)] && steps != [] && steps[0] == BotStep
    ensures Converge(s, cur, None, t, steps, restart).0.world == s.world.(bot := Recreated(s.world, wreck))
  {
    var (s1, r) := DoStep(s, BotStep, cur, None, t, restart);
    assert s1.script == [] && s1.world == s.world.(bot := Recreated(s.world, wreck));
    hide DoStep, Recreated, Advance;
    if r.ok { DeadConverges(s1, Advance(cur, BotStep, t, r), None, t, steps[1..], restart); }
  }

  lemma BotFirst(cur: Layers, t: Layers)
    requires cur.env == t.env && !SniMatches(cur.container, t.env)
    ensures var steps := StepsNeeded(AsReading(cur), t, ROLLBACK_ORDER);
            steps != [] && steps[0] == BotStep
  {
    hide SamePanel, AclEqual;
    var o := ROLLBACK_ORDER;
    assert o[0] == EnvStep && o[1..][0] == BotStep;
    assert StepsNeeded(AsReading(cur), t, o) == [] + StepsNeeded(AsReading(cur), t, o[1..]);
    assert StepsNeeded(AsReading(cur), t, o[1..]) == [BotStep] + StepsNeeded(AsReading(cur), t, o[1..][1..]);
  }

  lemma ConvergeToBot(s: Sys, t: Layers, wreck: bool, restart: bool)
    requires var moved := s.world.env != t.env;
             s.script == if moved then [WILLING, LastFate(wreck)] else [LastFate(wreck)]
    requires s.world.bot.Running? && s.world.editable && BotDue(s.world, t)
    ensures var cur := AsReading(LayersOf(s.world));
            var s' := Converge(s, cur, None, t, StepsNeeded(cur, t, ROLLBACK_ORDER), restart).0;
            s'.world == s.world.(env := t.env, bot := Recreated(s.world.(env := t.env), wreck))
  {
    hide ReadReality, SamePanel, AclEqual, StepsNeeded, DoStep, Recreated;
    var layers := LayersOf(s.world);
    var cur := AsReading(layers);
    var steps := StepsNeeded(cur, t, ROLLBACK_ORDER);
    if s.world.env != t.env {
      EnvThenBot(layers, t);
      EnvWorks(s, cur, t, restart);
      var (s1, r) := DoStep(s, EnvStep, cur, None, t, restart);
      assert s1.script == [LastFate(wreck)];
      BotThenDead(s1, Advance(cur, EnvStep, t, r), t, steps[1..], wreck, restart);
      assert Converge(s, cur, None, t, steps, restart).0
          == Converge(s1, Advance(cur, EnvStep, t, r), None, t, steps[1..], restart).0;
    } else {
      BotFirst(layers, t);
      BotThenDead(s, cur, t, steps, wreck, restart);
    }
  }

  /** A rollback that dies right after the bot step. */
  lemma RollbackToBot(s: Sys, wreck: bool, restart: bool)
    requires Inv(s) && s.disk.Some? && s.script == ToBot(s.world.env != s.disk.value.origin.env, wreck)
    requires s.world.bot.Running? && s.world.editable && BotDue(s.world, s.disk.value.origin)
    ensures var o := s.disk.value.origin;
            CmdRollback(s, restart, true).0.world
            == s.world.(env := o.env, bot := Recreated(s.world.(env := o.env), wreck))
  {
    hide Stairs, GoodTrace, Planned, Quiet, ReadReality, NoEmptyLine, RunVerify, SamePanel, AclEqual, RollbackConflict,
         Inv, RollBackNow, Converge, StepsNeeded, Recreated, LayersOf, BotDue, ToBot;
    var snap, f, moved := s.disk.value, s.script, s.world.env != s.disk.value.origin.env;
    ToBotFates(moved, wreck);
    TwoReads(s);
    InvSnap(s);
    NoRollbackConflict(s.world, snap);
    var cur := LayersOf(s.world);
    var s2 := s.(script := f[2..]);
    assert Quiet(f[2..]) by { QuietFrom(f, 2); }
    NewProcess(s, f[2..]);
    BotStepDue(s.world, snap.origin);
    RollBackStays(s2, snap, cur, restart);
    var s1 := Save(s2, snap.(status := StRollingBack));
    assert f[2..][0] == f[2] && f[2..][1..] == f[3..];
    assert s1.world == s.world && s1.script == f[3..];
    assert f[3..] == if moved then [WILLING, LastFate(wreck)] else [LastFate(wreck)];
    ConvergeToBot(s1, snap.origin, wreck, restart);
  }

  /** A fresh apply that dies as soon as its snapshot is saved. */
  function DyingApply(s: Sys): seq<Fate> { WillingFates(if s.disk.Some? then 5 else 4) }

  lemma ApplyDies(s: Sys, o: Opts)
    requires !Resumes(s.disk) && s.script == DyingApply(s)
    requires Rotatable(s.world) && ValidOpts(o) && o.yes && s.world.env != Some(o.sni)
    ensures CmdApply(s, o).0 == s.(script := [], disk := Some(FreshSnapshot(s.world, o)))
  {
    hide RunCheck, ApplyPlan, PlanTarget, StepsNeeded, LayersOf, Rotatable, ValidOpts;
    CheckWorks(s, o);
    var (s1, plan) := RunCheck(s, o, None);
    FreshLayers(s.world, o);
    EnvIsNeeded(s.world, plan.target);
    var s2 := if s.disk.Some? then Archive(s1) else s1;
    assert |s2.script| == 1 && s2.script[0] == WILLING && s2.world == s.world;
    var snap := NewSnapshot(plan, o);
    var s3 := Save(s2, snap);
    assert s3.script == [] && s3.world == s.world && s3.trace == s.trace;
    DeadApplies(s3, snap, plan, o);
  }
}
