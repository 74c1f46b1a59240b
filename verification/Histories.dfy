/** Whole commands on the stairs: checks, applies and their auto-reverts, and
    whether what an apply says about its end is true. */
module Histories {
  import opened Wrappers
  import opened Names
  import opened Planning
  import opened Reality
  import opened World
  import opened Verification
  import opened Rotation
  import opened Staircase

  /** Only fates were used up. */
  predicate OnlyLooked(s: Sys, s1: Sys) {
    && s1.world == s.world
    && s1.disk == s.disk
    && s1.trace == s.trace
    && Quiet(s1.script)
  }

  lemma ReadEntryLooks(s: Sys)
    requires Quiet(s.script)
    ensures OnlyLooked(s, ReadEntry(s).0)
  {
    if s.script != [] { QuietTail(s); }
  }

  lemma ReadPanelLooks(s: Sys)
    requires Quiet(s.script)
    ensures OnlyLooked(s, ReadPanel(s).0)
  {
    if s.script != [] { QuietTail(s); }
  }

  lemma ProbeExitLooks(s: Sys)
    requires Quiet(s.script)
    ensures OnlyLooked(s, ProbeExit(s).0)
  {
    if s.script != [] { QuietTail(s); }
  }

  lemma VerifyLooks(s: Sys, t: Layers, strict: bool)
    requires Quiet(s.script)
    ensures OnlyLooked(s, RunVerify(s, t, strict).0)
  {
    ReadEntryLooks(s);
    var s1 := ReadEntry(s).0;
    ReadPanelLooks(s1);
    var (s2, panel) := ReadPanel(s1);
    if s2.script != [] { QuietTail(s2); }
    var s3 := if panel.Some? then ReadXray(s2).0 else s2;
    assert OnlyLooked(s, s3);
    if s3.script != [] { QuietTail(s3); }
    hide VerifyChecks, VerifyCode;
  }

  /** A quiet check changes nothing, and a plan it arrives at starts from what
      the layers hold. */
  lemma CheckLooks(s: Sys, o: Opts, override: Option<Layers>)
    requires Quiet(s.script)
    ensures var (s1, plan) := RunCheck(s, o, override);
            && OnlyLooked(s, s1)
            && (plan.Ready? ==>
                  && plan.cur == LayersOf(s.world)
                  && s.world.bot.Running?
                  && s.world.editable && s.world.haproxyActive
                  && plan.cur.panel.dest != map[]
                  && plan.target == (if override.Some? then override.value
                                     else PlanTarget(plan.cur, o.sni, o.dest, o.keepOld))
                  && plan.steps == StepsNeeded(AsReading(plan.cur), plan.target, APPLY_ORDER))
  {
    ReadEntryLooks(s);
    var s1 := ReadEntry(s).0;
    ReadPanelLooks(s1);
    var s2 := ReadPanel(s1).0;
    ProbeExitLooks(s2);
    hide PlanTarget, StepsNeeded, NoEmptyLine, ReadReality, Quiet;
  }

  // ---- starting points for converge ---------------------------------------------------

  lemma ReadyToApply(w: World, goal: Layers)
    requires w.bot.Running?
    ensures var cur := AsReading(LayersOf(w));
            ForwardReady(w, cur, goal, StepsNeeded(cur, goal, APPLY_ORDER))
  {
    hide SamePanel, AclEqual, ReadReality, Ordered, Reached, Rank, Accurate, LayersOf;
    var cur := AsReading(LayersOf(w));
    var steps := StepsNeeded(cur, goal, APPLY_ORDER);
    Orders();
    NeededOrdered(cur, goal, APPLY_ORDER, false);
    EveryStepListed();
    forall x: Step
      ensures Accurate(w, cur, x)
      ensures x !in steps ==> Reached(w, goal, x)
      ensures x in steps ==> Needed(x, cur, goal)
    {
      ExactReading(w, goal, x);
    }
    NeededMeans(w, goal);
  }

  lemma NeededMeans(w: World, goal: Layers)
    ensures var cur := AsReading(LayersOf(w));
            && (Needed(PanelStep, cur, goal) ==> !AtPanel(w, goal))
            && (Needed(HaproxyStep, cur, goal) ==> !AtAcl(w, goal))
            && (Needed(ProbeStep, cur, goal) ==> goal.probe.present)
  {
    hide SamePanel, AclEqual, ReadReality;
  }

  lemma ExactReading(w: World, goal: Layers, x: Step)
    requires w.bot.Running?
    ensures var cur := AsReading(LayersOf(w));
            Accurate(w, cur, x) && (!Needed(x, cur, goal) ==> Reached(w, goal, x))
  {
    hide SamePanel, AclEqual, ReadReality;
  }

  /** Going back over a set of layers is safe when nothing left out is still
      new below something taken back. */
  predicate SafeToRevert(w: World, origin: Layers, only: set<Step>) {
    && (EnvStep in only <==> BotStep in only)
    && (PanelStep in only && HaproxyStep !in only ==> AtAcl(w, origin))
    && (PanelStep in only || HaproxyStep in only ==>
          EnvStep in only || (w.env == origin.env && Settled(w, origin)))
  }

  /** Where the container is pinned it is only recreated under the new panel and
      ACL: that is known, or follows from what .env and container were read as. */
  predicate BotMayMove(w: World, cur: Reading, snap: Snapshot, only: set<Step>) {
    Held(snap.origin) && BotStep in only ==> AtFront(w, snap.goal) || (cur.env.Some? && cur.container.Some?)
  }

  /** What was read of a world. */
  predicate ReadFrom(w: World, cur: Reading) {
    && (cur.panel.Some? ==> cur.panel.value == PanelOf(w))
    && (cur.acl.Some? ==> cur.acl.value == w.acl)
    && (cur.env.Some? ==> cur.env.value == w.env)
    && (cur.container.Some? ==> cur.container.value == ContainerSni(w.bot))
  }

  lemma ReadyToRevert(w: World, cur: Reading, snap: Snapshot, only: set<Step>)
    requires SafeToRevert(w, snap.origin, only) && ReadFrom(w, cur) && BotMayMove(w, cur, snap, only)
    requires Stairs(w, snap.origin, snap.goal) && IsSet(snap.goal.env)
    ensures var steps := Only(StepsNeeded(cur, snap.origin, ROLLBACK_ORDER), only);
            && BackReady(w, cur, snap, steps)
            && forall x | x in only && x !in steps :: x == BotStep || Reached(w, snap.origin, x)
  {
    hide SamePanel, AclEqual, ReadReality, OnOrigin, Accurate, ReadFrom, Reached, BackReady, SafeToRevert, Ordered, Rank, Stairs,
         Settled, Held, BotMayMove;
    var origin := snap.origin;
    var all := StepsNeeded(cur, origin, ROLLBACK_ORDER);
    var steps := Only(all, only);
    Orders();
    NeededOrdered(cur, origin, ROLLBACK_ORDER, true);
    OnlyOrdered(all, only, true);
    EveryStepListed();
    forall x | x in only && x !in steps
      ensures x == BotStep || Reached(w, origin, x)
      ensures x == BotStep ==> Settled(w, origin)
    {
      assert !Needed(x, cur, origin) by { hide Needed; }
      NotNeededReached(w, cur, origin, x);
      if x == BotStep { NotNeededSettled(w, cur, snap); }
    }
    forall x: Step ensures Accurate(w, cur, x) {
      ReadAccurate(w, cur, x);
    }
    assert ProbeStep in steps ==> Needed(ProbeStep, cur, origin) by { hide Needed; }
    if BotStep in steps {
      assert Needed(BotStep, cur, origin) by { hide Needed; }
      BotNeededAtFront(w, cur, snap, only);
    }
    BackReadyFrom(w, cur, snap, steps, only);
  }

  /** A container that matches the old .env is one to put the old layers under. */
  lemma NotNeededSettled(w: World, cur: Reading, snap: Snapshot)
    requires ReadFrom(w, cur) && !Needed(BotStep, cur, snap.origin)
    requires Stairs(w, snap.origin, snap.goal) && IsSet(snap.goal.env)
    ensures Settled(w, snap.origin)
  {
    hide SamePanel, AclEqual, ReadReality, Pinned;
  }

  /** Where the container is pinned, the bot step is needed under the new panel
      and ACL only. */
  lemma BotNeededAtFront(w: World, cur: Reading, snap: Snapshot, only: set<Step>)
    requires ReadFrom(w, cur) && Needed(BotStep, cur, snap.origin) && BotStep in only && BotMayMove(w, cur, snap, only)
    requires Stairs(w, snap.origin, snap.goal)
    ensures Held(snap.origin) ==> AtFront(w, snap.goal)
  {
    hide SamePanel, AclEqual, ReadReality, NoEmptyLine, OnOrigin;
  }

  lemma Orders()
    ensures Ordered(APPLY_ORDER, false) && Ordered(ROLLBACK_ORDER, true)
  {
  }

  lemma BackReadyFrom(w: World, cur: Reading, snap: Snapshot, steps: seq<Step>, only: set<Step>)
    requires SafeToRevert(w, snap.origin, only)
    requires Ordered(steps, true) && (forall x: Step :: Accurate(w, cur, x)) && (forall x | x in steps :: x in only)
    requires forall x | x in only && x !in steps :: x == BotStep || Reached(w, snap.origin, x)
    requires BotStep in only && BotStep !in steps ==> Settled(w, snap.origin)
    requires BotStep in steps && Held(snap.origin) ==> AtFront(w, snap.goal)
    requires ProbeStep in steps ==> snap.origin.probe.present
    ensures BackReady(w, cur, snap, steps)
  {
    hide SamePanel, AclEqual, ReadReality, Settled, Held, Accurate, Ordered;
    var origin := snap.origin;
    var r1, r2 := Reached(w, origin, HaproxyStep), Reached(w, origin, EnvStep);
    var h, p, b, e := HaproxyStep in steps, PanelStep in steps, BotStep in steps, EnvStep in steps;
    var h', e', b', p' := HaproxyStep in only, EnvStep in only, BotStep in only, PanelStep in only;
  }

  lemma ReadAccurate(w: World, cur: Reading, x: Step)
    requires ReadFrom(w, cur)
    ensures Accurate(w, cur, x)
  {
  }

  lemma EveryStepListed()
    ensures forall x: Step :: x in APPLY_ORDER && x in ROLLBACK_ORDER
  {
    forall x: Step ensures x in APPLY_ORDER && x in ROLLBACK_ORDER {
      assert APPLY_ORDER[ApplyRank(x)] == x && ROLLBACK_ORDER[BackRank(x)] == x;
    }
  }

  lemma NotNeededReached(w: World, cur: Reading, t: Layers, x: Step)
    requires ReadFrom(w, cur) && !Needed(x, cur, t)
    ensures x == BotStep || Reached(w, t, x)
  {
  }

  // ---- auto-revert --------------------------------------------------------------------------

  /** A set of steps was taken back, or not touched. */
  predicate TakenBack(w: World, w': World, origin: Layers, only: set<Step>) {
    forall x: Step | x == PanelStep || x == HaproxyStep || x == EnvStep ::
      if x in only then Reached(w', origin, x) else Kept(x, w, w')
  }

  lemma MovingFacts(s: Sys, snap: Snapshot)
    requires Moving(s, snap)
    ensures Stairs(s.world, snap.origin, snap.goal) && Planned(snap) && IsSet(snap.goal.env)
  {
    PlannedFacts(snap);
    hide Stairs, Planned;
  }

  /** A quiet converge back over the steps of `only` that are needed. */
  lemma ConvergeBack(s: Sys, cur: Reading, guard: Option<PanelValues>, snap: Snapshot, only: set<Step>, restart: bool)
    requires Moving(s, snap)
    requires SafeToRevert(s.world, snap.origin, only) && ReadFrom(s.world, cur) && BotMayMove(s.world, cur, snap, only)
    requires guard.Some? ==> guard.value == snap.goal.panel
    ensures var steps := Only(StepsNeeded(cur, snap.origin, ROLLBACK_ORDER), only);
            var (s', run) := Converge(s, cur, guard, snap.origin, steps, restart);
            Moving(s', snap) && (run.failed == None ==> TakenBack(s.world, s'.world, snap.origin, only))
  {
    hide Converge, Moving, Converged, Reached, BackReady, Only, StepsNeeded, SafeToRevert, ReadFrom, TakenBack, Rank;
    var origin := snap.origin;
    var steps := Only(StepsNeeded(cur, origin, ROLLBACK_ORDER), only);
    MovingFacts(s, snap);
    ReadyToRevert(s.world, cur, snap, only);
    ConvergeStays(s, cur, guard, snap, steps, true, restart);
    var (s', run) := Converge(s, cur, guard, origin, steps, restart);
    Orders();
    NeededOrdered(cur, origin, ROLLBACK_ORDER, true);
    OnlyOrdered(StepsNeeded(cur, origin, ROLLBACK_ORDER), only, true);
    if run.failed == None {
      TakenBackGlue(s.world, s'.world, origin, steps, only, run);
    }
  }

  lemma TakenBackGlue(w: World, w': World, origin: Layers, steps: seq<Step>, only: set<Step>, run: Run)
    requires Converged(w, w', origin, steps, run) && run.failed == None
    requires forall x | x in steps :: x in only
    requires forall x | x in only && x !in steps :: x == BotStep || Reached(w, origin, x)
    ensures TakenBack(w, w', origin, only)
  {
    forall x: Step | x == PanelStep || x == HaproxyStep || x == EnvStep
      ensures if x in only then Reached(w', origin, x) else Kept(x, w, w')
    {
      if x !in steps {
        assert x !in LogSteps(run.log);
        assert Kept(x, w, w');
        if x in only { ReachedKept(w, w', origin, x); }
      }
    }
    hide Reached, LogSteps, Kept;
  }

  lemma EntryLooked(s: Sys, snap: Snapshot)
    requires Moving(s, snap)
    ensures var (s1, entry) := ReadEntry(s);
            Moving(s1, snap) && s1.world == s.world && ReadFrom(s1.world, ValuesFrom(entry, None))
  {
    hide Stairs, Planned, GoodEvent, ReadReality;
    ReadEntryLooks(s);
  }

  lemma RevertStays(s: Sys, snap: Snapshot, attempted: set<Step>, restart: bool)
    requires Moving(s, snap)
    requires SafeToRevert(s.world, snap.origin, Widened(attempted))
    requires Held(snap.origin) && BotStep in Widened(attempted) ==> AtFront(s.world, snap.goal)
    ensures var (s', back, log) := RevertTo(s, snap, attempted, restart);
            Moving(s', snap) && (back ==> TakenBack(s.world, s'.world, snap.origin, Widened(attempted)))
  {
    hide Moving, Converge, Reached, ReadEntry, RevertConflict, StepsNeeded, Only, SafeToRevert, ReadFrom, ValuesFrom, Widened,
         Held, AtFront;
    var only := Widened(attempted);
    EntryLooked(s, snap);
    var (s1, entry) := ReadEntry(s);
    if entry.Some? {
      var cur := ValuesFrom(entry, None);
      ConvergeBack(s1, cur, Some(snap.goal.panel), snap, only, restart);
    }
  }

  // ---- apply -----------------------------------------------------------------------------------

  lemma NoConflictsAttempted(log: seq<Entry>)
    requires forall e | e in log :: !e.conflict
    ensures Attempted(log) == LogSteps(log)
  {
  }

  /** After a quiet forward run, taking back what it attempted is safe. */
  lemma SafeAfterApply(w: World, w1: World, snap: Snapshot, steps: seq<Step>, run: Run)
    requires Stairs(w, snap.origin, snap.goal)
    requires steps == StepsNeeded(AsReading(LayersOf(w)), snap.goal, APPLY_ORDER)
    requires Converged(w, w1, snap.goal, steps, run)
    ensures SafeToRevert(w1, snap.origin, Widened(Attempted(run.log)))
  {
    NoConflictsAttempted(run.log);
    var log := LogSteps(run.log);
    assert PanelStep in log ==> !AtPanel(w, snap.goal);
    assert HaproxyStep in log ==> !AtAcl(w, snap.goal);
    var k0, k1, k2 := Kept(HaproxyStep, w, w1), Kept(EnvStep, w, w1), Kept(BotStep, w, w1);
    assert log * ENV_GROUP == {} ==> EnvStep !in log && BotStep !in log by {
      if EnvStep in log { assert EnvStep in log * ENV_GROUP; }
      if BotStep in log { assert BotStep in log * ENV_GROUP; }
    }
    hide SamePanel, AclEqual, PanelOf, LogSteps, Attempted, Needed, Reached, Held, NoEmptyLine;
  }

  /** A dead process changes nothing. */
  lemma {:induction false} DeadConverges(s: Sys, cur: Reading, guard: Option<PanelValues>, t: Layers, steps: seq<Step>,
                                         restart: bool)
    requires s.script == []
    ensures Converge(s, cur, guard, t, steps, restart).0 == s
    ensures steps != [] && (exists x | x in steps :: x != ProbeStep) ==>
              Converge(s, cur, guard, t, steps, restart).1.failed.Some?
    decreases |steps|
  {
    if steps != [] {
      var (s1, r) := DoStep(s, steps[0], cur, guard, t, restart);
      assert s1 == s && !r.ok;
      if steps[0] == ProbeStep {
        DeadConverges(s1, cur, guard, t, steps[1..], restart);
        if x :| x in steps && x != ProbeStep {
          assert x in steps[1..];
        }
      }
    }
  }

  lemma DeadApplies(s: Sys, snap: Snapshot, plan: Plan, o: Opts)
    requires s.script == [] && plan.Ready?
    ensures ApplyPlan(s, snap, plan, o).0 == s
  {
    DeadConverges(s, AsReading(plan.cur), None, plan.target, plan.steps, o.xrayRestart);
    hide Converge, VerifyChecks, VerifyCode;
  }

  predicate AllReached(w: World, t: Layers) {
    forall x: Step :: Reached(w, t, x)
  }

  /** Panel, ACL and .env exactly as they were. */
  predicate BackAtOrigin(w: World, origin: Layers) {
    PanelOf(w) == origin.panel && w.acl == origin.acl && w.env == origin.env
  }

  lemma StairsAtOrigin(w: World, origin: Layers, goal: Layers)
    requires Stairs(w, origin, goal)
    requires AtPanel(w, origin) && AtAcl(w, origin) && w.env == origin.env
    ensures BackAtOrigin(w, origin)
  {
    assert SamePanel(goal.panel, origin.panel) ==> SamePanel(origin.panel, goal.panel);
    assert AclEqual(goal.acl, origin.acl) ==> AclEqual(origin.acl, goal.acl);
    hide SamePanel, AclEqual, PanelOf;
  }

  lemma SavedStays(s: Sys, snap: Snapshot, status: Status)
    requires Moving(s, snap)
    ensures var s1 := Save(s, snap.(status := status));
            s1.world == s.world && Inv(s1) && Quiet(s1.script)
  {
    if s.script != [] { QuietTail(s); }
    hide Stairs, GoodEvent, PlanTarget;
  }

  lemma InvLooked(s: Sys, s1: Sys)
    requires Inv(s) && OnlyLooked(s, s1)
    ensures Inv(s1)
  {
    hide Stairs, Planned;
  }

  /** The goal as --verify and a new plan see it: all layers agree with it. */
  predicate Rotated(w: World, goal: Layers, withProbe: bool) {
    AllReached(w, goal) && w.probe.present == goal.probe.present && (withProbe ==> ProbeAgrees(w, goal))
  }

  /** What a quiet --apply promises about the status it ends with: applied or
      partial, every layer (the container too) is at the goal; reverted, when
      it started from the origin, panel, ACL and .env are as before. */
  predicate StatusTold(w: World, w': World, origin: Layers, goal: Layers, status: Option<Status>) {
    && (status == Some(StApplied) ==> Rotated(w', goal, true))
    && (status == Some(StPartial) ==> Rotated(w', goal, false))
    && (status == Some(StReverted) && LayersOf(w) == origin ==> BackAtOrigin(w', origin))
  }

  lemma ForwardArrived(w: World, w1: World, goal: Layers, steps: seq<Step>, run: Run)
    requires w.bot.Running? && steps == StepsNeeded(AsReading(LayersOf(w)), goal, APPLY_ORDER)
    requires Converged(w, w1, goal, steps, run) && run.failed == None
    requires w1.probe.present == goal.probe.present
    ensures Rotated(w1, goal, !run.soft)
  {
    ReadyToApply(w, goal);
    forall x: Step ensures Reached(w1, goal, x) {
      if x !in steps {
        assert Reached(w, goal, x) && Kept(x, w, w1);
        ReachedKept(w, w1, goal, x);
      }
      hide Reached, Kept;
    }
    if !run.soft && ProbeStep !in steps {
      EveryStepListed();
      assert !Needed(ProbeStep, AsReading(LayersOf(w)), goal);
      assert ProbeAgrees(w, goal) by { hide AclEqual, SamePanel, ReadReality; }
      assert Kept(ProbeStep, w, w1);
      ProbeKept(w, w1, goal);
    }
    hide Reached, ProbeAgrees, Kept, LogSteps;
  }

  /** Saving a final status, then looking. */
  lemma FinishStays(s: Sys, snap: Snapshot, status: Status, t: Layers, strict: bool)
    requires Moving(s, snap)
    ensures var s1 := Save(s, snap.(status := status));
            && Inv(s1) && s1.world == s.world
            && Inv(RunVerify(s1, t, strict).0) && RunVerify(s1, t, strict).0.world == s.world
  {
    SavedStays(s, snap, status);
    var s1 := Save(s, snap.(status := status));
    VerifyLooks(s1, t, strict);
    InvLooked(s1, RunVerify(s1, t, strict).0);
    hide RunVerify, Save, Inv, Moving, Quiet;
  }

  lemma RevertAfterApply(s: Sys, s1: Sys, snap: Snapshot, steps: seq<Step>, run: Run, restart: bool)
    requires Moving(s, snap) && Moving(s1, snap)
    requires steps == StepsNeeded(AsReading(LayersOf(s.world)), snap.goal, APPLY_ORDER)
    requires Converged(s.world, s1.world, snap.goal, steps, run)
    requires LogSteps(run.log) * ENV_GROUP != {} ==> AtFront(s1.world, snap.goal)
    ensures var (s2, back, _) := RevertTo(s1, snap, Attempted(run.log), restart);
            && Moving(s2, snap)
            && (back && LayersOf(s.world) == snap.origin ==> BackAtOrigin(s2.world, snap.origin))
  {
    SafeAfterApply(s.world, s1.world, snap, steps, run);
    var attempted := Attempted(run.log);
    BotMeansGroup(snap.goal, steps, run, s.world, s1.world);
    RevertStays(s1, snap, attempted, restart);
    var (s2, back, _) := RevertTo(s1, snap, attempted, restart);
    if back && LayersOf(s.world) == snap.origin {
      RevertedExactly(s.world, s1.world, s2.world, snap, steps, run);
    }
    hide RevertTo, Converged, LayersOf, Stairs, StepsNeeded, SafeToRevert, TakenBack, BackAtOrigin, Planned, GoodTrace,
         Attempted, Quiet;
  }

  lemma BotMeansGroup(goal: Layers, steps: seq<Step>, run: Run, w: World, w1: World)
    requires Converged(w, w1, goal, steps, run)
    ensures BotStep in Widened(Attempted(run.log)) ==> LogSteps(run.log) * ENV_GROUP != {}
  {
    NoConflictsAttempted(run.log);
    var log := LogSteps(run.log);
    if BotStep in Widened(log) && BotStep in log { assert BotStep in log * ENV_GROUP; }
    hide LogSteps, Attempted;
  }

  lemma MovingProbe(s: Sys, snap: Snapshot)
    requires Moving(s, snap)
    ensures s.world.probe.present == snap.goal.probe.present
  {
  }

  lemma ApplyPlanStays(s: Sys, snap: Snapshot, plan: Plan, o: Opts)
    requires Moving(s, snap) && plan.Ready? && s.world.bot.Running?
    requires plan.cur == LayersOf(s.world) && plan.target == snap.goal
    requires plan.steps == StepsNeeded(AsReading(plan.cur), plan.target, APPLY_ORDER)
    ensures var (s', outcome) := ApplyPlan(s, snap, plan, o);
            Inv(s') && StatusTold(s.world, s'.world, snap.origin, snap.goal, outcome.status)
  {
    hide Converge, RevertTo, RunVerify, Moving, Inv, Save, ForwardReady, Converged, Rotated, StepsNeeded,
         SafeToRevert, Quiet, OnlyLooked, BackAtOrigin, LayersOf, RestartedIn, AsReading, Attempted, AtFront, LogSteps;
    ReadyToApply(s.world, snap.goal);
    var cur := AsReading(plan.cur);
    ConvergeStays(s, cur, None, snap, plan.steps, false, o.xrayRestart);
    var (s1, run) := Converge(s, cur, None, snap.goal, plan.steps, o.xrayRestart);
    if run.failed == None {
      FinishStays(s1, snap, if run.soft then StPartial else StApplied, snap.goal, RestartedIn(run.log));
      MovingProbe(s1, snap);
      ForwardArrived(s.world, s1.world, snap.goal, plan.steps, run);
    } else if o.autoRevert {
      GroupAtFront(s, cur, snap, plan.steps, o.xrayRestart);
      RevertAfterApply(s, s1, snap, plan.steps, run, o.xrayRestart);
      var (s2, back, _) := RevertTo(s1, snap, Attempted(run.log), o.xrayRestart);
      FinishStays(s2, snap, if back then StReverted else StFailed, snap.origin, false);
    } else {
      SavedStays(s1, snap, StFailed);
    }
  }

  lemma RevertedExactly(w: World, w1: World, w2: World, snap: Snapshot, steps: seq<Step>, run: Run)
    requires LayersOf(w) == snap.origin
    requires Converged(w, w1, snap.goal, steps, run)
    requires Stairs(w2, snap.origin, snap.goal)
    requires TakenBack(w1, w2, snap.origin, Widened(Attempted(run.log)))
    ensures BackAtOrigin(w2, snap.origin)
  {
    NoConflictsAttempted(run.log);
    SamePanelSelf(snap.origin.panel);
    AclEqualSelf(snap.origin.acl);
    forall x: Step | x == PanelStep || x == HaproxyStep || x == EnvStep ensures Reached(w2, snap.origin, x) {
      if x !in Widened(Attempted(run.log)) {
        assert x !in LogSteps(run.log);
        assert Kept(x, w, w1) && Kept(x, w1, w2);
      }
      hide LogSteps, Attempted, AclEqual, SamePanel, ReadReality;
    }
    var r0, r1, r2 := Reached(w2, snap.origin, PanelStep), Reached(w2, snap.origin, HaproxyStep), Reached(w2, snap.origin, EnvStep);
    StairsAtOrigin(w2, snap.origin, snap.goal);
    hide LogSteps, Attempted, AclEqual, SamePanel, ReadReality, Stairs, Converged;
  }

  /** What --apply is heading for: the goal it resumes, or the one it plans
      from what the layers hold now. */
  function Heading(s: Sys, o: Opts): Layers {
    if Resumes(s.disk) then s.disk.value.goal else PlanTarget(LayersOf(s.world), o.sni, o.dest, o.keepOld)
  }

  lemma FreshSnapshotOnStairs(w: World, o: Opts)
    requires ValidOpts(o) && w.stream.reality.Some? && LayersOf(w).panel.dest != map[] && w.bot.Running?
    ensures var snap := Snapshot(StPending, o.sni, o.dest, o.keepOld, LayersOf(w),
                                 PlanTarget(LayersOf(w), o.sni, o.dest, o.keepOld));
            && Planned(snap) && Stairs(w, snap.origin, snap.goal)
            && w.probe.present == snap.goal.probe.present
  {
    AclEqualSelf(w.acl);
    SamePanelSelf(PanelOf(w));
    hide SamePanel, AclEqual, TransformNames, NewNames, RemovedNames;
  }

  lemma ArchivedStays(s: Sys)
    requires Inv(s) && Quiet(s.script)
    ensures var s1 := Archive(s); s1.world == s.world && Inv(s1) && Quiet(s1.script)
  {
    if s.script != [] { QuietTail(s); }
    hide Stairs, Planned, GoodEvent;
  }

  /** Saving the pending snapshot starts the run, unless the process is dead. */
  lemma SavedMoves(s: Sys, snap: Snapshot)
    requires Inv(s) && Quiet(s.script)
    requires Unfinished(snap.status) && Planned(snap) && Stairs(s.world, snap.origin, snap.goal)
    ensures var s1 := Save(s, snap);
            s1.world == s.world && (s.script == [] ==> s1 == s) && (s.script != [] ==> Moving(s1, snap))
  {
    OverwrittenMoves(s, snap);
    hide Stairs, Planned, GoodEvent;
  }

  /** It does not matter what the snapshot it replaces said. */
  lemma OverwrittenMoves(s: Sys, snap: Snapshot)
    requires GoodTrace(s) && Quiet(s.script)
    requires Unfinished(snap.status) && Planned(snap) && Stairs(s.world, snap.origin, snap.goal)
    ensures var s1 := Save(s, snap);
            s1.world == s.world && (s.script == [] ==> s1 == s) && (s.script != [] ==> Moving(s1, snap))
  {
    if s.script != [] { QuietTail(s); }
    hide Stairs, Planned, GoodEvent;
  }

  lemma DeadStatus(s: Sys, snap: Snapshot, plan: Plan, o: Opts)
    requires s.script == [] && plan.Ready? && plan.target == snap.goal && s.world.bot.Running?
    requires plan.cur == LayersOf(s.world) && s.world.probe.present == snap.goal.probe.present
    requires plan.steps == StepsNeeded(AsReading(plan.cur), plan.target, APPLY_ORDER)
    ensures var (s', outcome) := ApplyPlan(s, snap, plan, o);
            s' == s && StatusTold(s.world, s'.world, snap.origin, snap.goal, outcome.status)
  {
    hide SamePanel, AclEqual, ReadReality;
    hide Converge, RunVerify, Reached, StepsNeeded, ProbeAgrees, LayersOf, RevertTo, ForwardReady, StatusTold, AllReached;
    DeadApplies(s, snap, plan, o);
    DeadConverges(s, AsReading(plan.cur), None, plan.target, plan.steps, o.xrayRestart);
    DeadSoft(s, AsReading(plan.cur), None, plan.target, plan.steps, o.xrayRestart);
    var (s1, run) := Converge(s, AsReading(plan.cur), None, plan.target, plan.steps, o.xrayRestart);
    if run.failed == None {
      OnlyProbeLeft(s.world, plan.target);
      DeadTold(s.world, snap, run.soft);
    } else {
      DeadFailedTold(s.world, snap);
    }
  }

  lemma DeadTold(w: World, snap: Snapshot, soft: bool)
    requires Rotated(w, snap.goal, !soft)
    ensures StatusTold(w, w, snap.origin, snap.goal, Some(if soft then StPartial else StApplied))
  {
    hide AllReached, ProbeAgrees;
  }

  lemma DeadFailedTold(w: World, snap: Snapshot)
    ensures StatusTold(w, w, snap.origin, snap.goal, Some(StFailed))
    ensures StatusTold(w, w, snap.origin, snap.goal, Some(StReverted))
  {
    hide AllReached, ProbeAgrees, ReadReality;
  }

  lemma OnlyProbeLeft(w: World, goal: Layers)
    requires w.bot.Running? && w.probe.present == goal.probe.present
    requires forall x | x in StepsNeeded(AsReading(LayersOf(w)), goal, APPLY_ORDER) :: x == ProbeStep
    ensures Rotated(w, goal, ProbeStep !in StepsNeeded(AsReading(LayersOf(w)), goal, APPLY_ORDER))
  {
    hide SamePanel, AclEqual, ReadReality, LayersOf, Reached;
    var steps := StepsNeeded(AsReading(LayersOf(w)), goal, APPLY_ORDER);
    EveryStepListed();
    forall x: Step ensures Reached(w, goal, x) {
      ExactReading(w, goal, x);
      if x == ProbeStep { ProbeReached(w, goal); }
    }
    if ProbeStep !in steps { ProbeNotNeeded(w, goal); }
  }

  lemma ProbeNotNeeded(w: World, goal: Layers)
    requires !Needed(ProbeStep, AsReading(LayersOf(w)), goal)
    ensures ProbeAgrees(w, goal)
  {
    hide SamePanel, AclEqual, ReadReality;
  }

  lemma {:induction false} DeadSoft(s: Sys, cur: Reading, guard: Option<PanelValues>, t: Layers, steps: seq<Step>,
                                    restart: bool)
    requires s.script == []
    ensures ProbeStep in steps && Converge(s, cur, guard, t, steps, restart).1.failed == None ==>
              Converge(s, cur, guard, t, steps, restart).1.soft
    decreases |steps|
  {
    if steps != [] {
      assert !DoStep(s, steps[0], cur, guard, t, restart).1.ok;
    }
  }

  /** Any quiet --apply, fresh or resumed, dying anywhere. */
  lemma ApplyStays(s: Sys, o: Opts)
    requires Inv(s) && Quiet(s.script) && ValidOpts(o)
    ensures var (s', outcome) := CmdApply(s, o);
            && Inv(s')
            && StatusTold(s.world, s'.world,
                          if Resumes(s.disk) then s.disk.value.origin else LayersOf(s.world),
                          Heading(s, o), outcome.status)
  {
    hide RunCheck, ApplyPlan, Archive, Save, Stairs, PlanTarget, LayersOf, StepsNeeded, StatusTold, GoodTrace, Planned,
         SameOptions, Quiet, Moving, Rotated, BackAtOrigin;
    var existing, resume := s.disk, Resumes(s.disk);
    var override := if resume then Some(existing.value.goal) else None;
    CheckLooks(s, o, override);
    var (s1, plan) := RunCheck(s, o, override);
    InvLooked(s, s1);
    NoStatusTold(s.world, if resume then existing.value.origin else LayersOf(s.world), Heading(s, o));
    if (!resume || SameOptions(existing.value, o)) && plan.Ready? {
      if resume { SnapshotFacts(s, StPending); } else { FreshSnapshotOnStairs(s.world, o); }
      if plan.steps == [] {
        if resume {
          NothingToDo(s.world, plan.target);
          ResavedStays(s1, existing.value, StApplied);
        }
      } else if o.yes {
        var s2 := if !resume && existing.Some? then Archive(s1) else s1;
        ArchivedStays(s1);
        var snap := if resume then existing.value.(status := StPending) else NewSnapshot(plan, o);
        SavedMoves(s2, snap);
        var s3 := Save(s2, snap);
        if s2.script == [] {
          DeadStatus(s3, snap, plan, o);
        } else {
          ApplyPlanStays(s3, snap, plan, o);
        }
      }
    }
  }

  /** Where --apply may start: anywhere, when it is a fresh run; a resumed one
      goes on from its snapshot. */
  predicate Startable(s: Sys) {
    GoodTrace(s) && (Resumes(s.disk) ==> Inv(s))
  }

  /** What --apply says about its end is true, whatever has become of the layers
      since an earlier rotation finished. */
  lemma ApplyTells(s: Sys, o: Opts)
    requires Startable(s) && Quiet(s.script) && ValidOpts(o)
    ensures var (s', outcome) := CmdApply(s, o);
            StatusTold(s.world, s'.world,
                       if Resumes(s.disk) then s.disk.value.origin else LayersOf(s.world),
                       Heading(s, o), outcome.status)
  {
    if Resumes(s.disk) {
      ApplyStays(s, o);
    } else {
      FreshApplyTells(s, o);
    }
    hide CmdApply, StatusTold, Heading, LayersOf;
  }

  lemma FreshApplyTells(s: Sys, o: Opts)
    requires GoodTrace(s) && Quiet(s.script) && ValidOpts(o) && !Resumes(s.disk)
    ensures var (s', outcome) := CmdApply(s, o);
            StatusTold(s.world, s'.world, LayersOf(s.world), Heading(s, o), outcome.status)
  {
    hide RunCheck, ApplyPlan, Archive, Save, Stairs, PlanTarget, LayersOf, StepsNeeded, StatusTold, GoodTrace, Planned,
         SameOptions, Quiet, Moving, Rotated, BackAtOrigin;
    CheckLooks(s, o, None);
    var (s1, plan) := RunCheck(s, o, None);
    LookedTrace(s, s1);
    NoStatusTold(s.world, LayersOf(s.world), Heading(s, o));
    if plan.Ready? && plan.steps != [] && o.yes {
      DestMeansReality(s.world);
      FreshSnapshotOnStairs(s.world, o);
      var s2 := if s.disk.Some? then Archive(s1) else s1;
      ArchiveLooks(s1);
      var snap := NewSnapshot(plan, o);
      OverwrittenMoves(s2, snap);
      var s3 := Save(s2, snap);
      if s2.script == [] {
        DeadStatus(s3, snap, plan, o);
      } else {
        ApplyPlanStays(s3, snap, plan, o);
      }
    }
  }

  lemma LookedTrace(s: Sys, s1: Sys)
    requires GoodTrace(s) && OnlyLooked(s, s1)
    ensures GoodTrace(s1)
  {
    hide GoodEvent;
  }

  lemma ArchiveLooks(s: Sys)
    requires GoodTrace(s) && Quiet(s.script)
    ensures var s1 := Archive(s); s1.world == s.world && GoodTrace(s1) && Quiet(s1.script)
  {
    if s.script != [] { QuietTail(s); }
    hide GoodEvent;
  }

  lemma DestMeansReality(w: World)
    ensures LayersOf(w).panel.dest != map[] ==> w.stream.reality.Some?
  {
  }

  lemma NoStatusTold(w: World, origin: Layers, goal: Layers)
    ensures forall w' :: StatusTold(w, w', origin, goal, None)
    ensures Rotated(w, goal, true) ==> StatusTold(w, w, origin, goal, Some(StApplied))
  {
    hide Rotated, BackAtOrigin;
  }

  lemma SnapshotFacts(s: Sys, status: Status)
    requires Inv(s) && s.disk.Some?
    ensures Planned(s.disk.value.(status := status))
    ensures Stairs(s.world, s.disk.value.origin, s.disk.value.goal)
    ensures s.world.probe.present == s.disk.value.goal.probe.present
  {
  }

  lemma NothingToDo(w: World, goal: Layers)
    requires w.bot.Running? && StepsNeeded(AsReading(LayersOf(w)), goal, APPLY_ORDER) == []
    requires w.probe.present == goal.probe.present
    ensures Rotated(w, goal, true)
  {
    OnlyProbeLeft(w, goal);
  }

  lemma ResavedStays(s: Sys, snap: Snapshot, status: Status)
    requires Inv(s) && Quiet(s.script) && s.disk == Some(snap)
    ensures var s1 := Save(s, snap.(status := status)); s1.world == s.world && Inv(s1) && Quiet(s1.script)
  {
    if s.script != [] { QuietTail(s); }
    hide Stairs, GoodEvent, PlanTarget;
  }
}
