/** Runs with somebody else editing the layers between operations: what a write
    may replace, and under which snapshot. Nothing here assumes a quiet
    script. */
module Interference {
  import opened Wrappers
  import opened Names
  import opened Planning
  import opened Reality
  import opened World
  import opened Verification
  import opened Rotation
  import opened Staircase
  import opened Histories
  import opened Guarantees

  /** A write replaced a value that agrees with one of two known ones, put the
      target's in its place, and touched nothing else. */
  predicate WriteFrom(e: Event, a: Layers, b: Layers, t: Layers) {
    && OthersKept(e.op, e.before, e.after)
    && match e.op
       case PanelStep =>
         && (SamePanel(PanelOf(e.before), a.panel) || SamePanel(PanelOf(e.before), b.panel))
         && Some(e.after.stream) == ApplyRealityChanges(e.before.stream, t.panel)
       case HaproxyStep =>
         && (AclEqual(e.before.acl, a.acl) || AclEqual(e.before.acl, b.acl))
         && e.after.acl == t.acl
       case EnvStep => (e.before.env == a.env || e.before.env == b.env) && e.after.env == t.env
       case BotStep => e.after.bot.Down? || e.after.bot.sni == Effective(e.before.env, e.before.composeDefault)
       case ProbeStep => e.after.probe.serverName == t.env
  }

  /** The value a step will compare with is one of the two known ones. */
  predicate Basis(cur: Reading, guard: Option<PanelValues>, step: Step, a: Layers, b: Layers) {
    match step
    case PanelStep =>
      if cur.panel.Some? then SamePanel(cur.panel.value, a.panel) || SamePanel(cur.panel.value, b.panel)
      else guard.Some? && (SamePanel(guard.value, a.panel) || SamePanel(guard.value, b.panel))
    case HaproxyStep => cur.acl.Some? ==> AclEqual(cur.acl.value, a.acl) || AclEqual(cur.acl.value, b.acl)
    case EnvStep => cur.env.Some? ==> cur.env.value == a.env || cur.env.value == b.env
    case BotStep => true
    case ProbeStep => true
  }

  lemma AclEqualTransitive(x: AclLines, y: AclLines, z: AclLines)
    requires AclEqual(x, y) && AclEqual(y, z)
    ensures AclEqual(x, z)
  {
    forall i | 0 <= i < |x| ensures SameNames(x[i], z[i]) {
      assert SameNames(x[i], y[i]) && SameNames(y[i], z[i]);
    }
  }

  /** At most one new write, of this step, from a known value. */
  predicate WroteOnce(s: Sys, s1: Sys, step: Step, a: Layers, b: Layers, t: Layers) {
    && s1.disk == s.disk
    && (s1.trace == s.trace
        || (|s1.trace| == |s.trace| + 1 && s1.trace[..|s.trace|] == s.trace
            && s1.trace[|s.trace|].op == step
            && s1.trace[|s.trace|].disk == s.disk
            && s.script != []
            && WriteFrom(s1.trace[|s.trace|], a, b, t)))
  }

  lemma PanelWrites(s: Sys, expected: PanelValues, a: Layers, b: Layers, t: Layers, restart: bool)
    requires SamePanel(expected, a.panel) || SamePanel(expected, b.panel)
    ensures WroteOnce(s, PanelSet(s, expected, t.panel, restart).0, PanelStep, a, b, t)
  {
    hide AclEqual, ReadReality, ApplyRealityChanges;
  }

  lemma StepWrites(s: Sys, step: Step, cur: Reading, guard: Option<PanelValues>, a: Layers, b: Layers, t: Layers,
                   restart: bool)
    requires Basis(cur, guard, step, a, b)
    ensures WroteOnce(s, DoStep(s, step, cur, guard, t, restart).0, step, a, b, t)
  {
    if step == PanelStep {
      PanelStepWrites(s, cur, guard, a, b, t, restart);
    } else {
      if step == HaproxyStep && s.script != [] && cur.acl.Some? && AclEqual(Begin(s).world.acl, cur.acl.value) {
        if AclEqual(cur.acl.value, a.acl) { AclEqualTransitive(Begin(s).world.acl, cur.acl.value, a.acl); }
        if AclEqual(cur.acl.value, b.acl) { AclEqualTransitive(Begin(s).world.acl, cur.acl.value, b.acl); }
      }
      hide SamePanel, AclEqual, ReadReality, PanelSet;
    }
  }

  lemma PanelStepWrites(s: Sys, cur: Reading, guard: Option<PanelValues>, a: Layers, b: Layers, t: Layers, restart: bool)
    requires Basis(cur, guard, PanelStep, a, b)
    ensures WroteOnce(s, DoStep(s, PanelStep, cur, guard, t, restart).0, PanelStep, a, b, t)
  {
    if cur.panel.Some? {
      PanelWrites(s, cur.panel.value, a, b, t, restart);
    } else {
      var (s1, r) := ReadPanel(s);
      if r.Some? && !SamePanel(r.value, t.panel) && SamePanel(r.value, guard.value) {
        PanelWrites(s1, r.value, a, b, t, restart);
      }
    }
    hide PanelSet, SamePanel, ReadReality, WriteFrom;
  }

  /** Every write of a stretch of a run came from a known value, under the
      snapshot that was on disk when it began. */
  predicate Wrote(s: Sys, s1: Sys, a: Layers, b: Layers, t: Layers) {
    && s1.disk == s.disk
    && |s.trace| <= |s1.trace| && s1.trace[..|s.trace|] == s.trace
    && forall i | |s.trace| <= i < |s1.trace| :: s1.trace[i].disk == s.disk && WriteFrom(s1.trace[i], a, b, t)
  }

  lemma WroteGlue(s: Sys, s1: Sys, s2: Sys, step: Step, a: Layers, b: Layers, t: Layers)
    requires WroteOnce(s, s1, step, a, b, t) && Wrote(s1, s2, a, b, t)
    ensures Wrote(s, s2, a, b, t)
  {
    hide WriteFrom;
    forall i | 0 <= i < |s1.trace| ensures s2.trace[i] == s1.trace[i] {
      assert s2.trace[..|s1.trace|][i] == s2.trace[i];
    }
    assert s2.trace[..|s.trace|] == s2.trace[..|s1.trace|][..|s.trace|];
  }

  lemma {:induction false} ConvergeWrites(s: Sys, cur: Reading, guard: Option<PanelValues>, a: Layers, b: Layers, t: Layers,
                                          steps: seq<Step>, back: bool, restart: bool)
    requires Ordered(steps, back)
    requires forall x | x in steps :: Basis(cur, guard, x, a, b)
    ensures Wrote(s, Converge(s, cur, guard, t, steps, restart).0, a, b, t)
    decreases |steps|
  {
    hide DoStep, Advance, Basis, Wrote, WriteFrom, WroteOnce, Rank;
    if steps != [] {
      var step := steps[0];
      assert step in steps;
      StepWrites(s, step, cur, guard, a, b, t, restart);
      var (s1, r) := DoStep(s, step, cur, guard, t, restart);
      if r.ok || step == ProbeStep {
        var cur1 := if r.ok then Advance(cur, step, t, r) else cur;
        RestExcludes(steps, back);
        forall x | x in steps[1..] ensures Basis(cur1, guard, x, a, b) {
          BasisKept(cur, guard, step, t, r, x, a, b);
        }
        ConvergeWrites(s1, cur1, guard, a, b, t, steps[1..], back, restart);
        WroteGlue(s, s1, Converge(s1, cur1, guard, t, steps[1..], restart).0, step, a, b, t);
      } else {
        WroteNothing(s1, a, b, t);
        WroteGlue(s, s1, s1, step, a, b, t);
      }
    } else {
      WroteNothing(s, a, b, t);
    }
  }

  lemma WroteNothing(s: Sys, a: Layers, b: Layers, t: Layers)
    ensures Wrote(s, s, a, b, t)
  {
  }

  lemma BasisKept(cur: Reading, guard: Option<PanelValues>, step: Step, t: Layers, r: StepResult, x: Step, a: Layers, b: Layers)
    requires x != step && Basis(cur, guard, x, a, b)
    ensures Basis(Advance(cur, step, t, r), guard, x, a, b)
  {
    hide SamePanel, AclEqual;
  }

  /** Auto-revert replaces only the rotation's own old and new values. */
  lemma RevertWrites(s: Sys, snap: Snapshot, attempted: set<Step>, restart: bool)
    ensures Wrote(s, RevertTo(s, snap, attempted, restart).0, snap.origin, snap.goal, snap.origin)
  {
    hide Converge, StepsNeeded, Only, Wrote, SamePanel, AclEqual, ReadReality;
    WroteNothing(s, snap.origin, snap.goal, snap.origin);
    var only := Widened(attempted);
    var (s1, entry) := ReadEntry(s);
    assert s1.trace == s.trace && s1.disk == s.disk;
    WroteNothing(s1, snap.origin, snap.goal, snap.origin);
    SameTraceWrote(s, s1, s1, snap.origin, snap.goal, snap.origin);
    if entry.Some? {
      var cur := ValuesFrom(entry, None);
      if !RevertConflict(cur, snap, only) {
        var all := StepsNeeded(cur, snap.origin, ROLLBACK_ORDER);
        var steps := Only(all, only);
        Orders();
        NeededOrdered(cur, snap.origin, ROLLBACK_ORDER, true);
        OnlyOrdered(all, only, true);
        SamePanelSelf(snap.goal.panel);
        forall x | x in steps ensures Basis(cur, Some(snap.goal.panel), x, snap.origin, snap.goal) {
          assert x in only;
        }
        ConvergeWrites(s1, cur, Some(snap.goal.panel), snap.origin, snap.goal, snap.origin, steps, true, restart);
        SameTraceWrote(s, s1, Converge(s1, cur, Some(snap.goal.panel), snap.origin, steps, restart).0,
                       snap.origin, snap.goal, snap.origin);
      }
    }
  }

  lemma SameTraceWrote(s: Sys, s1: Sys, s2: Sys, a: Layers, b: Layers, t: Layers)
    requires s1.trace == s.trace && s1.disk == s.disk && Wrote(s1, s2, a, b, t)
    ensures Wrote(s, s2, a, b, t)
  {
  }

  /** What every write of a command must satisfy: it was made under a saved,
      unfinished snapshot, and replaced either what this run's check had read
      (moving to the plan's target) or one of the snapshot's own two values
      (moving back). */
  predicate Justified(e: Event, plan: Plan) {
    && Resumes(e.disk)
    && (|| (plan.Ready? && WriteFrom(e, plan.cur, plan.cur, plan.target))
        || WriteFrom(e, e.disk.value.origin, e.disk.value.goal, e.disk.value.origin))
  }

  predicate AllJustified(s: Sys, s1: Sys, plan: Plan) {
    && |s.trace| <= |s1.trace| && s1.trace[..|s.trace|] == s.trace
    && forall i | |s.trace| <= i < |s1.trace| :: Justified(s1.trace[i], plan)
  }

  lemma LooksKeepTrace(s: Sys, t: Layers, strict: bool)
    ensures RunVerify(s, t, strict).0.trace == s.trace
  {
    hide VerifyChecks, VerifyCode, ReadReality;
  }

  lemma CheckKeepsTrace(s: Sys, o: Opts, override: Option<Layers>)
    ensures RunCheck(s, o, override).0.trace == s.trace
    ensures RunCheck(s, o, override).1.Ready? ==>
              RunCheck(s, o, override).1.steps
              == StepsNeeded(AsReading(RunCheck(s, o, override).1.cur), RunCheck(s, o, override).1.target, APPLY_ORDER)
    ensures RunCheck(s, o, override).1.Ready? && override.Some? ==> RunCheck(s, o, override).1.target == override.value
  {
    hide StepsNeeded, PlanTarget, ReadReality, NoEmptyLine;
  }

  lemma ApplyPlanJustified(s: Sys, snap: Snapshot, plan: Plan, o: Opts)
    requires plan.Ready? && plan.steps == StepsNeeded(AsReading(plan.cur), plan.target, APPLY_ORDER)
    requires s.disk == Some(snap) && Unfinished(snap.status)
    ensures AllJustified(s, ApplyPlan(s, snap, plan, o).0, plan)
  {
    hide Converge, RunVerify, RevertTo, RestartedIn, Attempted, StepsNeeded, Wrote, AllJustified, Save;
    var cur := AsReading(plan.cur);
    Orders();
    NeededOrdered(cur, plan.target, APPLY_ORDER, false);
    forall x | x in plan.steps ensures Basis(cur, None, x, plan.cur, plan.cur) { OwnBasis(plan.cur, x); }
    ConvergeWrites(s, cur, None, plan.cur, plan.cur, plan.target, plan.steps, false, o.xrayRestart);
    var (s1, run) := Converge(s, cur, None, plan.target, plan.steps, o.xrayRestart);
    ConvergeKeepsDisk(s, cur, None, plan.target, plan.steps, o.xrayRestart);
    RevertWrites(s1, snap, Attempted(run.log), o.xrayRestart);
    var (s2, back, _) := RevertTo(s1, snap, Attempted(run.log), o.xrayRestart);
    JustifiedGlue(s, s1, s2, snap, plan);
    FinishJustified(s, s1, plan, snap.(status := if run.soft then StPartial else StApplied), snap.goal, RestartedIn(run.log));
    FinishJustified(s, s1, plan, snap.(status := StFailed), snap.goal, false);
    FinishJustified(s, s2, plan, snap.(status := if back then StReverted else StFailed), snap.origin, false);
  }

  lemma OwnBasis(cur: Layers, x: Step)
    ensures Basis(AsReading(cur), None, x, cur, cur)
  {
    SamePanelSelf(cur.panel);
    AclEqualSelf(cur.acl);
    hide SamePanel, AclEqual;
  }

  /** Saving a status and looking write no layer. */
  lemma FinishJustified(s: Sys, s1: Sys, plan: Plan, snap: Snapshot, t: Layers, strict: bool)
    requires AllJustified(s, s1, plan)
    ensures AllJustified(s, Save(s1, snap), plan) && AllJustified(s, RunVerify(Save(s1, snap), t, strict).0, plan)
  {
    LooksKeepTrace(Save(s1, snap), t, strict);
    hide RunVerify, Justified;
  }

  lemma JustifiedGlue(s: Sys, s1: Sys, s2: Sys, snap: Snapshot, plan: Plan)
    requires plan.Ready? && s.disk == Some(snap) && Unfinished(snap.status)
    requires Wrote(s, s1, plan.cur, plan.cur, plan.target)
    requires Wrote(s1, s2, snap.origin, snap.goal, snap.origin)
    ensures AllJustified(s, s1, plan) && AllJustified(s, s2, plan)
  {
    hide WriteFrom;
    forall i | 0 <= i < |s1.trace| ensures s2.trace[i] == s1.trace[i] {
      assert s2.trace[..|s1.trace|][i] == s2.trace[i];
    }
    assert s2.trace[..|s.trace|] == s2.trace[..|s1.trace|][..|s.trace|];
  }

  /** No clobber, apply: with an adversary editing the layers between any two
      operations, every write of a run is justified by its own check or by its
      own snapshot, which was saved before it. */
  lemma ApplyClobbersNothing(s: Sys, o: Opts)
    ensures var plan := RunCheck(s, o, if Resumes(s.disk) then Some(s.disk.value.goal) else None).1;
            AllJustified(s, CmdApply(s, o).0, plan)
  {
    hide RunCheck, ApplyPlan, WriteFrom, StepsNeeded;
    var resume := Resumes(s.disk);
    var override := if resume then Some(s.disk.value.goal) else None;
    CheckKeepsTrace(s, o, override);
    CheckKeepsDisk(s, o, override);
    var (s1, plan) := RunCheck(s, o, override);
    if (!resume || SameOptions(s.disk.value, o)) && plan.Ready? && plan.steps != [] && o.yes {
      var s2 := if !resume && s.disk.Some? then Archive(s1) else s1;
      var snap := if resume then s.disk.value.(status := StPending) else NewSnapshot(plan, o);
      var s3 := Save(s2, snap);
      if s2.script == [] {
        DeadApplies(s3, snap, plan, o);
      } else {
        ApplyPlanJustified(s3, snap, plan, o);
      }
    }
  }

  /** No clobber, rollback: every write replaces one of the snapshot's two
      values, under that snapshot; any other value is left alone. */
  lemma RollbackClobbersNothing(s: Sys, restart: bool, yes: bool)
    ensures AllJustified(s, CmdRollback(s, restart, yes).0, Blind)
  {
    hide RunVerify, Converge, StepsNeeded, WriteFrom, ReadReality, SamePanel, AclEqual, RestartedIn;
    if s.disk.Some? {
      var snap := s.disk.value;
      var (s1, entry) := ReadEntry(s);
      var (s2, panel) := ReadPanel(s1);
      var r := ValuesFrom(entry, panel);
      if Complete(r) {
        var cur := AllValues(r);
        LooksKeepTrace(s2, snap.origin, false);
        LooksKeepTrace(Save(s2, snap.(status := StRolledBack)), snap.origin, false);
        if !RollbackConflict(cur, snap) {
          RollBackJustified(s2, snap, cur, restart);
        }
      }
    }
  }

  lemma RollBackJustified(s: Sys, snap: Snapshot, cur: Layers, restart: bool)
    requires !RollbackConflict(cur, snap)
    ensures AllJustified(s, RollBackNow(s, snap, cur, restart).0, Blind)
  {
    hide RunVerify, Converge, StepsNeeded, WriteFrom, SamePanel, AclEqual, RestartedIn;
    var rolling := snap.(status := StRollingBack);
    var s1 := Save(s, rolling);
    var steps := StepsNeeded(AsReading(cur), snap.origin, ROLLBACK_ORDER);
    Orders();
    NeededOrdered(AsReading(cur), snap.origin, ROLLBACK_ORDER, true);
    forall x | x in steps ensures Basis(AsReading(cur), None, x, snap.origin, snap.goal) { }
    ConvergeWrites(s1, AsReading(cur), None, snap.origin, snap.goal, snap.origin, steps, true, restart);
    var (s2, run) := Converge(s1, AsReading(cur), None, snap.origin, steps, restart);
    if s.script == [] {
      DeadConverges(s, AsReading(cur), None, snap.origin, steps, restart);
    }
    LooksKeepTrace(Save(s2, snap.(status := if run.failed == None then StRolledBack else StFailed)), snap.origin,
                   RestartedIn(run.log));
  }
}
