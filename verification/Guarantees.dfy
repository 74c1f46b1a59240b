/** What an operator gets from the staircase: atomic fresh runs that agree with
    --verify, and a snapshot that no command loses. */
module Guarantees {
  import opened Wrappers
  import opened Names
  import opened Planning
  import opened Reality
  import opened World
  import opened Verification
  import opened Rotation
  import opened Staircase
  import opened Histories
  import opened Recovery

  // ---- fresh runs --------------------------------------------------------------------------------

  /** A fresh --apply without interference, whatever fails, wherever it dies and
      whatever a finished rotation left on disk: applied or partial means
      panel, ACL, .env and container are all at the planned values; reverted
      means panel, ACL and .env are exactly as before. */
  lemma FreshApplyIsAtomic(s: Sys, o: Opts)
    requires GoodTrace(s) && Quiet(s.script) && ValidOpts(o) && !Resumes(s.disk)
    ensures var (s', outcome) := CmdApply(s, o);
            var goal := PlanTarget(LayersOf(s.world), o.sni, o.dest, o.keepOld);
            && (outcome.status == Some(StApplied) || outcome.status == Some(StPartial) ==>
                  && AtPanel(s'.world, goal) && AtAcl(s'.world, goal) && s'.world.env == Some(o.sni)
                  && s'.world.bot.Running? && s'.world.bot.sni == Some(o.sni))
            && (outcome.status == Some(StReverted) ==> BackAtOrigin(s'.world, LayersOf(s.world)))
  {
    hide CmdApply, GoodTrace, Quiet, AtPanel, AtAcl, PlanTarget, LayersOf, BackAtOrigin, Rotated, ValidOpts;
    ApplyTells(s, o);
    var (s', outcome) := CmdApply(s, o);
    var goal := PlanTarget(LayersOf(s.world), o.sni, o.dest, o.keepOld);
    PlanSetsSni(LayersOf(s.world), o);
    if outcome.status == Some(StApplied) || outcome.status == Some(StPartial) {
      RotatedFully(s'.world, goal, outcome.status == Some(StApplied));
    }
  }

  lemma PlanSetsSni(cur: Layers, o: Opts)
    ensures PlanTarget(cur, o.sni, o.dest, o.keepOld).env == Some(o.sni)
  {
    hide TransformNames, NewNames, RemovedNames;
  }

  lemma RotatedFully(w: World, goal: Layers, withProbe: bool)
    requires Rotated(w, goal, withProbe) && goal.env.Some?
    ensures AtPanel(w, goal) && AtAcl(w, goal) && w.env == goal.env && w.bot.Running? && w.bot.sni == goal.env
  {
    hide SamePanel, AclEqual, ReadReality;
    assert Reached(w, goal, PanelStep) && Reached(w, goal, HaproxyStep) && Reached(w, goal, EnvStep)
        && Reached(w, goal, BotStep);
  }

  /** The answers a full look at a world gives. */
  function FullRead(w: World): EntryRead {
    EntryRead(Some(w.acl), w.haproxyActive, w.editable, Some(w.env), Some(w.bot), Some(w.probe))
  }

  predicate ServicesUp(w: World) {
    w.haproxyActive && w.bot.Running? && w.bot.healthy && (w.probe.present ==> w.probe.up)
  }

  lemma SameIsSameSorted(a: seq<string>, b: seq<string>)
    requires SameNames(a, b)
    ensures SameSorted(a, b)
  {
  }

  lemma AppliedAgrees(w: World, goal: Layers)
    requires Rotated(w, goal, true) && goal.env.Some?
    ensures Agrees(LayersOf(w), goal) && w.probe.present == goal.probe.present
  {
    hide SameNames, AclEqual, ReadReality;
    RotatedFully(w, goal, true);
  }

  /** After --apply ended as applied, fresh or resumed, a new plan for the same
      goal has no step left, and while the services are up --verify has no FAIL
      row for panel, HAProxy, .env, bot or probe. */
  lemma ApplyAgreesWithVerify(s: Sys, o: Opts, xray: XrayRead, tls: TlsRead, strict: bool)
    requires Startable(s) && Quiet(s.script) && ValidOpts(o)
    ensures var (s', outcome) := CmdApply(s, o);
            var w, goal := s'.world, Heading(s, o);
            outcome.status == Some(StApplied) ==>
              && StepsNeeded(AsReading(LayersOf(w)), goal, APPLY_ORDER) == []
              && (ServicesUp(w) ==>
                    forall row | row in VerifyChecks(Some(FullRead(w)), Some(PanelOf(w)), xray, tls, goal, strict) ::
                      row.verdict == FAIL ==> row.check == XrayCheck || row.check == TlsCheck)
  {
    hide CmdApply, Heading, SamePanel, AclEqual, ReadReality, VerifyChecks, Quiet, Agrees, LayersOf, StepsNeeded, Rotated;
    ApplyTells(s, o);
    var (s', outcome) := CmdApply(s, o);
    var w, goal := s'.world, Heading(s, o);
    if outcome.status == Some(StApplied) {
      HeadingSetsSni(s, o);
      AppliedAgrees(w, goal);
      NothingNeededIffAgrees(LayersOf(w), goal, APPLY_ORDER);
      if ServicesUp(w) {
        NoFailRows(w, goal, xray, tls, strict);
      }
    }
  }

  lemma HeadingSetsSni(s: Sys, o: Opts)
    requires Startable(s)
    ensures Heading(s, o).env.Some?
  {
  }

  lemma NoFailRows(w: World, goal: Layers, xray: XrayRead, tls: TlsRead, strict: bool)
    requires Agrees(LayersOf(w), goal) && goal.env.Some? && ServicesUp(w)
    requires w.probe.present == goal.probe.present
    ensures forall row | row in VerifyChecks(Some(FullRead(w)), Some(PanelOf(w)), xray, tls, goal, strict) ::
              row.verdict == FAIL ==> row.check == XrayCheck || row.check == TlsCheck
  {
    hide Agrees, FullRead, PanelOf, PanelRow, HaproxyRow, EnvRow, BotRow, ProbeRow, TlsRow;
    GoodRows(w, goal);
    assert forall row | row in XrayRow(Some(PanelOf(w)), xray, strict) :: row.check == XrayCheck;
  }

  lemma GoodRows(w: World, goal: Layers)
    requires Agrees(LayersOf(w), goal) && goal.env.Some? && ServicesUp(w)
    requires w.probe.present == goal.probe.present
    ensures var entry, panel := Some(FullRead(w)), Some(PanelOf(w));
            && PanelRow(panel, goal) == OK && HaproxyRow(entry, goal) == OK && EnvRow(entry, goal) == OK
            && BotRow(entry, goal) == OK && ProbeRow(entry, goal) != FAIL
  {
    SameIsSameSorted(PanelOf(w).names, goal.panel.names);
    forall i | 0 <= i < |w.acl| ensures SameSorted(w.acl[i], goal.acl[i]) {
      SameIsSameSorted(w.acl[i], goal.acl[i]);
    }
    hide SameSorted, SameNames, ReadReality;
  }

  // ---- the snapshot is never lost -----------------------------------------------------------------

  predicate SameRotation(a: Option<Snapshot>, b: Option<Snapshot>) {
    && a.Some? && b.Some?
    && a.value.origin == b.value.origin && a.value.goal == b.value.goal
  }

  lemma StepKeepsDisk(s: Sys, step: Step, cur: Reading, guard: Option<PanelValues>, t: Layers, restart: bool)
    ensures DoStep(s, step, cur, guard, t, restart).0.disk == s.disk
  {
    hide SamePanel, AclEqual, ReadReality, ApplyRealityChanges, NoEmptyLine;
  }

  lemma {:induction false} ConvergeKeepsDisk(s: Sys, cur: Reading, guard: Option<PanelValues>, t: Layers, steps: seq<Step>,
                                             restart: bool)
    ensures Converge(s, cur, guard, t, steps, restart).0.disk == s.disk
    decreases |steps|
  {
    hide DoStep, Advance;
    if steps != [] {
      StepKeepsDisk(s, steps[0], cur, guard, t, restart);
      var (s1, r) := DoStep(s, steps[0], cur, guard, t, restart);
      ConvergeKeepsDisk(s1, if r.ok then Advance(cur, steps[0], t, r) else cur, guard, t, steps[1..], restart);
    }
  }

  lemma VerifyKeepsDisk(s: Sys, t: Layers, strict: bool)
    ensures RunVerify(s, t, strict).0.disk == s.disk
  {
    hide VerifyChecks, VerifyCode, ReadReality;
  }

  lemma CheckKeepsDisk(s: Sys, o: Opts, override: Option<Layers>)
    ensures RunCheck(s, o, override).0.disk == s.disk
  {
    hide BuildPlan, ReadReality;
  }

  lemma RevertKeepsDisk(s: Sys, snap: Snapshot, attempted: set<Step>, restart: bool)
    ensures RevertTo(s, snap, attempted, restart).0.disk == s.disk
  {
    hide Converge, RevertConflict, ReadReality, StepsNeeded, Only, Widened;
    var (s1, entry) := ReadEntry(s);
    if entry.Some? {
      var cur := ValuesFrom(entry, None);
      ConvergeKeepsDisk(s1, cur, Some(snap.goal.panel), snap.origin,
                        Only(StepsNeeded(cur, snap.origin, ROLLBACK_ORDER), Widened(attempted)), restart);
    }
  }

  lemma SaveKeepsRotation(s: Sys, snap: Snapshot)
    requires SameRotation(s.disk, Some(snap))
    ensures SameRotation(Save(s, snap).disk, Some(snap))
  {
  }

  lemma ApplyPlanKeeps(s: Sys, snap: Snapshot, plan: Plan, o: Opts)
    requires SameRotation(s.disk, Some(snap)) && plan.Ready?
    ensures SameRotation(ApplyPlan(s, snap, plan, o).0.disk, Some(snap))
  {
    hide Converge, RunVerify, RevertTo, RestartedIn, Attempted, Save, SameRotation;
    ConvergeKeepsDisk(s, AsReading(plan.cur), None, plan.target, plan.steps, o.xrayRestart);
    var (s1, run) := Converge(s, AsReading(plan.cur), None, plan.target, plan.steps, o.xrayRestart);
    RevertKeepsDisk(s1, snap, Attempted(run.log), o.xrayRestart);
    var (s2, back, _) := RevertTo(s1, snap, Attempted(run.log), o.xrayRestart);
    FinishKeeps(s1, snap, if run.soft then StPartial else StApplied, snap.goal, RestartedIn(run.log));
    FinishKeeps(s1, snap, StFailed, snap.goal, false);
    FinishKeeps(s2, snap, if back then StReverted else StFailed, snap.origin, false);
  }

  /** Saving another status, then looking. */
  lemma FinishKeeps(s: Sys, snap: Snapshot, status: Status, t: Layers, strict: bool)
    requires SameRotation(s.disk, Some(snap))
    ensures var s1 := Save(s, snap.(status := status));
            SameRotation(s1.disk, Some(snap)) && SameRotation(RunVerify(s1, t, strict).0.disk, Some(snap))
  {
    VerifyKeepsDisk(Save(s, snap.(status := status)), t, strict);
    hide RunVerify;
  }

  /** Whatever happens to its operations, and whoever edits the layers
      meanwhile, no command replaces the values of an unfinished rotation. */
  lemma UnfinishedRotationKept(s: Sys, c: Command)
    requires Resumes(s.disk)
    ensures SameRotation(s.disk, Exec(s, c).disk)
  {
    hide RunCheck, RunVerify, ApplyPlan, Converge, StepsNeeded, RollbackConflict, ValuesFrom, ReadReality;
    var snap := s.disk.value;
    match c
    case DoCheck(o) =>
      CheckKeepsDisk(s, o, if SameOptions(snap, o) then Some(snap.goal) else None);
    case DoApply(o) =>
      CheckKeepsDisk(s, o, Some(snap.goal));
      var (s1, plan) := RunCheck(s, o, Some(snap.goal));
      if plan.Ready? {
        var pending := snap.(status := StPending);
        SaveKeepsRotation(s1, pending);
        ApplyPlanKeeps(Save(s1, pending), pending, plan, o);
      }
    case DoVerify =>
      VerifyKeepsDisk(s, if snap.status == StReverted || snap.status == StRolledBack then snap.origin else snap.goal, false);
    case DoRollback(restart, yes) =>
      RollbackKeeps(s, restart, yes);
  }

  lemma RollbackKeeps(s: Sys, restart: bool, yes: bool)
    requires s.disk.Some?
    ensures SameRotation(s.disk, CmdRollback(s, restart, yes).0.disk)
  {
    hide RunVerify, RollBackNow, StepsNeeded, RollbackConflict, ReadReality;
    var snap := s.disk.value;
    var (s1, entry) := ReadEntry(s);
    var (s2, panel) := ReadPanel(s1);
    var r := ValuesFrom(entry, panel);
    if Complete(r) {
      VerifyKeepsDisk(s2, snap.origin, false);
      VerifyKeepsDisk(Save(s2, snap.(status := StRolledBack)), snap.origin, false);
      RollBackNowKeeps(s2, snap, AllValues(r), restart);
    }
  }

  lemma RollBackNowKeeps(s: Sys, snap: Snapshot, cur: Layers, restart: bool)
    requires SameRotation(s.disk, Some(snap))
    ensures SameRotation(RollBackNow(s, snap, cur, restart).0.disk, Some(snap))
  {
    hide RunVerify, Converge, StepsNeeded, RestartedIn;
    var s1 := Save(s, snap.(status := StRollingBack));
    var steps := StepsNeeded(AsReading(cur), snap.origin, ROLLBACK_ORDER);
    ConvergeKeepsDisk(s1, AsReading(cur), None, snap.origin, steps, restart);
    var (s2, run) := Converge(s1, AsReading(cur), None, snap.origin, steps, restart);
    VerifyKeepsDisk(Save(s2, snap.(status := if run.failed == None then StRolledBack else StFailed)), snap.origin,
                    RestartedIn(run.log));
  }
}
