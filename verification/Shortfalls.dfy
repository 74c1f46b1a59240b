/** The order inside a run, and where the original does not meet its own
    promise: an SNI_VALUE that was unset before the rotation, and an ACL line
    that named nobody. */
module Shortfalls {
  import opened Wrappers
  import opened Names
  import opened Planning
  import opened Reality
  import opened World
  import opened Verification
  import opened Rotation
  import opened Staircase
  import opened Histories
  import opened Recovery
  import G = Guarantees

  // ---- what a log looks like ---------------------------------------------------------------------

  /** A log follows the list of steps, and only its last entry, or a probe,
      can have failed. */
  lemma {:induction false} LogFollowsSteps(s: Sys, cur: Reading, guard: Option<PanelValues>, t: Layers, steps: seq<Step>,
                                           restart: bool)
    ensures var log := Converge(s, cur, guard, t, steps, restart).1.log;
            && |log| <= |steps|
            && (forall i | 0 <= i < |log| :: log[i].step == steps[i])
            && (forall i | 0 <= i < |log| - 1 :: log[i].ok || log[i].step == ProbeStep)
    decreases |steps|
  {
    hide DoStep, Advance;
    if steps != [] {
      var (s1, r) := DoStep(s, steps[0], cur, guard, t, restart);
      var cur1 := if r.ok then Advance(cur, steps[0], t, r) else cur;
      LogFollowsSteps(s1, cur1, guard, t, steps[1..], restart);
    }
  }

  /** In an auto-revert that takes .env and bot back, the panel, whose reading
      goes through the bot's container, is only touched after the bot has been
      recreated successfully. */
  lemma PanelAfterBot(s: Sys, snap: Snapshot, attempted: set<Step>, restart: bool, j: nat)
    requires var log := RevertTo(s, snap, attempted, restart).2; j < |log| && log[j].step == PanelStep
    ensures var entry := ReadEntry(s).1;
            entry.Some? && (BotStep in Widened(attempted) && BotNeeded(ValuesFrom(entry, None), snap.origin) ==>
              exists i :: 0 <= i < j && RevertTo(s, snap, attempted, restart).2[i].step == BotStep
                          && RevertTo(s, snap, attempted, restart).2[i].ok)
  {
    hide Converge, RevertConflict, ReadReality, StepsNeeded, Only, Widened, BotNeeded, ValuesFrom, ReadEntry, Ordered;
    var only := Widened(attempted);
    var (s1, entry) := ReadEntry(s);
    var cur := ValuesFrom(entry, None);
    var all := StepsNeeded(cur, snap.origin, ROLLBACK_ORDER);
    var steps := Only(all, only);
    LogFollowsSteps(s1, cur, Some(snap.goal.panel), snap.origin, steps, restart);
    Orders();
    NeededOrdered(cur, snap.origin, ROLLBACK_ORDER, true);
    OnlyOrdered(all, only, true);
    EveryStepListed();
    var log := RevertTo(s, snap, attempted, restart).2;
    if BotStep in only && BotNeeded(cur, snap.origin) {
      assert BotStep in steps;
      BotBeforePanel(steps, log, j);
    }
  }

  lemma BotBeforePanel(steps: seq<Step>, log: seq<Entry>, j: nat)
    requires Ordered(steps, true) && BotStep in steps && |log| <= |steps|
    requires forall i | 0 <= i < |log| :: log[i].step == steps[i]
    requires forall i | 0 <= i < |log| - 1 :: log[i].ok || log[i].step == ProbeStep
    requires j < |log| && log[j].step == PanelStep
    ensures exists i :: 0 <= i < j && log[i].step == BotStep && log[i].ok
  {
    var i :| 0 <= i < |steps| && steps[i] == BotStep;
    assert Rank(steps[i], true) < Rank(steps[j], true);
    assert i < j;
    assert log[i].step == BotStep && log[i].ok;
  }

  // ---- an SNI_VALUE that was not set before ----------------------------------------------------------

  /** A rollback to "SNI_VALUE not set" that finds .env already back considers
      any container good enough. */
  lemma NoBotStepForUnsetEnv(w: World, origin: Layers)
    requires origin.env == None && w.env == None
    ensures var steps := StepsNeeded(AsReading(LayersOf(w)), origin, ROLLBACK_ORDER);
            BotStep !in steps && EnvStep !in steps
  {
    hide SamePanel, AclEqual, ReadReality;
  }

  /** So, after a rollback that put .env back and then could not recreate the
      container, the next one, with everybody cooperating, takes ACL and panel
      back to the old names under a container that still hands out the new
      one. This is why the container clause of Stairs asks for an old .env
      that defined SNI_VALUE. */
  lemma UnsetEnvStrandsContainer(s: Sys, restart: bool)
    requires Inv(s) && s.disk.Some? && Cooperative(s.script, 20)
    requires s.disk.value.origin.env == None && s.world.env == None
    requires s.world.bot.Running? && s.world.bot.sni == s.disk.value.goal.env && s.world.editable
    requires NoEmptyLine(s.disk.value.origin.acl)
    ensures var w := CmdRollback(s, restart, true).0.world;
            && BackAtOrigin(w, s.disk.value.origin)
            && w.bot == s.world.bot
            && (!OnOrigin(s.world, s.disk.value.origin) ==> !OnOrigin(w, s.disk.value.origin))
  {
    hide Stairs, GoodTrace, Planned, Converge, RunVerify, Quiet, RollBackNow, ReadReality, NoEmptyLine, StepsNeeded,
         BackAtOrigin, RollbackConflict, LayersOf, CmdRollback;
    Recoverable(s, restart);
    CooperativeQuiet(s.script, 20);
    var (s1, entry) := ReadEntry(s);
    var (s2, panel) := ReadPanel(s1);
    ReadEntryLooks(s);
    ReadPanelLooks(s1);
    InvLooked(s, s2);
    CompleteReading(s);
    InvSnap(s);
    NoBotStepForUnsetEnv(s.world, s.disk.value.origin);
    RollbackKeepsBot(s, restart);
  }

  /** That state is reached: a rollback right after a rotation, in which only
      the bot recreate is refused, puts .env back and stops. */
  lemma RefusedRecreateLeavesNewContainer(s: Sys, restart: bool)
    requires Inv(s) && Quiet(s.script) && s.disk.Some? && |s.script| >= 6
    requires s.disk.value.origin.env == None && s.world.env.Some?
    requires s.world.bot.Running? && s.world.editable
    requires forall i | 0 <= i < 4 :: Cooperates(s.script[i])
    requires !s.script[4].lands
    ensures CmdRollback(s, restart, true).0.world == s.world.(env := None)
  {
    hide Stairs, GoodTrace, Planned, Quiet, ReadReality, NoEmptyLine, RunVerify, SamePanel, AclEqual, RollbackConflict,
         Inv, RollBackNow, Converge, StepsNeeded, Cooperates;
    var snap := s.disk.value;
    var f := s.script;
    assert Cooperates(f[0]) && Cooperates(f[1]) && Cooperates(f[2]) && Cooperates(f[3]);
    var s2 := s.(script := f[2..]);
    TwoReads(s);
    InvSnap(s);
    NoRollbackConflict(s.world, snap);
    var cur := LayersOf(s.world);
    var steps := StepsNeeded(AsReading(cur), snap.origin, ROLLBACK_ORDER);
    EnvThenBot(cur, snap.origin);
    QuietFrom(f, 2);
    StopsAtBot(s2, snap, cur, restart);
  }

  /** The two together: from any rotated host whose .env did not set SNI_VALUE
      before, two rollbacks, the first with its bot recreate refused and the
      second with everybody cooperating, leave panel and ACL old under a
      container that hands out the new name. So the condition of the container
      clause is necessary as well as sufficient. */
  lemma ContainerClauseNeedsSetEnv(s: Sys, second: seq<Fate>, restart: bool)
    requires Inv(s) && Quiet(s.script) && s.disk.Some? && |s.script| >= 6
    requires s.disk.value.origin.env == None && s.world.env.Some?
    requires s.world.bot.Running? && s.world.bot.sni == s.disk.value.goal.env && s.world.editable
    requires NoEmptyLine(s.disk.value.origin.acl)
    requires (forall i | 0 <= i < 4 :: Cooperates(s.script[i])) && !s.script[4].lands
    requires Cooperative(second, 20)
    ensures var s1 := CmdRollback(s, restart, true).0.(script := second);
            var w := CmdRollback(s1, restart, true).0.world;
            && BackAtOrigin(w, s.disk.value.origin) && w.bot == s.world.bot
            && (!OnOrigin(s.world, s.disk.value.origin) ==> !OnOrigin(w, s.disk.value.origin))
  {
    hide Stairs, GoodTrace, Planned, Quiet, NoEmptyLine, Inv, CmdRollback, Cooperates, Cooperative, BackAtOrigin;
    RefusedRecreateLeavesNewContainer(s, restart);
    RollbackStays(s, restart, true);
    G.RollbackKeeps(s, restart, true);
    var s0 := CmdRollback(s, restart, true).0;
    NewProcess(s0, second);
    UnsetEnvStrandsContainer(s0.(script := second), restart);
  }

  lemma TwoReads(s: Sys)
    requires |s.script| >= 2 && Cooperates(s.script[0]) && Cooperates(s.script[1]) && s.world.bot.Running?
    ensures var (s1, entry) := ReadEntry(s);
            var (s2, panel) := ReadPanel(s1);
            && s2 == s.(script := s.script[2..])
            && Complete(ValuesFrom(entry, panel)) && AllValues(ValuesFrom(entry, panel)) == LayersOf(s.world)
  {
    hide ReadReality;
    assert s.script[1..][0] == s.script[1] && s.script[1..][1..] == s.script[2..];
  }

  lemma EnvThenBot(cur: Layers, t: Layers)
    requires cur.env != t.env
    ensures var steps := StepsNeeded(AsReading(cur), t, ROLLBACK_ORDER);
            |steps| >= 2 && steps[0] == EnvStep && steps[1] == BotStep
  {
    hide SamePanel, AclEqual;
    var o := ROLLBACK_ORDER;
    assert o[0] == EnvStep && o[1..][0] == BotStep;
    assert StepsNeeded(AsReading(cur), t, o) == [EnvStep] + StepsNeeded(AsReading(cur), t, o[1..]);
    assert StepsNeeded(AsReading(cur), t, o[1..]) == [BotStep] + StepsNeeded(AsReading(cur), t, o[1..][1..]);
  }

  lemma StopsAtBot(s: Sys, snap: Snapshot, cur: Layers, restart: bool)
    requires Quiet(s.script) && |s.script| >= 4 && cur == LayersOf(s.world) && s.world.editable
    requires Cooperates(s.script[0]) && Cooperates(s.script[1]) && !s.script[2].lands
    requires snap.origin.env == None
    requires var steps := StepsNeeded(AsReading(cur), snap.origin, ROLLBACK_ORDER);
             |steps| >= 2 && steps[0] == EnvStep && steps[1] == BotStep
    ensures RollBackNow(s, snap, cur, restart).0.world == s.world.(env := None)
  {
    hide ReadReality, SamePanel, AclEqual, StepsNeeded, RunVerify, Quiet, RestartedIn, DoStep, Save, LayersOf;
    var f := s.script;
    var rolling := snap.(status := StRollingBack);
    var s1 := Save(s, rolling);
    assert s1.script == f[1..] && s1.world == s.world && s1.script[0] == f[1] by { SaveSpends(s, rolling); }
    var steps := StepsNeeded(AsReading(cur), snap.origin, ROLLBACK_ORDER);
    assert AsReading(cur).env == Some(s.world.env) by { ReadsEnv(s.world); }
    EnvWorks(s1, AsReading(cur), snap.origin, restart);
    var (e1, r1) := DoStep(s1, EnvStep, AsReading(cur), None, snap.origin, restart);
    assert e1.script == f[2..] && e1.script[0] == f[2];
    var cur1 := Advance(AsReading(cur), EnvStep, snap.origin, r1);
    QuietFrom(f, 2);
    BotWasRefused(e1, cur1, snap.origin, steps[1..], restart);
    var (c1, run1) := Converge(s1, AsReading(cur), None, snap.origin, steps, restart);
    assert c1 == Converge(e1, cur1, None, snap.origin, steps[1..], restart).0 && run1.failed == Some(BotStep);
    hide Converge;
    assert c1.script == f[3..] && c1.world == e1.world;
    QuietFrom(f, 3);
    SaveLooks(c1, snap.(status := StFailed));
    VerifyLooks(Save(c1, snap.(status := StFailed)), snap.origin, RestartedIn(run1.log));
  }

  lemma ReadsEnv(w: World)
    ensures AsReading(LayersOf(w)).env == Some(w.env)
  {
    hide ReadReality;
  }

  lemma SaveSpends(s: Sys, snap: Snapshot)
    requires s.script != [] && Cooperates(s.script[0])
    ensures Save(s, snap).script == s.script[1..] && Save(s, snap).world == s.world
  {
  }

  lemma SaveLooks(s: Sys, snap: Snapshot)
    requires Quiet(s.script)
    ensures Quiet(Save(s, snap).script) && Save(s, snap).world == s.world
  {
    if s.script != [] { QuietTail(s); }
  }

  lemma EnvWorks(s: Sys, cur: Reading, t: Layers, restart: bool)
    requires s.script != [] && Cooperates(s.script[0]) && s.world.editable && cur.env == Some(s.world.env)
    ensures var (s1, r) := DoStep(s, EnvStep, cur, None, t, restart);
            s1.script == s.script[1..] && s1.world == s.world.(env := t.env) && r.ok
  {
  }

  lemma BotWasRefused(s: Sys, cur: Reading, t: Layers, steps: seq<Step>, restart: bool)
    requires Quiet(s.script) && s.script != [] && !s.script[0].lands && steps != [] && steps[0] == BotStep
    ensures var (s1, run) := Converge(s, cur, None, t, steps, restart);
            s1.script == s.script[1..] && s1.world == s.world && run.failed == Some(BotStep)
  {
    QuietTail(s);
    hide Advance, Quiet;
  }

  lemma QuietFrom(f: seq<Fate>, i: nat)
    requires Quiet(f) && i <= |f|
    ensures Quiet(f[i..])
  {
    forall x | x in f[i..] ensures x.meddle == None {
      assert x in f;
    }
  }

  lemma RollbackKeepsBot(s: Sys, restart: bool)
    requires Inv(s) && Quiet(s.script) && s.disk.Some?
    requires BotStep !in StepsNeeded(AsReading(LayersOf(s.world)), s.disk.value.origin, ROLLBACK_ORDER)
    ensures var w := CmdRollback(s, restart, true).0.world;
            w.bot == s.world.bot && w.composeDefault == s.world.composeDefault
  {
    hide Stairs, GoodTrace, Planned, Converge, RunVerify, Quiet, RollBackNow, ReadReality, NoEmptyLine, StepsNeeded,
         RollbackConflict, LayersOf, Inv;
    var snap := s.disk.value;
    var (s1, entry) := ReadEntry(s);
    var (s2, panel) := ReadPanel(s1);
    ReadEntryLooks(s);
    ReadPanelLooks(s1);
    InvLooked(s, s2);
    CompleteReading(s);
    InvSnap(s);
    var cur := LayersOf(s.world);
    var r := ValuesFrom(entry, panel);
    if Complete(r) && !RollbackConflict(cur, snap) {
      if StepsNeeded(AsReading(cur), snap.origin, ROLLBACK_ORDER) == [] {
        var s3 := if snap.status == StRolledBack || snap.status == StReverted then s2
                  else Save(s2, snap.(status := StRolledBack));
        ResavedStays(s2, snap, StRolledBack);
        VerifyLooks(s3, snap.origin, false);
      } else {
        RollBackStays(s2, snap, cur, restart);
        ConvergeKeepsBot(s2, snap, cur, restart);
      }
    }
  }

  lemma ConvergeKeepsBot(s: Sys, snap: Snapshot, cur: Layers, restart: bool)
    requires Inv(s) && Quiet(s.script) && s.disk == Some(snap) && cur == LayersOf(s.world)
    requires s.world.bot.Running?
    requires BotStep !in StepsNeeded(AsReading(cur), snap.origin, ROLLBACK_ORDER)
    ensures var s1 := Save(s, snap.(status := StRollingBack));
            var s2 := Converge(s1, AsReading(cur), None, snap.origin,
                               StepsNeeded(AsReading(cur), snap.origin, ROLLBACK_ORDER), restart).0;
            s2.world.bot == s.world.bot && s2.world.composeDefault == s.world.composeDefault
  {
    hide Stairs, GoodTrace, Planned, Converge, Quiet, ReadReality, StepsNeeded, LayersOf, Inv, Save, Reached, Moving,
         BackReady, Only, LogSteps;
    InvSnap(s);
    var rolling := snap.(status := StRollingBack);
    PlannedStatus(snap, StRollingBack);
    SavedMoves(s, rolling);
    var s1 := Save(s, rolling);
    var steps := StepsNeeded(AsReading(cur), snap.origin, ROLLBACK_ORDER);
    if s.script == [] {
      DeadConverges(s, AsReading(cur), None, snap.origin, steps, restart);
    } else {
      LayersRead(s1.world);
      MovingFacts(s1, rolling);
      ReadyToRevert(s1.world, AsReading(cur), rolling, ALL_STEPS);
      OnlyAll(steps);
      ConvergeStays(s1, AsReading(cur), None, rolling, steps, true, restart);
      var (s2, run) := Converge(s1, AsReading(cur), None, snap.origin, steps, restart);
      assert BotStep !in LogSteps(run.log);
      assert Kept(BotStep, s1.world, s2.world);
    }
  }

  // ---- an ACL line without names -------------------------------------------------------------------------

  const LISTED := PanelValues(map["dest" := "a.example:443"], ["a.example"], None)

  function NamelessOrigin(): Layers {
    Layers(LISTED, [[]], Some("a.example"), Some("a.example"), ProbeValue(false, None))
  }

  function NamelessSnapshot(): Snapshot {
    Snapshot(StApplied, "b.example", "b.example:443", false, NamelessOrigin(),
             PlanTarget(NamelessOrigin(), "b.example", "b.example:443", false))
  }

  function RotatedWorld(snap: Snapshot): World {
    World(Stream(Some(RealitySettings(snap.goal.panel.dest, snap.goal.panel.names, None)), map[]),
          XrayView(snap.goal.panel.dest, snap.goal.panel.names), snap.goal.acl, true, snap.goal.env,
          Running(snap.goal.env, true), Probe(false, None, false), None, true)
  }

  /** A rotation of a host whose ACL line had no names can be applied but never
      rolled back, even with everybody cooperating: the old line cannot be
      written. */
  lemma NamelessLineNotRecoverable(script: seq<Fate>, restart: bool)
    requires Cooperative(script, 20)
    ensures var snap := NamelessSnapshot();
            var s := Sys(RotatedWorld(snap), Some(snap), script, []);
            Inv(s) && !BackAtOrigin(CmdRollback(s, restart, true).0.world, snap.origin)
  {
    hide CmdRollback, Cooperative, BackAtOrigin, Inv, AclEqual, PlanTarget, PanelOf;
    var snap := NamelessSnapshot();
    var s := Sys(RotatedWorld(snap), Some(snap), script, []);
    NamelessPlanned();
    RotatedHolds(snap, script);
    assert !NoEmptyLine(snap.origin.acl) by { assert snap.origin.acl[0] == []; }
    Recoverable(s, restart);
  }

  lemma NamelessPlanned()
    ensures var snap := NamelessSnapshot();
            && Planned(snap) && !snap.origin.probe.present
            && snap.goal.panel.ssn == None
            && !AclEqual(snap.goal.acl, snap.origin.acl) && !SamePanel(snap.origin.panel, snap.goal.panel)
  {
    hide TransformNames;
    var snap := NamelessSnapshot();
    assert Lower("b.example") == "b.example" && |snap.sni| == 9;
    assert "dest" in snap.origin.panel.dest && snap.origin.panel.dest.Keys == {"dest"} <= DEST_KEYS;
    assert Planned(snap);
    PlannedFacts(snap);
    assert snap.goal.acl[0] != [] && snap.origin.acl[0] == [];
    assert !SameNames(snap.goal.acl[0], snap.origin.acl[0]);
    assert snap.goal.panel.dest["dest"] == "b.example:443" && snap.origin.panel.dest["dest"] == "a.example:443";
  }

  /** A host whose layers all hold the goal is on the stairs. */
  lemma RotatedHolds(snap: Snapshot, script: seq<Fate>)
    requires Planned(snap) && !snap.origin.probe.present && snap.goal.panel.ssn == None
    requires !AclEqual(snap.goal.acl, snap.origin.acl) && !SamePanel(snap.origin.panel, snap.goal.panel)
    ensures var w := RotatedWorld(snap);
            && Inv(Sys(w, Some(snap), script, [])) && w.bot.Running? && w.editable && !AtAcl(w, snap.origin)
  {
    hide PlanTarget, NoEmptyLine;
    var w := RotatedWorld(snap);
    PlannedFacts(snap);
    assert snap.goal.probe.present == snap.origin.probe.present by { PlanKeepsProbe(snap); }
    assert PanelOf(w) == snap.goal.panel by { GoalRead(snap.goal.panel); }
    assert AclEqual(snap.origin.acl, snap.goal.acl) ==> AclEqual(snap.goal.acl, snap.origin.acl);
    AclEqualSelf(snap.goal.acl);
    SamePanelSelf(snap.goal.panel);
    hide AclEqual, SamePanel, ReadReality;
  }

  lemma PlanKeepsProbe(snap: Snapshot)
    requires Planned(snap)
    ensures snap.goal.probe.present == snap.origin.probe.present
  {
    hide TransformNames, NewNames, RemovedNames;
  }

  lemma GoalRead(p: PanelValues)
    requires p.dest.Keys <= DEST_KEYS && p.ssn == None
    ensures ReadReality(Stream(Some(RealitySettings(p.dest, p.names, None)), map[])) == p
  {
    assert OnlyKeys(p.dest, DEST_KEYS) == p.dest;
  }
}
