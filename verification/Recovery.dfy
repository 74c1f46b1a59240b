/** Rollback and whole histories: the staircase after any sequence of runs, and
    when the old values can be recovered. */
module Recovery {
  import opened Wrappers
  import opened Names
  import opened Planning
  import opened Reality
  import opened World
  import opened Verification
  import opened Rotation
  import opened Staircase
  import opened Histories

  const ALL_STEPS: set<Step> := {PanelStep, HaproxyStep, EnvStep, BotStep, ProbeStep}

  lemma {:induction false} OnlyAll(steps: seq<Step>)
    ensures Only(steps, ALL_STEPS) == steps
  {
    if steps != [] {
      OnlyAll(steps[1..]);
      match steps[0] { case PanelStep => case HaproxyStep => case EnvStep => case BotStep => case ProbeStep => }
      assert steps == [steps[0]] + steps[1..];
    }
  }

  /** Rolling everything back, by a run that may fail or die anywhere. */
  lemma RollBackStays(s: Sys, snap: Snapshot, cur: Layers, restart: bool)
    requires Inv(s) && Quiet(s.script) && s.disk.Some?
    requires Planned(snap) && Stairs(s.world, snap.origin, snap.goal)
    requires cur == LayersOf(s.world)
    requires StepsNeeded(AsReading(cur), snap.origin, ROLLBACK_ORDER) != []
    requires s.world.bot.Running?
    ensures Inv(RollBackNow(s, snap, cur, restart).0)
    ensures var s1 := Save(s, snap.(status := StRollingBack));
            var (s2, run) := Converge(s1, AsReading(cur), None, snap.origin,
                                      StepsNeeded(AsReading(cur), snap.origin, ROLLBACK_ORDER), restart);
            && RollBackNow(s, snap, cur, restart).0.world == s2.world
            && (run.failed == None ==> BackAtOrigin(s2.world, snap.origin))
  {
    hide Stairs, Planned, GoodTrace, StepsNeeded, Converge, RunVerify, Moving, Inv, Save, LayersOf, Quiet, BackAtOrigin,
         Reached;
    var rolling := snap.(status := StRollingBack);
    assert Planned(rolling) by { PlannedStatus(snap, StRollingBack); }
    SavedMoves(s, rolling);
    var s1 := Save(s, rolling);
    var steps := StepsNeeded(AsReading(cur), snap.origin, ROLLBACK_ORDER);
    var (s2, run) := Converge(s1, AsReading(cur), None, snap.origin, steps, restart);
    if s.script == [] {
      DeadRollBack(s, snap, cur, restart);
    } else {
      OnlyAll(steps);
      assert ReadFrom(s1.world, AsReading(cur)) by { LayersRead(s1.world); }
      ConvergeBack(s1, AsReading(cur), None, rolling, ALL_STEPS, restart);
      var status := if run.failed == None then StRolledBack else StFailed;
      FinishStays(s2, rolling, status, snap.origin, RestartedIn(run.log));
      assert rolling.(status := status) == snap.(status := status);
      if run.failed == None {
        assert Stairs(s2.world, snap.origin, snap.goal) by { MovingStairs(s2, rolling); }
        TakenBackAll(s1.world, s2.world, rolling);
      }
    }
  }

  lemma MovingStairs(s: Sys, snap: Snapshot)
    requires Moving(s, snap)
    ensures Stairs(s.world, snap.origin, snap.goal)
  {
  }

  lemma PlannedStatus(snap: Snapshot, status: Status)
    requires Planned(snap)
    ensures Planned(snap.(status := status))
  {
  }

  lemma LayersRead(w: World)
    ensures ReadFrom(w, AsReading(LayersOf(w)))
  {
    hide ReadReality;
  }

  lemma TakenBackAll(w: World, w': World, snap: Snapshot)
    requires TakenBack(w, w', snap.origin, ALL_STEPS)
    requires Stairs(w', snap.origin, snap.goal)
    ensures BackAtOrigin(w', snap.origin)
  {
    hide SamePanel, AclEqual, ReadReality, Stairs;
    var r0, r1, r2 := Reached(w', snap.origin, PanelStep), Reached(w', snap.origin, HaproxyStep), Reached(w', snap.origin, EnvStep);
    StairsAtOrigin(w', snap.origin, snap.goal);
  }

  /** With something hard to take back, a dead process reports a failure; with
      only the probe left, the layers are already back. */
  lemma DeadRollBack(s: Sys, snap: Snapshot, cur: Layers, restart: bool)
    requires s.script == [] && cur == LayersOf(s.world) && s.world.bot.Running?
    requires Stairs(s.world, snap.origin, snap.goal)
    ensures RollBackNow(s, snap, cur, restart).0 == s
    ensures var (s2, run) := Converge(s, AsReading(cur), None, snap.origin,
                                      StepsNeeded(AsReading(cur), snap.origin, ROLLBACK_ORDER), restart);
            s2 == s && (run.failed == None ==> BackAtOrigin(s.world, snap.origin))
  {
    hide Stairs, VerifyChecks, VerifyCode, ReadReality, SamePanel, AclEqual, Quiet;
    var steps := StepsNeeded(AsReading(cur), snap.origin, ROLLBACK_ORDER);
    DeadConverges(s, AsReading(cur), None, snap.origin, steps, restart);
    var run := Converge(s, AsReading(cur), None, snap.origin, steps, restart).1;
    if run.failed == None {
      EveryStepListed();
      assert PanelStep !in steps && HaproxyStep !in steps && EnvStep !in steps;
      StairsAtOrigin(s.world, snap.origin, snap.goal);
    }
  }

  /** Any quiet --rollback, dying anywhere; exit code 0 means panel, ACL and
      .env are exactly what the snapshot calls old. */
  lemma RollbackStays(s: Sys, restart: bool, yes: bool)
    requires Inv(s) && Quiet(s.script)
    ensures var (s', code) := CmdRollback(s, restart, yes);
            && Inv(s')
            && (code == EXIT_OK ==> s.disk.Some? && BackAtOrigin(s'.world, s.disk.value.origin))
  {
    hide Stairs, Planned, GoodTrace, StepsNeeded, Converge, RunVerify, Inv, Save, LayersOf, Quiet, BackAtOrigin,
         RollBackNow, RollbackConflict;
    if s.disk.Some? {
      var snap := s.disk.value;
      ReadEntryLooks(s);
      var (s1, entry) := ReadEntry(s);
      ReadPanelLooks(s1);
      var (s2, panel) := ReadPanel(s1);
      InvLooked(s, s2);
      var r := ValuesFrom(entry, panel);
      if Complete(r) {
        var cur := AllValues(r);
        CompleteReading(s);
        InvSnap(s);
        if StepsNeeded(AsReading(cur), snap.origin, ROLLBACK_ORDER) == [] {
          AlreadyBack(s2.world, snap);
          ResavedStays(s2, snap, StRolledBack);
          var s3 := if snap.status == StRolledBack || snap.status == StReverted then s2
                    else Save(s2, snap.(status := StRolledBack));
          assert Quiet(s3.script);
          VerifyLooks(s3, snap.origin, false);
          InvLooked(s3, RunVerify(s3, snap.origin, false).0);
        } else {
          RollBackStays(s2, snap, cur, restart);
          RollBackCode(s2, snap, cur, restart);
        }
      }
    }
  }

  lemma InvSnap(s: Sys)
    requires Inv(s) && s.disk.Some?
    ensures Planned(s.disk.value) && Stairs(s.world, s.disk.value.origin, s.disk.value.goal)
  {
  }

  lemma CompleteReading(s: Sys)
    requires Quiet(s.script)
    ensures var (s1, entry) := ReadEntry(s);
            var (s2, panel) := ReadPanel(s1);
            var r := ValuesFrom(entry, panel);
            Complete(r) ==> AllValues(r) == LayersOf(s.world) && s.world.bot.Running?
  {
    ReadEntryLooks(s);
    ReadPanelLooks(ReadEntry(s).0);
    hide ReadReality, Quiet;
  }

  lemma RollBackCode(s: Sys, snap: Snapshot, cur: Layers, restart: bool)
    ensures var s1 := Save(s, snap.(status := StRollingBack));
            var (s2, run) := Converge(s1, AsReading(cur), None, snap.origin,
                                      StepsNeeded(AsReading(cur), snap.origin, ROLLBACK_ORDER), restart);
            run.failed.Some? ==> RollBackNow(s, snap, cur, restart).1 == EXIT_FAIL
  {
    hide Converge, RunVerify, Save, StepsNeeded;
  }

  lemma AlreadyBack(w: World, snap: Snapshot)
    requires Stairs(w, snap.origin, snap.goal)
    requires StepsNeeded(AsReading(LayersOf(w)), snap.origin, ROLLBACK_ORDER) == []
    ensures BackAtOrigin(w, snap.origin)
  {
    hide ReadReality, SamePanel, AclEqual;
    EveryStepListed();
    var cur := AsReading(LayersOf(w));
    assert !Needed(PanelStep, cur, snap.origin) && !Needed(HaproxyStep, cur, snap.origin) && !Needed(EnvStep, cur, snap.origin);
    StairsAtOrigin(w, snap.origin, snap.goal);
  }

  // ---- histories ------------------------------------------------------------------------------

  predicate QuietHistory(history: seq<Invocation>) {
    forall h | h in history :: Quiet(h.script) && ValidCommand(h.command)
  }

  lemma NewProcess(s: Sys, script: seq<Fate>)
    requires Inv(s)
    ensures Inv(s.(script := script))
  {
  }

  lemma ExecStays(s: Sys, c: Command)
    requires Inv(s) && Quiet(s.script) && ValidCommand(c)
    ensures Inv(Exec(s, c))
  {
    hide Stairs, Planned, GoodTrace, RunCheck, CmdApply, CmdRollback, RunVerify, StatusTold, BackAtOrigin, Quiet;
    match c
    case DoCheck(o) =>
      var override := if Resumes(s.disk) && SameOptions(s.disk.value, o) then Some(s.disk.value.goal) else None;
      CheckLooks(s, o, override);
      InvLooked(s, RunCheck(s, o, override).0);
    case DoApply(o) => ApplyStays(s, o);
    case DoVerify =>
      if s.disk.Some? {
        var snap := s.disk.value;
        var t := if snap.status == StReverted || snap.status == StRolledBack then snap.origin else snap.goal;
        VerifyLooks(s, t, false);
        InvLooked(s, RunVerify(s, t, false).0);
      }
    case DoRollback(restart, yes) => RollbackStays(s, restart, yes);
  }

  /** The staircase, over every sequence of checks, applies, resumes, verifies
      and rollbacks, each with any fates and killed anywhere: at the end, and
      around every write on the way (GoodTrace), each of panel, ACL and .env
      holds exactly the snapshot's old or new value and the later layers have
      moved only if the earlier ones have. */
  lemma {:induction false} StaircaseHolds(s: Sys, history: seq<Invocation>)
    requires Inv(s) && QuietHistory(history)
    ensures Inv(RunAll(s, history))
    decreases |history|
  {
    hide Stairs, Planned, GoodTrace, Exec, Quiet;
    if history != [] {
      var h := history[0];
      assert h in history;
      var s1 := s.(script := h.script);
      NewProcess(s, h.script);
      ExecStays(s1, h.command);
      assert QuietHistory(history[1..]) by {
        forall x | x in history[1..] ensures x in history { }
      }
      StaircaseHolds(Exec(s1, h.command), history[1..]);
    }
  }

  // ---- recoverability ---------------------------------------------------------------------------

  /** Nobody interferes, every read sees everything, every write lands and its
      success is reported. */
  predicate Cooperates(f: Fate) {
    && f.meddle == None && f.lands && f.replies && !f.wreck
    && f.mask == Mask(true, true, true, true)
  }

  predicate Cooperative(script: seq<Fate>, n: nat) {
    |script| >= n && forall f | f in script :: Cooperates(f)
  }

  lemma CooperativeTail(script: seq<Fate>, n: nat)
    requires Cooperative(script, n) && n > 0
    ensures Cooperates(script[0]) && Cooperative(script[1..], n - 1)
  {
    forall f | f in script[1..] ensures Cooperates(f) {
      assert f in script;
    }
  }

  lemma CooperativeQuiet(script: seq<Fate>, n: nat)
    requires Cooperative(script, n)
    ensures Quiet(script)
  {
  }

  /** A target that can be written over what the layers hold. */
  predicate Fits(w: World, t: Layers) {
    && w.stream.reality.Some? && Interchangeable(PanelOf(w), t.panel)
    && |w.acl| == |t.acl|
  }

  lemma PanelWorks(s: Sys, cur: Reading, t: Layers, restart: bool)
    requires s.script != [] && Cooperates(s.script[0]) && s.world.bot.Running? && Fits(s.world, t)
    requires cur.panel == Some(PanelOf(s.world))
    ensures var (s1, r) := DoStep(s, PanelStep, cur, None, t, restart);
            s1.script == s.script[1..] && s1.world.bot.Running? && r.ok
  {
    hide SamePanel, ReadReality, ApplyRealityChanges;
    SamePanelSelf(PanelOf(s.world));
    SamePanelSelf(t.panel);
    PutOverOther(s.world.stream, t.panel);
  }

  lemma HaproxyWorks(s: Sys, cur: Reading, t: Layers, restart: bool)
    requires s.script != [] && Cooperates(s.script[0]) && s.world.bot.Running? && Fits(s.world, t)
    requires s.world.editable && NoEmptyLine(t.acl) && cur.acl == Some(s.world.acl)
    ensures var (s1, r) := DoStep(s, HaproxyStep, cur, None, t, restart);
            s1.script == s.script[1..] && s1.world.bot.Running? && r.ok
  {
    AclEqualSelf(s.world.acl);
    hide AclEqual, ReadReality, NoEmptyLine;
  }

  /** With everybody cooperating, a step in either direction succeeds, the probe
      excepted. */
  lemma StepWorks(s: Sys, step: Step, cur: Reading, t: Layers, n: nat, restart: bool)
    requires Cooperative(s.script, n) && n > 0
    requires s.world.bot.Running? && s.world.editable && Fits(s.world, t)
    requires Accurate(s.world, cur, step) && cur.panel.Some? && cur.acl.Some? && cur.env.Some?
    requires step == BotStep ==> SniMatches(Effective(s.world.env, s.world.composeDefault), t.env)
    requires step == HaproxyStep ==> NoEmptyLine(t.acl)
    ensures var (s1, r) := DoStep(s, step, cur, None, t, restart);
            && Cooperative(s1.script, n - 1)
            && s1.world.bot.Running?
            && (r.ok || step == ProbeStep)
  {
    hide Cooperative, ReadReality, PanelSet, HaproxySet, NoEmptyLine, Fits;
    assert |s.script| >= n by { CooperativeLong(s.script, n); }
    CooperativeTail(s.script, n);
    match step
    case PanelStep => PanelWorks(s, cur, t, restart);
    case HaproxyStep => HaproxyWorks(s, cur, t, restart);
    case EnvStep =>
    case BotStep =>
    case ProbeStep =>
  }

  lemma CooperativeLong(script: seq<Fate>, n: nat)
    requires Cooperative(script, n)
    ensures |script| >= n
  {
  }

  lemma StairsFit(w: World, snap: Snapshot)
    requires Stairs(w, snap.origin, snap.goal) && Planned(snap)
    ensures Fits(w, snap.origin) && Fits(w, snap.goal)
  {
    PlannedFacts(snap);
    hide SamePanel, AclEqual;
  }

  /** The container compose makes from the old .env is what a rollback expects:
      not when .env holds an empty value and compose puts its default there. */
  predicate DefaultAccepted(origin: Layers, composeDefault: Option<string>) {
    origin.env != Some("") || composeDefault == Some("")
  }

  lemma BotAccepted(w: World, origin: Layers)
    ensures w.env == origin.env && DefaultAccepted(origin, w.composeDefault) ==>
              SniMatches(Effective(w.env, w.composeDefault), origin.env)
  {
  }

  lemma {:induction false} ConvergeBackWorks(s: Sys, cur: Reading, snap: Snapshot, steps: seq<Step>, n: nat, restart: bool)
    requires Moving(s, snap) && Cooperative(s.script, n) && n >= |steps|
    requires s.world.bot.Running? && s.world.editable
    requires BackReady(s.world, cur, snap, steps)
    requires cur.panel.Some? && cur.acl.Some? && cur.env.Some?
    requires HaproxyStep in steps ==> NoEmptyLine(snap.origin.acl)
    requires BotStep in steps ==> DefaultAccepted(snap.origin, s.world.composeDefault)
    ensures Converge(s, cur, None, snap.origin, steps, restart).1.failed == None
    decreases |steps|
  {
    hide Stairs, GoodTrace, Cooperative, Quiet, Planned, ReadReality, SamePanel, AclEqual, DoStep, BackAllowed, Accurate,
         OthersKept, StillAccurate, Reached, DefaultAccepted, Effective, BackReady, SniMatches;
    if steps != [] {
      var step := steps[0];
      FirstStepAllowed(s.world, cur, snap, steps, true);
      EnvBeforeBot(s.world, cur, snap, steps);
      StepStays(s, step, cur, None, snap, true, restart);
      StairsFit(s.world, snap);
      BotAccepted(s.world, snap.origin);
      StepWorks(s, step, cur, snap.origin, n, restart);
      var (s1, r) := DoStep(s, step, cur, None, snap.origin, restart);
      ConstantsFrame(step, s.world, s1.world);
      var cur1 := if r.ok then Advance(cur, step, snap.origin, r) else cur;
      AdvanceAccurate(s.world, cur, step, snap.origin, r);
      SelfAccurate(s.world, cur, step);
      ReadyForRest(s.world, s1.world, cur, cur1, snap, steps, true);
      ConvergeBackWorks(s1, cur1, snap, steps[1..], n - 1, restart);
    }
  }

  lemma ConstantsFrame(step: Step, w: World, w': World)
    requires OthersKept(step, w, w')
    ensures w'.editable == w.editable && w'.composeDefault == w.composeDefault
  {
  }

  /** A line cannot be emptied: with such a target the ACL is never written. */
  lemma {:induction false} EmptyLineKeepsAcl(s: Sys, cur: Reading, guard: Option<PanelValues>, t: Layers, steps: seq<Step>,
                                             restart: bool)
    requires Quiet(s.script) && !NoEmptyLine(t.acl)
    ensures Converge(s, cur, guard, t, steps, restart).0.world.acl == s.world.acl
    decreases |steps|
  {
    if steps != [] {
      var (s1, r) := DoStep(s, steps[0], cur, guard, t, restart);
      EmptyLineStep(s, cur, guard, t, steps[0], restart);
      hide DoStep, Advance, NoEmptyLine, Quiet;
      var cur1 := if r.ok then Advance(cur, steps[0], t, r) else cur;
      EmptyLineKeepsAcl(s1, cur1, guard, t, steps[1..], restart);
    }
  }

  lemma EmptyLineStep(s: Sys, cur: Reading, guard: Option<PanelValues>, t: Layers, step: Step, restart: bool)
    requires Quiet(s.script) && !NoEmptyLine(t.acl)
    ensures var s1 := DoStep(s, step, cur, guard, t, restart).0;
            s1.world.acl == s.world.acl && Quiet(s1.script)
  {
    hide NoEmptyLine, AclEqual, SamePanel, ReadReality, ApplyRealityChanges;
    if s.script != [] { QuietTail(s); }
    var s1 := ReadPanel(s).0;
    if s1.script != [] && s.script != [] { QuietTail(s1); }
  }

  lemma NoRollbackConflict(w: World, snap: Snapshot)
    requires Stairs(w, snap.origin, snap.goal)
    ensures !RollbackConflict(LayersOf(w), snap)
  {
    SamePanelSelf(PanelOf(w));
    AclEqualSelf(w.acl);
    hide SamePanel, AclEqual, ReadReality;
  }

  /** Where every recreate falls short of an expected empty value, a run back
      never gets past the bot step. */
  lemma {:induction false} BotRefused(s: Sys, cur: Reading, guard: Option<PanelValues>, t: Layers, steps: seq<Step>,
                                      restart: bool)
    requires Quiet(s.script) && !DefaultAccepted(t, s.world.composeDefault)
    requires Ordered(steps, true) && BotStep in steps
    ensures var (s', run) := Converge(s, cur, guard, t, steps, restart);
            && s'.world.acl == s.world.acl && s'.world.stream == s.world.stream
            && s'.world.composeDefault == s.world.composeDefault
            && (s'.world.bot == s.world.bot || s'.world.bot.Down? || s'.world.bot.sni != Some(""))
            && run.failed.Some?
    decreases |steps|
  {
    hide DoStep, Advance, Quiet, DefaultAccepted, Ordered, Rank;
    var (s1, r) := DoStep(s, steps[0], cur, guard, t, restart);
    if steps[0] == BotStep {
      BotStepRefused(s, cur, guard, t, restart);
    } else {
      EnvComesFirst(steps);
      EnvStepKeeps(s, cur, guard, t, restart);
      if r.ok {
        BotRefused(s1, Advance(cur, EnvStep, t, r), guard, t, steps[1..], restart);
      }
    }
  }

  lemma EnvComesFirst(steps: seq<Step>)
    requires Ordered(steps, true) && BotStep in steps && steps[0] != BotStep
    ensures steps[0] == EnvStep && BotStep in steps[1..] && Ordered(steps[1..], true)
  {
    var j :| 0 <= j < |steps| && steps[j] == BotStep;
    assert steps[1..][j - 1] == BotStep;
    assert Rank(steps[0], true) < Rank(steps[j], true);
  }

  lemma BotStepRefused(s: Sys, cur: Reading, guard: Option<PanelValues>, t: Layers, restart: bool)
    requires Quiet(s.script) && !DefaultAccepted(t, s.world.composeDefault)
    ensures var (s1, r) := DoStep(s, BotStep, cur, guard, t, restart);
            && s1.world == s.world.(bot := s1.world.bot) && !r.ok
            && (s1.world.bot == s.world.bot || s1.world.bot.Down? || s1.world.bot.sni != Some(""))
  {
    if s.script != [] { QuietTail(s); }
  }

  lemma EnvStepKeeps(s: Sys, cur: Reading, guard: Option<PanelValues>, t: Layers, restart: bool)
    requires Quiet(s.script)
    ensures var s1 := DoStep(s, EnvStep, cur, guard, t, restart).0;
            Quiet(s1.script) && s1.world == s.world.(env := s1.world.env)
  {
    if s.script != [] { QuietTail(s); }
  }

  /** With everybody cooperating, .env is put back before anything can fail. */
  lemma EnvComesBack(s: Sys, cur: Reading, snap: Snapshot, steps: seq<Step>, n: nat, restart: bool)
    requires Moving(s, snap) && Cooperative(s.script, n) && n > 0
    requires s.world.bot.Running? && s.world.editable && BackReady(s.world, cur, snap, steps)
    requires cur.panel.Some? && cur.acl.Some? && cur.env.Some?
    requires EnvStep !in steps ==> s.world.env == snap.origin.env
    ensures Converge(s, cur, None, snap.origin, steps, restart).0.world.env == snap.origin.env
  {
    hide Stairs, GoodTrace, Cooperative, Quiet, Planned, ReadReality, SamePanel, AclEqual, DoStep, OthersKept, StillAccurate,
         Converged, BackReady, Ordered, Rank, LogSteps, Moving;
    var s' := Converge(s, cur, None, snap.origin, steps, restart).0;
    if EnvStep !in steps {
      ConvergeStays(s, cur, None, snap, steps, true, restart);
      EnvUntouched(s.world, s'.world, snap.origin, steps, Converge(s, cur, None, snap.origin, steps, restart).1);
    } else {
      ReadyOrdered(s.world, cur, snap, steps, true);
      EnvHeads(steps);
      FirstStepAllowed(s.world, cur, snap, steps, true);
      StepStays(s, EnvStep, cur, None, snap, true, restart);
      MovingFacts(s, snap);
      StairsFit(s.world, snap);
      StepWorks(s, EnvStep, cur, snap.origin, n, restart);
      var (s1, r) := DoStep(s, EnvStep, cur, None, snap.origin, restart);
      var cur1 := Advance(cur, EnvStep, snap.origin, r);
      AdvanceAccurate(s.world, cur, EnvStep, snap.origin, r);
      ReadyForRest(s.world, s1.world, cur, cur1, snap, steps, true);
      RestExcludes(steps, true);
      ConvergeStays(s1, cur1, None, snap, steps[1..], true, restart);
      var (s2, rest) := Converge(s1, cur1, None, snap.origin, steps[1..], restart);
      EnvUntouched(s1.world, s2.world, snap.origin, steps[1..], rest);
    }
  }

  lemma EnvHeads(steps: seq<Step>)
    requires Ordered(steps, true) && EnvStep in steps
    ensures steps[0] == EnvStep
  {
    if steps[0] != EnvStep { FirstIsFirst(steps, true, EnvStep); }
  }

  lemma EnvUntouched(w: World, w': World, t: Layers, steps: seq<Step>, run: Run)
    requires Converged(w, w', t, steps, run) && EnvStep !in steps
    ensures w'.env == w.env
  {
    assert EnvStep !in LogSteps(run.log);
    assert Kept(EnvStep, w, w');
    hide LogSteps, Reached;
  }

  /** A rollback has to recreate the container. */
  predicate BotDue(w: World, origin: Layers) {
    w.env != origin.env || !SniMatches(ContainerSni(w.bot), origin.env)
  }

  /** The bot step succeeds, or is not needed, or nothing comes after it. */
  predicate BotComesBack(w: World, origin: Layers) {
    || DefaultAccepted(origin, w.composeDefault)
    || !BotDue(w, origin)
    || (AtAcl(w, origin) && AtPanel(w, origin))
  }

  predicate AclComesBack(w: World, origin: Layers) {
    AtAcl(w, origin) || NoEmptyLine(origin.acl)
  }

  /** From every state the stairs allow, that is from every state any history
      reaches while its snapshot is kept: no layer is in conflict; with the
      container down, a rollback cannot look and does nothing; otherwise one
      whose reads and steps are not interfered with restores the exact panel,
      ACL and .env from before the rotation if and only if

      * the ACL has not moved, or every old ACL line names somebody; and
      * the old .env did not hold an empty SNI_VALUE that compose replaces by
        its default, or the container need not be recreated, or panel and ACL
        have not moved. */
  lemma Recoverable(s: Sys, restart: bool)
    requires Inv(s) && s.disk.Some? && Cooperative(s.script, 20) && s.world.editable
    ensures var w, snap := s.world, s.disk.value;
            var (s', code) := CmdRollback(s, restart, true);
            && !RollbackConflict(LayersOf(w), snap)
            && (w.bot.Down? ==> s'.world == w && s'.disk == s.disk && code == EXIT_BLIND)
            && (w.bot.Running? ==>
                  (BackAtOrigin(s'.world, snap.origin) <==> AclComesBack(w, snap.origin) && BotComesBack(w, snap.origin)))
  {
    hide Stairs, GoodTrace, Planned, Quiet, BackAtOrigin, RollbackConflict, LayersOf, CmdRollback, AclComesBack, BotComesBack;
    CooperativeQuiet(s.script, 20);
    InvSnap(s);
    NoRollbackConflict(s.world, s.disk.value);
    if s.world.bot.Down? {
      DownBlindsRollback(s, restart, true);
    } else {
      RunningRecovers(s, restart);
    }
  }

  /** Panel calls go through the container: without it a rollback sees nothing. */
  lemma DownBlindsRollback(s: Sys, restart: bool, yes: bool)
    requires Quiet(s.script) && s.world.bot.Down?
    ensures OnlyLooked(s, CmdRollback(s, restart, yes).0) && CmdRollback(s, restart, yes).1 == EXIT_BLIND
  {
    hide RollBackNow, RunVerify, StepsNeeded, RollbackConflict, ReadReality, Quiet;
    ReadEntryLooks(s);
    ReadPanelLooks(ReadEntry(s).0);
  }

  lemma RunningRecovers(s: Sys, restart: bool)
    requires Inv(s) && s.disk.Some? && Cooperative(s.script, 20)
    requires s.world.bot.Running? && s.world.editable
    ensures var w, snap := s.world, s.disk.value;
            BackAtOrigin(CmdRollback(s, restart, true).0.world, snap.origin)
            <==> AclComesBack(w, snap.origin) && BotComesBack(w, snap.origin)
  {
    hide Stairs, GoodTrace, Planned, Converge, RunVerify, Quiet, RollBackNow, ReadReality, NoEmptyLine, StepsNeeded,
         BackAtOrigin, RollbackConflict, LayersOf, AclComesBack, BotComesBack;
    var snap := s.disk.value;
    CooperativeQuiet(s.script, 20);
    CooperativeTail(s.script, 20);
    ReadEntryLooks(s);
    var (s1, entry) := ReadEntry(s);
    CooperativeTail(s1.script, 19);
    ReadPanelLooks(s1);
    var (s2, panel) := ReadPanel(s1);
    InvLooked(s, s2);
    CompleteReading(s);
    InvSnap(s);
    var cur := LayersOf(s.world);
    assert Complete(ValuesFrom(entry, panel)) && AllValues(ValuesFrom(entry, panel)) == cur;
    NoRollbackConflict(s.world, snap);
    if StepsNeeded(AsReading(cur), snap.origin, ROLLBACK_ORDER) == [] {
      AlreadyBack(s.world, snap);
      BackComesBack(s.world, snap.origin);
      var s3 := if snap.status == StRolledBack || snap.status == StReverted then s2
                else Save(s2, snap.(status := StRolledBack));
      ResavedStays(s2, snap, StRolledBack);
      VerifyLooks(s3, snap.origin, false);
    } else {
      RollBackStays(s2, snap, cur, restart);
      RollBackWorks(s2, snap, cur, restart);
    }
  }

  lemma BackComesBack(w: World, origin: Layers)
    requires BackAtOrigin(w, origin)
    ensures AclComesBack(w, origin) && BotComesBack(w, origin)
  {
    AclEqualSelf(w.acl);
    SamePanelSelf(PanelOf(w));
  }

  lemma RollBackWorks(s: Sys, snap: Snapshot, cur: Layers, restart: bool)
    requires Inv(s) && s.disk == Some(snap) && Cooperative(s.script, 18)
    requires s.world.bot.Running? && s.world.editable && cur == LayersOf(s.world)
    requires StepsNeeded(AsReading(cur), snap.origin, ROLLBACK_ORDER) != []
    ensures BackAtOrigin(RollBackNow(s, snap, cur, restart).0.world, snap.origin)
            <==> AclComesBack(s.world, snap.origin) && BotComesBack(s.world, snap.origin)
  {
    hide Stairs, GoodTrace, Planned, Converge, RunVerify, Quiet, RollBackNow, ReadReality, NoEmptyLine, StepsNeeded,
         BackAtOrigin, AtAcl, AtPanel, Save, Reached, Only, BackReady, LayersOf, DefaultAccepted, BotDue;
    InvSnap(s);
    CooperativeQuiet(s.script, 18);
    RollBackStays(s, snap, cur, restart);
    var origin, rolling := snap.origin, snap.(status := StRollingBack);
    PlannedStatus(snap, StRollingBack);
    SavedMoves(s, rolling);
    CooperativeTail(s.script, 18);
    var s1 := Save(s, rolling);
    assert Cooperative(s1.script, 17) by { SavedScript(s, rolling); }
    CooperativeQuiet(s1.script, 17);
    var steps := StepsNeeded(AsReading(cur), origin, ROLLBACK_ORDER);
    var (s2, run) := Converge(s1, AsReading(cur), None, origin, steps, restart);
    LayersRead(s1.world);
    MovingFacts(s1, rolling);
    ReadyToRevert(s1.world, AsReading(cur), rolling, ALL_STEPS);
    OnlyAll(steps);
    BotStepDue(s.world, origin);
    if !AclComesBack(s.world, origin) {
      EmptyLineKeepsAcl(s1, AsReading(cur), None, origin, steps, restart);
      if BackAtOrigin(s2.world, origin) { SameAclAtOrigin(s.world, s2.world, origin); }
    } else if BotStep !in steps || DefaultAccepted(origin, s.world.composeDefault) {
      HaproxyNotNeeded(s.world, origin);
      FewSteps(AsReading(cur), origin);
      ConvergeBackWorks(s1, AsReading(cur), rolling, steps, 17, restart);
    } else {
      ReadyOrdered(s1.world, AsReading(cur), rolling, steps, true);
      BotRefused(s1, AsReading(cur), None, origin, steps, restart);
      if AtAcl(s.world, origin) && AtPanel(s.world, origin) {
        EnvListed(s.world, origin);
        EnvComesBack(s1, AsReading(cur), rolling, steps, 17, restart);
        OnStairsAfter(s1, AsReading(cur), rolling, steps, restart);
        BackFromEnv(s.world, s2.world, rolling);
      } else if BackAtOrigin(s2.world, origin) {
        SameFrontAtOrigin(s.world, s2.world, origin);
      }
    }
  }

  lemma BotStepDue(w: World, origin: Layers)
    ensures BotStep in StepsNeeded(AsReading(LayersOf(w)), origin, ROLLBACK_ORDER) <==> BotDue(w, origin)
  {
    EveryStepListed();
    hide AclEqual, SamePanel, ReadReality;
  }

  lemma EnvListed(w: World, origin: Layers)
    ensures EnvStep !in StepsNeeded(AsReading(LayersOf(w)), origin, ROLLBACK_ORDER) ==> w.env == origin.env
  {
    EveryStepListed();
    hide AclEqual, SamePanel, ReadReality;
  }

  lemma OnStairsAfter(s: Sys, cur: Reading, snap: Snapshot, steps: seq<Step>, restart: bool)
    requires Moving(s, snap) && BackReady(s.world, cur, snap, steps)
    ensures Stairs(Converge(s, cur, None, snap.origin, steps, restart).0.world, snap.origin, snap.goal)
  {
    ConvergeStays(s, cur, None, snap, steps, true, restart);
    hide Converge, Stairs, Converged, BackReady;
  }

  lemma BackFromEnv(w: World, w': World, snap: Snapshot)
    requires AtAcl(w, snap.origin) && AtPanel(w, snap.origin) && w'.acl == w.acl && w'.stream == w.stream
    requires w'.env == snap.origin.env && Stairs(w', snap.origin, snap.goal)
    ensures BackAtOrigin(w', snap.origin)
  {
    hide AclEqual, SamePanel, ReadReality, Stairs;
    StairsAtOrigin(w', snap.origin, snap.goal);
  }

  lemma SameFrontAtOrigin(w: World, w': World, origin: Layers)
    requires BackAtOrigin(w', origin) && w'.acl == w.acl && w'.stream == w.stream
    ensures AtAcl(w, origin) && AtPanel(w, origin)
  {
    AclEqualSelf(w.acl);
    SamePanelSelf(PanelOf(w));
  }

  lemma SameAclAtOrigin(w: World, w': World, origin: Layers)
    requires BackAtOrigin(w', origin) && w'.acl == w.acl
    ensures AtAcl(w, origin)
  {
  }

  lemma SavedScript(s: Sys, snap: Snapshot)
    requires s.script != []
    ensures Save(s, snap).script == s.script[1..]
  {
  }

  lemma HaproxyNotNeeded(w: World, origin: Layers)
    requires AtAcl(w, origin) || NoEmptyLine(origin.acl)
    ensures HaproxyStep in StepsNeeded(AsReading(LayersOf(w)), origin, ROLLBACK_ORDER) ==> NoEmptyLine(origin.acl)
  {
    hide AclEqual, SamePanel, ReadReality, NoEmptyLine;
  }

  lemma FewSteps(cur: Reading, t: Layers)
    ensures |StepsNeeded(cur, t, ROLLBACK_ORDER)| <= 5
  {
    StepsShorter(cur, t, ROLLBACK_ORDER);
  }

  lemma {:induction false} StepsShorter(cur: Reading, t: Layers, order: seq<Step>)
    ensures |StepsNeeded(cur, t, order)| <= |order|
  {
    if order != [] { StepsShorter(cur, t, order[1..]); }
  }
}
