/** Hosts on which no number of rollbacks helps: an .env that defines SNI_VALUE
    as empty, and a container that a failed recreate left down. */
module Stuck {
  import opened Wrappers
  import opened Names
  import opened Planning
  import opened Reality
  import opened World
  import opened Verification
  import opened Rotation
  import opened Staircase
  import opened Histories
  import opened Recovery
  import opened Guarantees
  import opened Shortfalls
  import opened Undisturbed
  import C = Continuity

  // ---- an SNI_VALUE that is empty ----------------------------------------------------------------

  /** Old panel and ACL are out of reach: the rollback expects an empty value in
      a container that compose gives its default. */
  predicate Barred(s: Sys) {
    && s.disk.Some? && !DefaultAccepted(s.disk.value.origin, s.world.composeDefault)
    && ContainerSni(s.world.bot) != Some("")
  }

  /** Panel and ACL are as they were, and so is what keeps them there. */
  predicate StillBarred(s: Sys, s1: Sys) {
    && Barred(s1) && SameRotation(s.disk, s1.disk)
    && s1.world.stream == s.world.stream && s1.world.acl == s.world.acl
  }

  /** Whatever happens to its operations: a rollback of a barred host stops at
      the bot step, before HAProxy and panel. */
  lemma RollbackBarred(s: Sys, restart: bool, yes: bool)
    requires Inv(s) && Quiet(s.script) && Barred(s)
    ensures StillBarred(s, CmdRollback(s, restart, yes).0)
  {
    hide Stairs, Planned, GoodTrace, StepsNeeded, Converge, RunVerify, Inv, LayersOf, Quiet, RollBackNow, RollbackConflict,
         ReadReality, DefaultAccepted;
    RollbackKeeps(s, restart, yes);
    var snap := s.disk.value;
    ReadEntryLooks(s);
    var (s1, entry) := ReadEntry(s);
    ReadPanelLooks(s1);
    var (s2, panel) := ReadPanel(s1);
    InvLooked(s, s2);
    CompleteReading(s);
    if Complete(ValuesFrom(entry, panel)) {
      BotStepDue(s.world, snap.origin);
      BarredIsDue(s);
      RollBackBarred(s2, snap, LayersOf(s.world), restart);
    }
  }

  lemma BarredIsDue(s: Sys)
    requires Barred(s)
    ensures BotDue(s.world, s.disk.value.origin)
  {
  }

  lemma RollBackBarred(s: Sys, snap: Snapshot, cur: Layers, restart: bool)
    requires Inv(s) && Quiet(s.script) && s.disk == Some(snap) && Barred(s) && s.world.bot.Running? && cur == LayersOf(s.world)
    requires BotStep in StepsNeeded(AsReading(cur), snap.origin, ROLLBACK_ORDER)
    ensures var w := RollBackNow(s, snap, cur, restart).0.world;
            && w.stream == s.world.stream && w.acl == s.world.acl && w.composeDefault == s.world.composeDefault
            && ContainerSni(w.bot) != Some("")
  {
    hide Stairs, Planned, GoodTrace, StepsNeeded, Converge, RunVerify, Inv, LayersOf, Quiet, RollBackNow, DefaultAccepted,
         Save, Ordered;
    InvSnap(s);
    RollBackStays(s, snap, cur, restart);
    var s1 := Save(s, snap.(status := StRollingBack));
    SaveLooks(s, snap.(status := StRollingBack));
    Orders();
    NeededOrdered(AsReading(cur), snap.origin, ROLLBACK_ORDER, true);
    BotRefused(s1, AsReading(cur), None, snap.origin, StepsNeeded(AsReading(cur), snap.origin, ROLLBACK_ORDER), restart);
  }

  predicate OnlyRollbacks(history: seq<Invocation>) {
    QuietHistory(history) && forall h | h in history :: h.command.DoRollback?
  }

  /** And so does every later one. */
  lemma {:induction false} NeverRecovers(s: Sys, history: seq<Invocation>)
    requires Inv(s) && Barred(s) && OnlyRollbacks(history)
    ensures StillBarred(s, RunAll(s, history))
    decreases |history|
  {
    hide Inv, CmdRollback, Quiet, DefaultAccepted, Exec;
    if history != [] {
      var h := history[0];
      assert h in history && forall x | x in history[1..] :: x in history;
      var s1 := s.(script := h.script);
      NewProcess(s, h.script);
      RollbackBarred(s1, h.command.restart, h.command.yes);
      RollbackStays(s1, h.command.restart, h.command.yes);
      assert Exec(s1, h.command) == CmdRollback(s1, h.command.restart, h.command.yes).0 by { ExecRollback(s1, h.command); }
      NeverRecovers(Exec(s1, h.command), history[1..]);
    }
  }

  lemma ExecRollback(s: Sys, c: Command)
    requires c.DoRollback?
    ensures Exec(s, c) == CmdRollback(s, c.restart, c.yes).0
  {
    hide CmdRollback;
  }

  /** A host whose .env says `SNI_VALUE=` passes the checks and rotates; after
      that, no sequence of rollbacks moves panel or ACL, however well its
      operations go. */
  lemma EmptyValueSticks(s: Sys, o: Opts, history: seq<Invocation>)
    requires Inv(s) && !Resumes(s.disk) && Rotatable(s.world) && ValidOpts(o) && o.yes
    requires s.world.env == Some("") && s.world.composeDefault != Some("") && OnlyRollbacks(history)
    ensures var s1 := CmdApply(s.(script := WillingFates(20)), o).0;
            && AtFront(s1.world, FreshSnapshot(s.world, o).goal)
            && StillBarred(s1, RunAll(s1, history))
  {
    hide Inv, CmdApply, RunAll, LayersOf, PlanTarget, Rotatable, WillingFates, AtFront, OnlyRollbacks;
    var s0 := s.(script := WillingFates(20));
    NewProcess(s, WillingFates(20));
    FreshLayers(s.world, o);
    assert IsSet(Some(o.sni));
    ApplyRotates(s0, o);
    NeverRecovers(CmdApply(s0, o).0, history);
  }

  /** Panel and ACL on a.example, SNI_VALUE empty, and so the container on
      compose's own default. */
  function EmptyHost(): World {
    C.UnsetHost().(env := Some(""), composeDefault := Some("www.microsoft.com"),
                   bot := Running(Some("www.microsoft.com"), true))
  }

  lemma EmptyHostSticks(history: seq<Invocation>)
    requires OnlyRollbacks(history)
    ensures var s := Sys(EmptyHost(), None, WillingFates(20), []);
            && Inv(s) && Rotatable(s.world)
            && !BackAtOrigin(RunAll(CmdApply(s, C.TO_B).0, history).world, LayersOf(s.world))
  {
    hide CmdApply, RunAll, OnlyRollbacks, PlanTarget, Inv, WillingFates;
    var s := Sys(EmptyHost(), None, WillingFates(20), []);
    C.NoRotationYet(s);
    C.UnsetHostReads();
    assert PanelOf(s.world) == PanelOf(C.UnsetHost());
    EmptyValueSticks(s, C.TO_B, history);
    var w := CmdApply(s, C.TO_B).0.world;
    NewNameAtFront(w, FreshSnapshot(s.world, C.TO_B), RunAll(CmdApply(s, C.TO_B).0, history).world);
  }

  /** The new panel knows the new name, the old one did not. */
  lemma NewNameAtFront(w: World, snap: Snapshot, w': World)
    requires snap == FreshSnapshot(EmptyHost(), C.TO_B)
    requires AtFront(w, snap.goal) && w'.stream == w.stream
    ensures !BackAtOrigin(w', snap.origin)
  {
    hide TransformNames, RemovedNames, AclEqual;
    C.UnsetHostReads();
    PlannedNames(snap.origin.panel, "b.example", true);
    SameNamesSameSet(PanelOf(w).names, snap.goal.panel.names);
    assert PanelOf(w').names == PanelOf(w).names;
    InNameSet(["a.example"], "b.example");
    assert Lower("b.example") == "b.example" && Lower("a.example")[0] == 'a';
    assert snap.origin.panel.names == ["a.example"];
  }

  // ---- a container that is down ------------------------------------------------------------------------

  /** With the container down no command of any history writes anything. */
  lemma {:induction false} DownStopsEverything(s: Sys, history: seq<Invocation>)
    requires s.world.bot.Down? && QuietHistory(history)
    ensures var s' := RunAll(s, history);
            s'.world == s.world && s'.disk == s.disk && s'.trace == s.trace
    decreases |history|
  {
    hide Quiet, Exec;
    if history != [] {
      var h := history[0];
      assert h in history && forall x | x in history[1..] :: x in history;
      DownStopsCommand(s.(script := h.script), h.command);
      DownStopsEverything(Exec(s.(script := h.script), h.command), history[1..]);
    }
  }

  lemma DownStopsApply(s: Sys, o: Opts)
    requires s.world.bot.Down? && Quiet(s.script)
    ensures var s1 := CmdApply(s, o).0; s1.world == s.world && s1.disk == s.disk && s1.trace == s.trace
  {
    hide RunCheck, ApplyPlan, Archive, Save, PlanTarget, StepsNeeded, Quiet, SameOptions;
    var resume := Resumes(s.disk);
    var override := if resume then Some(s.disk.value.goal) else None;
    CheckLooks(s, o, override);
    var (s1, plan) := RunCheck(s, o, override);
    assert !plan.Ready?;
  }

  lemma DownStopsCommand(s: Sys, c: Command)
    requires s.world.bot.Down? && Quiet(s.script)
    ensures var s1 := Exec(s, c); s1.world == s.world && s1.disk == s.disk && s1.trace == s.trace
  {
    hide RunCheck, CmdRollback, RunVerify, Quiet, CmdApply, SameOptions;
    match c
    case DoCheck(o) =>
      CheckLooks(s, o, if Resumes(s.disk) && SameOptions(s.disk.value, o) then Some(s.disk.value.goal) else None);
    case DoApply(o) => DownStopsApply(s, o);
    case DoVerify =>
      if s.disk.Some? {
        var snap := s.disk.value;
        VerifyLooks(s, if snap.status == StReverted || snap.status == StRolledBack then snap.origin else snap.goal, false);
      }
    case DoRollback(restart, yes) => DownBlindsRollback(s, restart, yes);
  }

  /** Rotate, then roll back into a recreate that leaves no container. */
  function WreckedHistory(o: Opts): seq<Invocation> {
    [Invocation(DoApply(o), WillingFates(20)), Invocation(DoRollback(false, true), ToBot(true, true))]
  }

  /** That state is reached from every host that passes the checks; from there
      on, until somebody starts the container by hand, every command of every
      history leaves old .env, new panel and new ACL as they are. */
  lemma WreckedRecreateSticks(s: Sys, o: Opts, history: seq<Invocation>)
    requires Inv(s) && !Resumes(s.disk) && Rotatable(s.world) && ValidOpts(o) && o.yes && s.world.env != Some(o.sni)
    requires QuietHistory(history)
    ensures var w := RunAll(RunAll(s, WreckedHistory(o)), history).world;
            && w.bot.Down? && w.env == s.world.env && AtFront(w, FreshSnapshot(s.world, o).goal)
  {
    hide Inv, Exec, CmdApply, CmdRollback, LayersOf, PlanTarget, Rotatable, WillingFates, Quiet, ToBot, AtFront, RunAll, BotDue;
    var h := WreckedHistory(o);
    RunTwo(s, h);
    var s0 := s.(script := h[0].script);
    NewProcess(s, h[0].script);
    ExecUnfolds(s0, o, false);
    FreshLayers(s.world, o);
    RotatableReads(s.world);
    ApplyRotates(s0, o);
    var s1 := CmdApply(s0, o).0.(script := h[1].script);
    NewProcess(CmdApply(s0, o).0, h[1].script);
    assert BotDue(s1.world, s1.disk.value.origin) by { EnvMakesDue(s1.world, s1.disk.value.origin); }
    RollbackToBot(s1, true, false);
    ExecUnfolds(s1, o, false);
    var s2 := CmdRollback(s1, false, true).0;
    C.FrontFrame(s1.world, s2.world, FreshSnapshot(s.world, o).goal);
    DownStopsEverything(s2, history);
  }

  lemma EnvMakesDue(w: World, origin: Layers)
    ensures w.env != origin.env ==> BotDue(w, origin)
  {
  }
}
