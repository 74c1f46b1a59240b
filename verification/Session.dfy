/** The rotation in the form it is written in: an object whose operations
    change the world, the snapshot file and the record of writes in place, a
    converge loop that keeps its own idea of the current values up to date,
    and the two commands that drive it. Each method is proved to compute the
    function of the same name, about which the other modules prove what a
    rotation promises. */
module Session {
  import opened Wrappers
  import opened Names
  import opened Planning
  import opened Reality
  import opened World
  import opened Verification
  import R = Rotation

  class Session {
    var world: World
    var disk: Option<Snapshot>
    var script: seq<Fate>
    var trace: seq<Event>

    constructor (w: World, d: Option<Snapshot>, fates: seq<Fate>)
      ensures State() == Sys(w, d, fates, [])
    {
      world, disk, script, trace := w, d, fates, [];
    }

    function State(): Sys
      reads this
    {
      Sys(world, disk, script, trace)
    }

    /** The next operation's fate; the adversary moves first. */
    method Next() returns (f: Fate)
      requires script != []
      modifies this
      ensures f == old(script)[0] && State() == Begin(old(State()))
    {
      f := script[0];
      script := script[1..];
      if f.meddle.Some? {
        world := f.meddle.value;
      }
    }

    method Land(op: Step, w: World)
      modifies this
      ensures State() == Write(old(State()), op, w)
    {
      trace := trace + [Event(op, world, w, disk)];
      world := w;
    }

    // ---- snapshot store ------------------------------------------------------------

    method SaveSnapshot(snap: Snapshot)
      modifies this
      ensures State() == Save(old(State()), snap)
    {
      if script != [] {
        var _ := Next();
        disk := Some(snap);
      }
    }

    method ArchiveSnapshot()
      modifies this
      ensures State() == Archive(old(State()))
    {
      if script != [] {
        var _ := Next();
        disk := None;
      }
    }

    // ---- reads ---------------------------------------------------------------------

    method LookAtEntry() returns (r: Option<EntryRead>)
      modifies this
      ensures (State(), r) == ReadEntry(old(State()))
    {
      r := None;
      if script != [] {
        var f := Next();
        if f.replies {
          var e := EntryRead(None, world.haproxyActive, world.editable, None, None, None);
          if f.mask.acl { e := e.(acl := Some(world.acl)); }
          if f.mask.env { e := e.(env := Some(world.env)); }
          if f.mask.bot { e := e.(bot := Some(world.bot)); }
          if f.mask.probe { e := e.(probe := Some(world.probe)); }
          r := Some(e);
        }
      }
    }

    method LookAtPanel() returns (r: Option<PanelValues>)
      modifies this
      ensures (State(), r) == ReadPanel(old(State()))
    {
      r := None;
      if script != [] {
        var f := Next();
        if f.replies && world.bot.Running? {
          r := Some(ReadReality(world.stream));
        }
      }
    }

    method LookAtCandidate() returns (r: Option<bool>)
      modifies this
      ensures (State(), r) == ProbeExit(old(State()))
    {
      r := None;
      if script != [] {
        var f := Next();
        if f.replies {
          r := Some(f.verdict);
        }
      }
    }

    method LookAtXray() returns (r: XrayRead)
      modifies this
      ensures (State(), r) == ReadXray(old(State()))
    {
      r := NotRead;
      if script != [] {
        var f := Next();
        if f.replies {
          r := if f.verdict then Runtime(world.xray) else NoConfig;
        }
      }
    }

    method ShakeHands() returns (r: TlsRead)
      modifies this
      ensures (State(), r) == TlsEntry(old(State()))
    {
      r := Unreachable;
      if script != [] {
        var f := Next();
        if f.replies {
          r := f.tls;
        }
      }
    }

    // ---- writes --------------------------------------------------------------------

    method SetPanel(expected: PanelValues, target: PanelValues, restart: bool) returns (r: StepResult)
      modifies this
      ensures (State(), r) == PanelSet(old(State()), expected, target, restart)
    {
      r := FAILED;
      if script == [] {
        return;
      }
      var f := Next();
      if world.bot.Down? {
        return;
      }
      if !SamePanel(ReadReality(world.stream), expected) {
        r := StepResult(false, f.replies, None, false);
        return;
      }
      var put := ApplyRealityChanges(world.stream, target);
      if put.Some? && f.lands {
        var after := ReadReality(put.value);
        var w := world.(stream := put.value);
        if restart {
          w := w.(xray := XrayView(after.dest, after.names));
        }
        Land(PanelStep, w);
        if f.replies {
          r := StepResult(true, false, Some(after), restart);
        }
      }
    }

    method SetHaproxy(expected: AclLines, target: AclLines) returns (r: StepResult)
      modifies this
      ensures (State(), r) == HaproxySet(old(State()), expected, target)
    {
      r := FAILED;
      if script == [] {
        return;
      }
      var f := Next();
      if !AclEqual(world.acl, expected) {
        r := StepResult(false, f.replies, None, false);
      } else if |target| == |world.acl| && NoEmptyLine(target) && world.editable && f.lands {
        Land(HaproxyStep, world.(acl := target));
        if f.replies {
          r := StepResult(true, false, None, false);
        }
      }
    }

    method SetEnv(expected: Option<string>, value: Option<string>) returns (r: StepResult)
      modifies this
      ensures (State(), r) == EnvSet(old(State()), expected, value)
    {
      r := FAILED;
      if script == [] {
        return;
      }
      var f := Next();
      if world.env != expected {
        r := StepResult(false, f.replies, None, false);
      } else if world.editable && f.lands {
        Land(EnvStep, world.(env := value));
        if f.replies {
          r := StepResult(true, false, None, false);
        }
      }
    }

    method RecreateBot(expected: Option<string>) returns (r: StepResult)
      modifies this
      ensures (State(), r) == BotRecreate(old(State()), expected)
    {
      r := FAILED;
      if script == [] {
        return;
      }
      var f := Next();
      if f.lands {
        if f.wreck {
          Land(BotStep, world.(bot := Down));
        } else {
          var sni := if IsSet(world.env) then world.env else world.composeDefault;
          Land(BotStep, world.(bot := Running(sni, f.replies)));
          if f.replies && SniMatches(sni, expected) {
            r := StepResult(true, false, None, false);
          }
        }
      }
    }

    method RegenProbe(expected: Option<string>) returns (r: StepResult)
      modifies this
      ensures (State(), r) == ProbeRegen(old(State()), expected)
    {
      r := FAILED;
      if script == [] {
        return;
      }
      var f := Next();
      if world.bot.Running? && world.bot.sni == expected && f.lands {
        Land(ProbeStep, world.(probe := Probe(true, world.bot.sni, f.replies)));
        if f.replies {
          r := StepResult(true, false, None, false);
        }
      }
    }

    // ---- do_step, converge, revert_to -------------------------------------------------

    method DoStep(step: Step, cur: Reading, guard: Option<PanelValues>, t: Layers, restart: bool) returns (r: StepResult)
      modifies this
      ensures (State(), r) == R.DoStep(old(State()), step, cur, guard, t, restart)
    {
      r := FAILED;
      match step
      case PanelStep =>
        var expected := cur.panel;
        if expected == None {
          expected := LookAtPanel();
          if expected == None {
            return;
          }
          if SamePanel(expected.value, t.panel) {
            r := StepResult(true, false, expected, false);
            return;
          }
          if guard.Some? && !SamePanel(expected.value, guard.value) {
            r := StepResult(false, true, None, false);
            return;
          }
        }
        r := SetPanel(expected.value, t.panel, restart);
        if r.ok && r.after.Some? && !SamePanel(r.after.value, t.panel) {
          r := r.(ok := false);
        }
      case HaproxyStep =>
        if cur.acl.Some? {
          r := SetHaproxy(cur.acl.value, t.acl);
        }
      case EnvStep =>
        if cur.env.Some? {
          r := SetEnv(cur.env.value, t.env);
        }
      case BotStep =>
        r := RecreateBot(t.env);
      case ProbeStep =>
        r := RegenProbe(t.env);
    }

    /** The loop of converge: `cur` follows every successful step. */
    method Converge(start: Reading, guard: Option<PanelValues>, t: Layers, steps: seq<Step>, restart: bool)
      returns (run: R.Run)
      modifies this
      ensures (State(), run) == R.Converge(old(State()), start, guard, t, steps, restart)
    {
      hide R.DoStep, R.Advance, R.Converge;
      ghost var whole := R.Converge(State(), start, guard, t, steps, restart);
      var cur, log, soft, i := start, [], false, 0;
      assert steps[0..] == steps && log + whole.1.log == whole.1.log;
      while i < |steps|
        invariant 0 <= i <= |steps|
        invariant Continues(whole, log, soft, R.Converge(State(), cur, guard, t, steps[i..], restart))
      {
        ghost var before, curBefore := State(), cur;
        var step := steps[i];
        var r := DoStep(step, cur, guard, t, restart);
        ConvergeUnfolds(before, curBefore, guard, t, steps, i, restart);
        var e := R.Entry(step, r.ok, r.conflict, r.restarted);
        if !r.ok && step != ProbeStep {
          return R.Run(log + [e], Some(step), soft);
        }
        if r.ok {
          cur := R.Advance(cur, step, t, r);
        }
        ghost var tail := R.Converge(State(), cur, guard, t, steps[i + 1..], restart).1.log;
        assert log + ([e] + tail) == log + [e] + tail;
        log := log + [e];
        soft := soft || !r.ok;
        i := i + 1;
      }
      run := R.Run(log, None, soft);
      ConvergeEnds(State(), cur, guard, t, steps[i..], restart);
      assert log + [] == log;
    }

    /** What is logged so far, then the rest. */
    static predicate Continues(whole: (Sys, R.Run), log: seq<R.Entry>, soft: bool, rest: (Sys, R.Run)) {
      whole == (rest.0, R.Run(log + rest.1.log, rest.1.failed, soft || rest.1.soft))
    }

    static lemma ConvergeUnfolds(s: Sys, cur: Reading, guard: Option<PanelValues>, t: Layers, steps: seq<Step>, i: nat,
                                 restart: bool)
      requires i < |steps|
      ensures var (s1, r) := R.DoStep(s, steps[i], cur, guard, t, restart);
              var e := R.Entry(steps[i], r.ok, r.conflict, r.restarted);
              var rest := R.Converge(s1, if r.ok then R.Advance(cur, steps[i], t, r) else cur, guard, t, steps[i + 1..], restart);
              R.Converge(s, cur, guard, t, steps[i..], restart)
              == if !r.ok && steps[i] != ProbeStep then (s1, R.Run([e], Some(steps[i]), false))
                 else (rest.0, R.Run([e] + rest.1.log, rest.1.failed, !r.ok || rest.1.soft))
    {
      hide R.DoStep, R.Advance;
      assert steps[i..][0] == steps[i] && steps[i..][1..] == steps[i + 1..];
    }

    static lemma ConvergeEnds(s: Sys, cur: Reading, guard: Option<PanelValues>, t: Layers, steps: seq<Step>, restart: bool)
      requires steps == []
      ensures R.Converge(s, cur, guard, t, steps, restart) == (s, R.Run([], None, false))
    {
    }

    method RevertTo(snap: Snapshot, attempted: set<Step>, restart: bool) returns (back: bool, log: seq<R.Entry>)
      modifies this
      ensures (State(), back, log) == R.RevertTo(old(State()), snap, attempted, restart)
    {
      log := [];
      var only := attempted;
      if only * R.ENV_GROUP != {} {
        only := only + R.ENV_GROUP;
      }
      if only == {} {
        back := true;
        return;
      }
      back := false;
      var entry := LookAtEntry();
      if entry == None {
        return;
      }
      var cur := R.ValuesFrom(entry, None);
      if R.RevertConflict(cur, snap, only) {
        return;
      }
      var run := Converge(cur, Some(snap.goal.panel), snap.origin,
                          R.Only(StepsNeeded(cur, snap.origin, ROLLBACK_ORDER), only), restart);
      back, log := run.failed == None, run.log;
    }

    // ---- check, verify, apply, rollback --------------------------------------------------

    method RunCheck(o: R.Opts, override: Option<Layers>) returns (plan: R.Plan)
      modifies this
      ensures (State(), plan) == R.RunCheck(old(State()), o, override)
    {
      var entry := LookAtEntry();
      var panel := LookAtPanel();
      var cert := LookAtCandidate();
      plan := R.BuildPlan(entry, panel, cert, o, override);
    }

    method RunVerify(t: Layers, strict: bool) returns (code: nat)
      modifies this
      ensures (State(), code) == R.RunVerify(old(State()), t, strict)
    {
      var entry := LookAtEntry();
      var panel := LookAtPanel();
      var xray, tls := NotRead, Unreachable;
      if panel.Some? {
        xray := LookAtXray();
      }
      if t.env.Some? && t.env.value != "" {
        tls := ShakeHands();
      }
      code := VerifyCode(VerifyChecks(entry, panel, xray, tls, t, strict));
    }

    /** --apply. The snapshot is on disk before the first write. */
    method CmdApply(o: R.Opts) returns (outcome: R.Outcome)
      modifies this
      ensures (State(), outcome) == R.CmdApply(old(State()), o)
    {
      hide R.Converge, R.RevertTo, R.RunVerify, R.RunCheck;
      var existing := disk;
      var resume := R.Resumes(existing);
      if resume && !R.SameOptions(existing.value, o) {
        return R.Outcome(EXIT_FAIL, None);
      }
      var plan := RunCheck(o, if resume then Some(existing.value.goal) else None);
      if plan.Blind? {
        return R.Outcome(EXIT_BLIND, None);
      }
      if plan.Refused? {
        return R.Outcome(EXIT_FAIL, None);
      }
      if plan.steps == [] {
        if resume {
          SaveSnapshot(existing.value.(status := StApplied));
          return R.Outcome(EXIT_OK, Some(StApplied));
        }
        return R.Outcome(EXIT_OK, None);
      }
      if !o.yes {
        return R.Outcome(EXIT_FAIL, None);
      }
      var snap := R.NewSnapshot(plan, o);
      if resume {
        snap := existing.value.(status := StPending);
      } else if existing.Some? {
        ArchiveSnapshot();
      }
      SaveSnapshot(snap);
      outcome := CarryOut(snap, plan, o);
    }

    method CarryOut(snap: Snapshot, plan: R.Plan, o: R.Opts) returns (outcome: R.Outcome)
      requires plan.Ready?
      modifies this
      ensures (State(), outcome) == R.ApplyPlan(old(State()), snap, plan, o)
    {
      hide R.Converge, R.RevertTo, R.RunVerify;
      var run := Converge(AsReading(plan.cur), None, plan.target, plan.steps, o.xrayRestart);
      var status := StFailed;
      if run.failed == None {
        status := if run.soft then StPartial else StApplied;
      } else if o.autoRevert {
        var back, _ := RevertTo(snap, R.Attempted(run.log), o.xrayRestart);
        if back {
          status := StReverted;
        }
      }
      SaveSnapshot(snap.(status := status));
      var code := EXIT_FAIL;
      if status == StApplied || status == StPartial {
        code := RunVerify(snap.goal, R.RestartedIn(run.log));
      } else if status == StReverted {
        code := RunVerify(snap.origin, false);
      }
      outcome := R.Outcome(if status == StApplied then code else EXIT_FAIL, Some(status));
    }

    /** --rollback. Refuses before touching anything. */
    method CmdRollback(restart: bool, yes: bool) returns (code: nat)
      modifies this
      ensures (State(), code) == R.CmdRollback(old(State()), restart, yes)
    {
      hide R.Converge, R.RunVerify;
      if disk == None {
        return EXIT_BLIND;
      }
      var snap := disk.value;
      var entry := LookAtEntry();
      var panel := LookAtPanel();
      var reading := R.ValuesFrom(entry, panel);
      if !R.Complete(reading) {
        return EXIT_BLIND;
      }
      var cur := R.AllValues(reading);
      if R.RollbackConflict(cur, snap) {
        return EXIT_FAIL;
      }
      var steps := StepsNeeded(AsReading(cur), snap.origin, ROLLBACK_ORDER);
      if steps == [] {
        if snap.status != StRolledBack && snap.status != StReverted {
          SaveSnapshot(snap.(status := StRolledBack));
        }
        code := RunVerify(snap.origin, false);
        return;
      }
      if !yes {
        return EXIT_FAIL;
      }
      SaveSnapshot(snap.(status := StRollingBack));
      var run := Converge(AsReading(cur), None, snap.origin, steps, restart);
      SaveSnapshot(snap.(status := if run.failed == None then StRolledBack else StFailed));
      code := RunVerify(snap.origin, R.RestartedIn(run.log));
      if run.failed.Some? || run.soft {
        code := EXIT_FAIL;
      }
    }
  }
}
