/** The execution half of scripts/rotate_reality_dest.py as functions from one
    system state to the next: steps, converge, auto-revert and the commands.
    Session.dfy holds the imperative form that computes them. */
module Rotation {
  import opened Wrappers
  import opened Names
  import opened Planning
  import opened Reality
  import opened World
  import opened Verification

  /** `sni` has been through parse_sni, which folds it to lower case. `yes`:
      the operator types yes when asked. */
  datatype Opts = Opts(sni: string, dest: string, keepOld: bool, xrayRestart: bool, autoRevert: bool, yes: bool)

  predicate ValidOpts(o: Opts) {
    Lower(o.sni) == o.sni && o.sni != ""
  }

  // ---- one step ---------------------------------------------------------------

  /** An update that reads back as something else is a failure. */
  function Confirmed(r: (Sys, StepResult), t: Layers): (Sys, StepResult) {
    if r.1.ok && r.1.after.Some? && !SamePanel(r.1.after.value, t.panel) then (r.0, r.1.(ok := false)) else r
  }

  function DoStep(s: Sys, step: Step, cur: Reading, guard: Option<PanelValues>, t: Layers, restart: bool)
    : (Sys, StepResult)
  {
    match step
    case PanelStep =>
      if cur.panel.Some? then Confirmed(PanelSet(s, cur.panel.value, t.panel, restart), t)
      else
        var (s1, r) := ReadPanel(s);
        if r == None then (s1, FAILED)
        else if SamePanel(r.value, t.panel) then (s1, StepResult(true, false, r, false))
        else if guard.Some? && !SamePanel(r.value, guard.value) then (s1, StepResult(false, true, None, false))
        else Confirmed(PanelSet(s1, r.value, t.panel, restart), t)
    case HaproxyStep => if cur.acl == None then (s, FAILED) else HaproxySet(s, cur.acl.value, t.acl)
    case EnvStep => if cur.env == None then (s, FAILED) else EnvSet(s, cur.env.value, t.env)
    case BotStep => BotRecreate(s, t.env)
    case ProbeStep => ProbeRegen(s, t.env)
  }

  function Advance(cur: Reading, step: Step, t: Layers, r: StepResult): Reading {
    match step
    case PanelStep => cur.(panel := if r.after.Some? then r.after else Some(t.panel))
    case HaproxyStep => cur.(acl := Some(t.acl))
    case EnvStep => cur.(env := Some(t.env))
    case BotStep => cur.(container := Some(t.env))
    case ProbeStep => cur.(probe := Some(ProbeValue(true, t.env)))
  }

  // ---- converge ---------------------------------------------------------------

  datatype Entry = Entry(step: Step, ok: bool, conflict: bool, restarted: bool)

  datatype Run = Run(log: seq<Entry>, failed: Option<Step>, soft: bool)

  /** Take the steps in turn; stop at the first failed hard one, go on past a
      failed probe. */
  function Converge(s: Sys, cur: Reading, guard: Option<PanelValues>, t: Layers, steps: seq<Step>, restart: bool)
    : (Sys, Run)
    decreases |steps|
  {
    if steps == [] then (s, Run([], None, false))
    else
      var (s1, r) := DoStep(s, steps[0], cur, guard, t, restart);
      var e := Entry(steps[0], r.ok, r.conflict, r.restarted);
      if !r.ok && steps[0] != ProbeStep then (s1, Run([e], Some(steps[0]), false))
      else
        var cur1 := if r.ok then Advance(cur, steps[0], t, r) else cur;
        var (s2, rest) := Converge(s1, cur1, guard, t, steps[1..], restart);
        (s2, Run([e] + rest.log, rest.failed, !r.ok || rest.soft))
  }

  function Only(steps: seq<Step>, allowed: set<Step>): seq<Step> {
    if steps == [] then []
    else (if steps[0] in allowed then [steps[0]] else []) + Only(steps[1..], allowed)
  }

  predicate RestartedIn(log: seq<Entry>) {
    exists i | 0 <= i < |log| :: log[i].step == PanelStep && log[i].restarted
  }

  // ---- collecting state ---------------------------------------------------------

  function ValuesFrom(entry: Option<EntryRead>, panel: Option<PanelValues>): Reading {
    match entry
    case None => Reading(panel, None, None, None, None)
    case Some(e) =>
      Reading(panel, e.acl, e.env,
              if e.bot.Some? then Some(ContainerSni(e.bot.value)) else None,
              if e.probe.Some?
              then Some(ProbeValue(e.probe.value.present,
                                   if e.probe.value.present then e.probe.value.serverName else None))
              else None)
  }

  predicate Complete(r: Reading) {
    r.panel.Some? && r.acl.Some? && r.env.Some? && r.container.Some? && r.probe.Some?
  }

  function AllValues(r: Reading): Layers
    requires Complete(r)
  {
    Layers(r.panel.value, r.acl.value, r.env.value, r.container.value, r.probe.value)
  }

  // ---- check ---------------------------------------------------------------------

  datatype Plan = Blind | Refused | Ready(cur: Layers, target: Layers, steps: seq<Step>)

  function BuildPlan(entry: Option<EntryRead>, panel: Option<PanelValues>, cert: Option<bool>, o: Opts,
                     override: Option<Layers>): Plan
  {
    var r := ValuesFrom(entry, panel);
    if !Complete(r) || cert == None || entry == None || entry.value.bot == None then Blind
    else
      var cur := AllValues(r);
      var bot := entry.value.bot.value;
      var target := if override.Some? then override.value else PlanTarget(cur, o.sni, o.dest, o.keepOld);
      if || cur.panel.dest == map[]
         || cur.acl == []
         || !entry.value.editable
         || !entry.value.haproxyActive
         || bot.Down?
         || !bot.healthy
         || !cert.value
         || !NoEmptyLine(target.acl)
      then Refused
      else Ready(cur, target, StepsNeeded(AsReading(cur), target, APPLY_ORDER))
  }

  function RunCheck(s: Sys, o: Opts, override: Option<Layers>): (Sys, Plan) {
    var (s1, entry) := ReadEntry(s);
    var (s2, panel) := ReadPanel(s1);
    var (s3, cert) := ProbeExit(s2);
    (s3, BuildPlan(entry, panel, cert, o, override))
  }

  // ---- verify ---------------------------------------------------------------------

  function RunVerify(s: Sys, t: Layers, strict: bool): (Sys, nat) {
    var (s1, entry) := ReadEntry(s);
    var (s2, panel) := ReadPanel(s1);
    var (s3, xray) := if panel.Some? then ReadXray(s2) else (s2, NotRead);
    var (s4, tls) := if t.env.Some? && t.env.value != "" then TlsEntry(s3) else (s3, Unreachable);
    (s4, VerifyCode(VerifyChecks(entry, panel, xray, tls, t, strict)))
  }

  // ---- auto-revert -------------------------------------------------------------------

  const ENV_GROUP: set<Step> := {EnvStep, BotStep, ProbeStep}

  /** Steps that ran and were not stopped by the conflict guard. */
  function Attempted(log: seq<Entry>): set<Step> {
    set i | 0 <= i < |log| && (log[i].ok || !log[i].conflict) :: log[i].step
  }

  /** .env, bot and probe are only ever taken back together. */
  function Widened(attempted: set<Step>): set<Step> {
    if attempted * ENV_GROUP != {} then attempted + ENV_GROUP else attempted
  }

  predicate RevertConflict(cur: Reading, snap: Snapshot, only: set<Step>) {
    || (HaproxyStep in only && cur.acl.Some?
        && !AclEqual(cur.acl.value, snap.origin.acl) && !AclEqual(cur.acl.value, snap.goal.acl))
    || (EnvStep in only && cur.env.Some?
        && cur.env.value != snap.origin.env && cur.env.value != snap.goal.env)
  }

  /** The panel is not read here: its step reads it, after the bot is back. */
  function RevertTo(s: Sys, snap: Snapshot, attempted: set<Step>, restart: bool): (Sys, bool, seq<Entry>) {
    var only := Widened(attempted);
    if only == {} then (s, true, [])
    else
      var (s1, entry) := ReadEntry(s);
      if entry == None then (s1, false, [])
      else
        var cur := ValuesFrom(entry, None);
        if RevertConflict(cur, snap, only) then (s1, false, [])
        else
          var (s2, run) := Converge(s1, cur, Some(snap.goal.panel), snap.origin,
                                    Only(StepsNeeded(cur, snap.origin, ROLLBACK_ORDER), only), restart);
          (s2, run.failed == None, run.log)
  }

  // ---- commands ------------------------------------------------------------------------

  predicate SameOptions(snap: Snapshot, o: Opts) {
    snap.sni == o.sni && snap.dest == o.dest && snap.keepOld == o.keepOld
  }

  predicate Resumes(disk: Option<Snapshot>) {
    disk.Some? && Unfinished(disk.value.status)
  }

  /** What --apply ends with: its exit code and the status it gave the
      rotation, if it got as far as starting or finishing one. */
  datatype Outcome = Outcome(code: nat, status: Option<Status>)

  function NewSnapshot(plan: Plan, o: Opts): Snapshot
    requires plan.Ready?
  {
    Snapshot(StPending, o.sni, o.dest, o.keepOld, plan.cur, plan.target)
  }

  /** The part of --apply after the pending snapshot is on disk. */
  function ApplyPlan(s: Sys, snap: Snapshot, plan: Plan, o: Opts): (Sys, Outcome)
    requires plan.Ready?
  {
    var (s1, run) := Converge(s, AsReading(plan.cur), None, plan.target, plan.steps, o.xrayRestart);
    if run.failed == None then
      var status := if run.soft then StPartial else StApplied;
      var s2 := Save(s1, snap.(status := status));
      var (s3, code) := RunVerify(s2, snap.goal, RestartedIn(run.log));
      (s3, Outcome(if status == StApplied then code else EXIT_FAIL, Some(status)))
    else if o.autoRevert then
      var (s2, back, _) := RevertTo(s1, snap, Attempted(run.log), o.xrayRestart);
      var status := if back then StReverted else StFailed;
      var s3 := Save(s2, snap.(status := status));
      var s4 := if back then RunVerify(s3, snap.origin, false).0 else s3;
      (s4, Outcome(EXIT_FAIL, Some(status)))
    else
      (Save(s1, snap.(status := StFailed)), Outcome(EXIT_FAIL, Some(StFailed)))
  }

  function CmdApply(s: Sys, o: Opts): (Sys, Outcome) {
    var existing := s.disk;
    var resume := Resumes(existing);
    if resume && !SameOptions(existing.value, o) then (s, Outcome(EXIT_FAIL, None))
    else
      var (s1, plan) := RunCheck(s, o, if resume then Some(existing.value.goal) else None);
      match plan
      case Blind => (s1, Outcome(EXIT_BLIND, None))
      case Refused => (s1, Outcome(EXIT_FAIL, None))
      case Ready(_, _, steps) =>
        if steps == [] then
          if resume then (Save(s1, existing.value.(status := StApplied)), Outcome(EXIT_OK, Some(StApplied)))
          else (s1, Outcome(EXIT_OK, None))
        else if !o.yes then (s1, Outcome(EXIT_FAIL, None))
        else
          var s2 := if !resume && existing.Some? then Archive(s1) else s1;
          var snap := if resume then existing.value.(status := StPending) else NewSnapshot(plan, o);
          ApplyPlan(Save(s2, snap), snap, plan, o)
  }

  predicate RollbackConflict(cur: Layers, snap: Snapshot) {
    || (!SamePanel(cur.panel, snap.origin.panel) && !SamePanel(cur.panel, snap.goal.panel))
    || (!AclEqual(cur.acl, snap.origin.acl) && !AclEqual(cur.acl, snap.goal.acl))
    || (cur.env != snap.origin.env && cur.env != snap.goal.env)
  }

  /** The part of --rollback after the answer yes. */
  function RollBackNow(s: Sys, snap: Snapshot, cur: Layers, restart: bool): (Sys, nat) {
    var s1 := Save(s, snap.(status := StRollingBack));
    var (s2, run) := Converge(s1, AsReading(cur), None, snap.origin,
                              StepsNeeded(AsReading(cur), snap.origin, ROLLBACK_ORDER), restart);
    var s3 := Save(s2, snap.(status := if run.failed == None then StRolledBack else StFailed));
    var (s4, code) := RunVerify(s3, snap.origin, RestartedIn(run.log));
    (s4, if run.failed.Some? || run.soft then EXIT_FAIL else code)
  }

  function CmdRollback(s: Sys, restart: bool, yes: bool): (Sys, nat) {
    if s.disk == None then (s, EXIT_BLIND)
    else
      var snap := s.disk.value;
      var (s1, entry) := ReadEntry(s);
      var (s2, panel) := ReadPanel(s1);
      var r := ValuesFrom(entry, panel);
      if !Complete(r) then (s2, EXIT_BLIND)
      else
        var cur := AllValues(r);
        if RollbackConflict(cur, snap) then (s2, EXIT_FAIL)
        else if StepsNeeded(AsReading(cur), snap.origin, ROLLBACK_ORDER) == [] then
          var s3 := if snap.status == StRolledBack || snap.status == StReverted then s2
                    else Save(s2, snap.(status := StRolledBack));
          RunVerify(s3, snap.origin, false)
        else if !yes then (s2, EXIT_FAIL)
        else RollBackNow(s2, snap, cur, restart)
  }

  function CmdCheck(s: Sys, o: Opts): Sys {
    RunCheck(s, o, if Resumes(s.disk) && SameOptions(s.disk.value, o) then Some(s.disk.value.goal) else None).0
  }

  function CmdVerify(s: Sys): (Sys, nat) {
    if s.disk == None then (s, EXIT_BLIND)
    else
      var snap := s.disk.value;
      RunVerify(s, if snap.status == StReverted || snap.status == StRolledBack then snap.origin else snap.goal, false)
  }

  datatype Command =
    | DoCheck(o: Opts)
    | DoApply(o: Opts)
    | DoVerify
    | DoRollback(restart: bool, yes: bool)

  predicate ValidCommand(c: Command) {
    match c
    case DoCheck(o) => ValidOpts(o)
    case DoApply(o) => ValidOpts(o)
    case DoVerify => true
    case DoRollback(_, _) => true
  }

  function Exec(s: Sys, c: Command): Sys {
    match c
    case DoCheck(o) => CmdCheck(s, o)
    case DoApply(o) => CmdApply(s, o).0
    case DoVerify => CmdVerify(s).0
    case DoRollback(restart, yes) => CmdRollback(s, restart, yes).0
  }

  /** A whole history: every command is a new process with its own script. */
  datatype Invocation = Invocation(command: Command, script: seq<Fate>)

  function RunAll(s: Sys, history: seq<Invocation>): Sys
    decreases |history|
  {
    if history == [] then s
    else RunAll(Exec(s.(script := history[0].script), history[0].command), history[1..])
  }
}
