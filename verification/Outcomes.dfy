/** What a run looks at before it acts, and what its answer says about it, told
    by the fates of its operations and by the world they find. Nothing here
    assumes a quiet script: every read may find a world somebody has edited. */
module Outcomes {
  import opened Wrappers
  import opened Names
  import opened Planning
  import opened Reality
  import opened World
  import opened Verification
  import opened Rotation
  import opened Staircase
  import opened Histories
  import opened Guarantees
  import opened Interference

  /** The world the k-th operation finds, while none has written. */
  function Found(w: World, script: seq<Fate>, k: nat): World
    requires k < |script|
  {
    if script[k].meddle.Some? then script[k].meddle.value
    else if k == 0 then w
    else Found(w, script, k - 1)
  }

  /** Begin, again and again. */
  lemma FoundIs(s: Sys)
    ensures var f := s.script;
            && (|f| >= 1 ==> Begin(s) == s.(world := Found(s.world, f, 0), script := f[1..]))
            && (|f| >= 2 ==> Begin(Begin(s)) == s.(world := Found(s.world, f, 1), script := f[2..]) && f[1..][0] == f[1])
            && (|f| >= 3 ==> Begin(Begin(Begin(s))) == s.(world := Found(s.world, f, 2), script := f[3..]) && f[2..][0] == f[2])
            && (|f| >= 4 ==> f[3..][0] == f[3])
  {
    var f := s.script;
    if |f| >= 1 { assert Found(s.world, f, 0) == Begin(s).world; }
    if |f| >= 2 { assert Found(s.world, f, 1) == Begin(Begin(s)).world && f[1..][1..] == f[2..]; }
    if |f| >= 3 { assert Found(s.world, f, 2) == Begin(Begin(Begin(s))).world && f[2..][1..] == f[3..]; }
  }

  /** The entry host answered and every part of it could be read. */
  predicate SawEntry(f: Fate) {
    f.replies && f.mask.acl && f.mask.env && f.mask.bot && f.mask.probe
  }

  predicate SawPanel(w: World, f: Fate) { f.replies && w.bot.Running? }

  /** Entry, panel and, through exit, the candidate were seen. */
  predicate Looked(s: Sys) {
    && |s.script| >= 3
    && SawEntry(s.script[0])
    && SawPanel(Found(s.world, s.script, 1), s.script[1])
    && s.script[2].replies
  }

  /** What was seen of the layers. */
  function SeenLayers(s: Sys): Layers
    requires |s.script| >= 2
  {
    LayersOf(Found(s.world, s.script, 0)).(panel := PanelOf(Found(s.world, s.script, 1)))
  }

  /** What was seen is fit for a rotation, and the candidate's certificate
      passed. */
  predicate Sound(s: Sys)
    requires |s.script| >= 3
  {
    var w := Found(s.world, s.script, 0);
    && w.haproxyActive && w.editable && w.acl != []
    && w.bot.Running? && w.bot.healthy
    && PanelOf(Found(s.world, s.script, 1)).dest != map[]
    && s.script[2].verdict
  }

  lemma ThreeReads(s: Sys, o: Opts, override: Option<Layers>)
    ensures |s.script| >= 3 ==> RunCheck(s, o, override).0
                                == s.(world := Found(s.world, s.script, 2), script := s.script[3..])
    ensures RunCheck(s, o, override).0.trace == s.trace && RunCheck(s, o, override).0.disk == s.disk
  {
    hide BuildPlan, ReadReality, Found;
    FoundIs(s);
  }

  /** The check, exactly: it is blind unless it saw everything, and it has a plan
      only if what it saw is sound and no planned ACL line is empty. */
  lemma CheckIff(s: Sys, o: Opts, override: Option<Layers>)
    ensures var plan := RunCheck(s, o, override).1;
            && (plan.Blind? <==> !Looked(s))
            && (Looked(s) ==>
                  var target := if override.Some? then override.value else PlanTarget(SeenLayers(s), o.sni, o.dest, o.keepOld);
                  && (plan.Ready? <==> Sound(s) && NoEmptyLine(target.acl))
                  && (plan.Ready? ==> plan.cur == SeenLayers(s) && plan.target == target))
  {
    hide ReadReality, PlanTarget, StepsNeeded, NoEmptyLine, Found;
    FoundIs(s);
  }

  /** A rotation that was begun, failed, or was done only in part, or a rollback
      that was begun: apply goes on with it or does nothing. */
  predicate UnderWay(disk: Option<Snapshot>) {
    disk.Some? && disk.value.status in {StPending, StFailed, StPartial, StRollingBack}
  }

  /** No apply, fresh or resumed, whatever happens meanwhile, writes a layer or
      saves a snapshot unless this run saw everything, found HAProxy active, the
      files editable, the bot running and healthy and the candidate's
      certificate good. It writes no layer unless the operator said yes; and
      with an unfinished rotation to other values on disk it does nothing. */
  lemma ApplyNeedsCheck(s: Sys, o: Opts)
    ensures var (s', outcome) := CmdApply(s, o);
            && (s'.trace != s.trace || s'.disk != s.disk ==> Looked(s) && Sound(s))
            && (s'.trace != s.trace ==> o.yes)
            && (UnderWay(s.disk)
                && (s.disk.value.sni != o.sni || s.disk.value.dest != o.dest || s.disk.value.keepOld != o.keepOld)
                ==> s' == s && outcome == Outcome(EXIT_FAIL, None))
  {
    hide RunCheck, ApplyPlan, StepsNeeded, Looked, Sound, NoEmptyLine, PlanTarget, SeenLayers;
    var override := if UnderWay(s.disk) then Some(s.disk.value.goal) else None;
    CheckIff(s, o, override);
    ThreeReads(s, o, override);
  }

  /** In particular: a candidate whose certificate fails its samples is never
      rotated to. */
  lemma BadCertificateStops(s: Sys, o: Opts)
    requires forall f | f in s.script :: !f.verdict
    ensures CmdApply(s, o).0.trace == s.trace && CmdApply(s, o).0.disk == s.disk
  {
    hide CmdApply;
    ApplyNeedsCheck(s, o);
  }

  /** What a refused apply answers: "could not look" when something was not
      seen, a failure when what was seen is not fit. */
  lemma ApplyRefusal(s: Sys, o: Opts)
    requires UnderWay(s.disk) ==> SameOptions(s.disk.value, o)
    ensures var (s', outcome) := CmdApply(s, o);
            && (!Looked(s) ==> outcome == Outcome(EXIT_BLIND, None))
            && (Looked(s) && !Sound(s) ==> outcome == Outcome(EXIT_FAIL, None))
  {
    hide RunCheck, ApplyPlan, StepsNeeded, Looked, Sound, NoEmptyLine, PlanTarget, SeenLayers;
    CheckIff(s, o, if UnderWay(s.disk) then Some(s.disk.value.goal) else None);
  }

  // ---- verify ---------------------------------------------------------------------------------------

  /** The same names, each as often, in any order and spelling. */
  predicate SameNamesInAnyOrder(a: seq<string>, b: seq<string>) {
    multiset(LowerNames(a)) == multiset(LowerNames(b))
  }

  /** What the run saw is the target, and everything it looks at answered: entry,
      panel, exit, and the handshake if the target sets SNI_VALUE. */
  predicate VerifiedBy(s: Sys, t: Layers, strict: bool) {
    && |s.script| >= (if IsSet(t.env) then 4 else 3)
    && SawEntry(s.script[0])
    && SawPanel(Found(s.world, s.script, 1), s.script[1])
    && s.script[2].replies
    && var w, p := Found(s.world, s.script, 0), PanelOf(Found(s.world, s.script, 1));
    && p.dest == t.panel.dest && SameNamesInAnyOrder(p.names, t.panel.names)
    && |w.acl| == |t.acl| && (forall i | 0 <= i < |w.acl| :: SameNamesInAnyOrder(w.acl[i], t.acl[i])) && w.haproxyActive
    && w.env == t.env
    && w.bot.Running? && w.bot.healthy && SniMatches(w.bot.sni, t.env)
    && (if w.probe.present then w.probe.up && SniMatches(w.probe.serverName, t.env) else !t.probe.present)
    && (strict && s.script[2].verdict ==>
          var x := Found(s.world, s.script, 2).xray;
          x.dest.Values == t.panel.dest.Values && SameNamesInAnyOrder(x.names, t.panel.names))
    && (IsSet(t.env) ==> s.script[3].replies && s.script[3].tls == Sample(true, true))
  }

  /** Exit code 0, exactly. */
  lemma VerifyIff(s: Sys, t: Layers, strict: bool)
    ensures RunVerify(s, t, strict).1 == EXIT_OK <==> VerifiedBy(s, t, strict)
  {
    hide ReadReality, VerifyChecks, VerifyCode, SameSorted, SameSortedLines, SniMatches, Found;
    FoundIs(s);
    var (s1, entry) := ReadEntry(s);
    var (s2, panel) := ReadPanel(s1);
    var (s3, xray) := if panel.Some? then ReadXray(s2) else (s2, NotRead);
    var (s4, tls) := if t.env.Some? && t.env.value != "" then TlsEntry(s3) else (s3, Unreachable);
    PassMeans(entry, panel, xray, tls, t, strict);
    if s.script != [] { SortedIs(Found(s.world, s.script, 0).acl, t.acl); }
  }

  lemma SortedIs(a: AclLines, b: AclLines)
    ensures SameSortedLines(a, b) <==> |a| == |b| && forall i | 0 <= i < |a| :: SameNamesInAnyOrder(a[i], b[i])
    ensures forall x, y :: SameSorted(x, y) <==> SameNamesInAnyOrder(x, y)
  {
  }

  // ---- exit codes ---------------------------------------------------------------------------------

  /** The values a run heads for: those of the unfinished rotation on disk, or
      the plan made from what it saw. */
  function GoalOf(s: Sys, o: Opts): Layers
    requires |s.script| >= 2
  {
    if UnderWay(s.disk) then s.disk.value.goal else PlanTarget(SeenLayers(s), o.sni, o.dest, o.keepOld)
  }

  /** Looked around, and found it fit for this rotation. */
  predicate MayStart(s: Sys, o: Opts) {
    && (UnderWay(s.disk) ==> SameOptions(s.disk.value, o))
    && Looked(s) && Sound(s) && NoEmptyLine(GoalOf(s, o).acl)
  }

  /** A run that starts: how its answer follows from what became of it. */
  lemma StartedExits(s: Sys, snap: Snapshot, plan: Plan, o: Opts) returns (mid: Sys, strict: bool)
    requires plan.Ready? && plan.target == snap.goal
    ensures var (s', outcome) := ApplyPlan(s, snap, plan, o);
            && outcome.status.Some? && outcome.status.value in {StApplied, StPartial, StReverted, StFailed}
            && (outcome.status.value != StApplied ==> outcome.code == EXIT_FAIL)
            && (outcome.status.value == StApplied ==>
                  Ends(s', outcome.code, mid, snap.goal, strict)
                  && (outcome.code == EXIT_OK ==> s'.disk == Some(snap.(status := StApplied))))
            && (strict ==> o.xrayRestart)
  {
    hide Converge, RevertTo, RunVerify, VerifiedBy;
    var (ran, run) := Converge(s, AsReading(plan.cur), None, plan.target, plan.steps, o.xrayRestart);
    mid := Save(ran, snap.(status := if run.soft then StPartial else StApplied));
    strict := RestartedIn(run.log);
    VerifyIff(mid, snap.goal, strict);
    VerifyOnlyReads(mid, snap.goal, strict);
    NothingSeenUnasked(mid, snap.goal, strict);
    if !o.xrayRestart { NoRestart(s, AsReading(plan.cur), None, plan.target, plan.steps); }
  }

  /** The run ends with a verify that begins at `mid`, and answers 0 exactly if
      that one passes on what it sees. */
  predicate Ends(s': Sys, code: nat, mid: Sys, t: Layers, strict: bool) {
    && mid.trace == s'.trace && mid.disk == s'.disk && RunVerify(mid, t, strict).0 == s'
    && (code == EXIT_OK <==> VerifiedBy(mid, t, strict))
  }

  lemma {:induction false} NoRestart(s: Sys, cur: Reading, guard: Option<PanelValues>, t: Layers, steps: seq<Step>)
    ensures !RestartedIn(Converge(s, cur, guard, t, steps, false).1.log)
    decreases |steps|
  {
    hide Advance;
    if steps != [] {
      var (s1, r) := DoStep(s, steps[0], cur, guard, t, false);
      assert !r.restarted by { StepDoesNotRestart(s, steps[0], cur, guard, t); }
      NoRestart(s1, if r.ok then Advance(cur, steps[0], t, r) else cur, guard, t, steps[1..]);
    }
  }

  lemma StepDoesNotRestart(s: Sys, step: Step, cur: Reading, guard: Option<PanelValues>, t: Layers)
    ensures !DoStep(s, step, cur, guard, t, false).1.restarted
  {
    hide SamePanel, AclEqual, SniMatches, ReadReality;
  }

  /** Exit code 0 of apply: nothing is to be done, or all of it was and the
      verify that follows passes on what it sees; a rotation that ends partial,
      reverted or failed is never 0. */
  lemma ApplyExits(s: Sys, o: Opts) returns (mid: Sys, strict: bool)
    ensures var (s', outcome) := CmdApply(s, o);
            && (outcome.status == None ==>
                  && s'.trace == s.trace && s'.disk == s.disk
                  && (outcome.code == EXIT_OK <==> MayStart(s, o) && !UnderWay(s.disk) && Agrees(SeenLayers(s), GoalOf(s, o))))
            && (outcome.status.Some? ==> MayStart(s, o) && outcome.status.value in {StApplied, StPartial, StReverted, StFailed})
            && (outcome.status.Some? && outcome.status.value != StApplied ==> outcome.code == EXIT_FAIL)
            && (outcome.status == Some(StApplied) ==>
                  if Agrees(SeenLayers(s), GoalOf(s, o)) then
                    && UnderWay(s.disk) && s'.trace == s.trace && outcome.code == EXIT_OK
                    && s'.disk == (if |s.script| > 3 then Some(s.disk.value.(status := StApplied)) else s.disk)
                  else
                    && Ends(s', outcome.code, mid, GoalOf(s, o), strict)
                    && (outcome.code == EXIT_OK ==>
                          s'.disk.Some? && s'.disk.value.status == StApplied && s'.disk.value.goal == GoalOf(s, o)))
            && (strict ==> o.xrayRestart)
  {
    hide RunCheck, ApplyPlan, StepsNeeded, Looked, Sound, NoEmptyLine, PlanTarget, SeenLayers, Agrees, Ends;
    mid, strict := s, false;
    var override := if UnderWay(s.disk) then Some(s.disk.value.goal) else None;
    CheckIff(s, o, override);
    ThreeReads(s, o, override);
    var (s1, plan) := RunCheck(s, o, override);
    if plan.Ready? {
      ReadySteps(s, o, override);
      LookedThrice(s);
      NothingNeededIffAgrees(plan.cur, plan.target, APPLY_ORDER);
      var s2 := if !UnderWay(s.disk) && s.disk.Some? then Archive(s1) else s1;
      var snap := if UnderWay(s.disk) then s.disk.value.(status := StPending) else NewSnapshot(plan, o);
      mid, strict := StartedExits(Save(s2, snap), snap, plan, o);
    }
  }

  // ---- rollback --------------------------------------------------------------------------------------

  /** Entry and panel were seen. */
  predicate SawLayers(s: Sys) {
    |s.script| >= 2 && SawEntry(s.script[0]) && SawPanel(Found(s.world, s.script, 1), s.script[1])
  }

  /** A layer holds neither the old nor the new value of the rotation. */
  predicate Foreign(v: Layers, snap: Snapshot) {
    || !(SamePanel(v.panel, snap.origin.panel) || SamePanel(v.panel, snap.goal.panel))
    || !(AclEqual(v.acl, snap.origin.acl) || AclEqual(v.acl, snap.goal.acl))
    || !(v.env == snap.origin.env || v.env == snap.goal.env)
  }

  lemma TwoReads(s: Sys)
    ensures var (s1, entry) := ReadEntry(s);
            var (s2, panel) := ReadPanel(s1);
            var r := ValuesFrom(entry, panel);
            && s2.trace == s.trace && s2.disk == s.disk
            && (Complete(r) <==> SawLayers(s)) && (Complete(r) ==> AllValues(r) == SeenLayers(s))
  {
    hide ReadReality, Found;
    FoundIs(s);
  }

  /** What a rollback that starts answers: 0 only if every step reported success,
      a soft one too, and the verify passed. */
  lemma BackExits(s: Sys, snap: Snapshot, cur: Layers, restart: bool) returns (mid: Sys, strict: bool)
    ensures var (s', code) := RollBackNow(s, snap, cur, restart);
            var run := Converge(Save(s, snap.(status := StRollingBack)), AsReading(cur), None, snap.origin,
                                StepsNeeded(AsReading(cur), snap.origin, ROLLBACK_ORDER), restart).1;
            && (code == EXIT_OK ==>
                  Ends(s', code, mid, snap.origin, strict) && s'.disk == Some(snap.(status := StRolledBack))
                  && forall i | 0 <= i < |run.log| :: run.log[i].ok)
            && (run.failed.Some? || run.soft ==> code == EXIT_FAIL)
            && (strict ==> restart)
  {
    hide Converge, StepsNeeded, RunVerify, VerifiedBy;
    var s1 := Save(s, snap.(status := StRollingBack));
    var steps := StepsNeeded(AsReading(cur), snap.origin, ROLLBACK_ORDER);
    var (s2, run) := Converge(s1, AsReading(cur), None, snap.origin, steps, restart);
    mid := Save(s2, snap.(status := if run.failed == None then StRolledBack else StFailed));
    strict := RestartedIn(run.log);
    VerifyIff(mid, snap.origin, strict);
    VerifyOnlyReads(mid, snap.origin, strict);
    NothingSeenUnasked(mid, snap.origin, strict);
    AllOk(s1, AsReading(cur), None, snap.origin, steps, restart);
    if !restart { NoRestart(s1, AsReading(cur), None, snap.origin, steps); }
  }

  lemma {:induction false} AllOk(s: Sys, cur: Reading, guard: Option<PanelValues>, t: Layers, steps: seq<Step>, restart: bool)
    ensures var run := Converge(s, cur, guard, t, steps, restart).1;
            run.failed == None && !run.soft <==> forall i | 0 <= i < |run.log| :: run.log[i].ok
    decreases |steps|
  {
    hide DoStep, Advance;
    if steps != [] {
      var (s1, r) := DoStep(s, steps[0], cur, guard, t, restart);
      var cur1 := if r.ok then Advance(cur, steps[0], t, r) else cur;
      AllOk(s1, cur1, guard, t, steps[1..], restart);
      var e := Entry(steps[0], r.ok, r.conflict, r.restarted);
      var rest := Converge(s1, cur1, guard, t, steps[1..], restart).1.log;
      assert ([e] + rest)[1..] == rest && ([e] + rest)[0] == e && [e][0] == e;
      assert forall i | 0 <= i < |rest| :: ([e] + rest)[i + 1] == rest[i];
    }
  }

  lemma NothingSeenUnasked(s: Sys, t: Layers, strict: bool)
    ensures VerifiedBy(s, t, strict) ==> s.script != []
  {
    hide Found;
  }

  /** A rollback, by what it sees: blind without a snapshot or a reading; refused,
      without a write, when a layer holds somebody else's value or the operator
      does not say yes; with nothing to take back it only notes that; and exit
      code 0 always means that a verify against the old values passed. */
  lemma RollbackExits(s: Sys, restart: bool, yes: bool) returns (mid: Sys, strict: bool)
    ensures var (s', code) := CmdRollback(s, restart, yes);
            if s.disk == None || !SawLayers(s) then code == EXIT_BLIND && s'.trace == s.trace && s'.disk == s.disk
            else
              var snap, v := s.disk.value, SeenLayers(s);
              if Foreign(v, snap) || (!Agrees(v, snap.origin) && !yes) then code == EXIT_FAIL && s'.trace == s.trace && s'.disk == s.disk
              else if Agrees(v, snap.origin) then
                && s'.trace == s.trace && !strict && Ends(s', code, mid, snap.origin, strict)
                && (s'.disk == s.disk || s'.disk == Some(snap.(status := StRolledBack)))
                && (code == EXIT_OK ==> s'.disk.value.status in {StRolledBack, StReverted})
              else
                && (code == EXIT_OK ==> Ends(s', code, mid, snap.origin, strict) && s'.disk == Some(snap.(status := StRolledBack)))
                && (strict ==> restart)
  {
    hide ReadEntry, ReadPanel, ValuesFrom, Complete, SeenLayers, RollBackNow, StepsNeeded, SamePanel, AclEqual, Agrees, Ends,
         RunVerify, VerifiedBy;
    mid, strict := s, false;
    TwoReads(s);
    if s.disk.Some? && SawLayers(s) {
      var snap, v := s.disk.value, SeenLayers(s);
      var s2 := ReadPanel(ReadEntry(s).0).0;
      NothingNeededIffAgrees(v, snap.origin, ROLLBACK_ORDER);
      if !Foreign(v, snap) {
        if Agrees(v, snap.origin) {
          mid := if snap.status == StRolledBack || snap.status == StReverted then s2 else Save(s2, snap.(status := StRolledBack));
          PlainVerify(mid, snap.origin);
          NothingSeenUnasked(mid, snap.origin, false);
        } else if yes {
          mid, strict := BackExits(s2, snap, v, restart);
        }
      }
    }
  }

  lemma PlainVerify(s: Sys, t: Layers)
    ensures var (s', code) := RunVerify(s, t, false);
            Ends(s', code, s, t, false) && (code == EXIT_OK ==> VerifiedBy(s, t, false)) && s'.trace == s.trace && s'.disk == s.disk
  {
    hide RunVerify, VerifiedBy;
    VerifyIff(s, t, false);
    VerifyOnlyReads(s, t, false);
  }

  lemma LookedThrice(s: Sys)
    ensures Looked(s) ==> |s.script| >= 3
  {
    hide Found;
  }

  lemma ReadySteps(s: Sys, o: Opts, override: Option<Layers>)
    ensures var plan := RunCheck(s, o, override).1;
            plan.Ready? ==> plan.steps == StepsNeeded(AsReading(plan.cur), plan.target, APPLY_ORDER)
  {
    hide StepsNeeded, PlanTarget, ReadReality, NoEmptyLine;
  }

  lemma VerifyOnlyReads(s: Sys, t: Layers, strict: bool)
    ensures var s' := RunVerify(s, t, strict).0; s'.trace == s.trace && s'.disk == s.disk
  {
    hide ReadReality, VerifyChecks, VerifyCode;
  }

  /** The verify command compares with the old values after a rotation that was
      taken back, with the new ones otherwise, and is blind without a snapshot. */
  lemma VerifyCommand(s: Sys)
    ensures var (s', code) := CmdVerify(s);
            && s'.trace == s.trace && s'.disk == s.disk
            && (s.disk == None ==> code == EXIT_BLIND)
            && (s.disk.Some? ==>
                  var t := match s.disk.value.status
                           case StReverted => s.disk.value.origin
                           case StRolledBack => s.disk.value.origin
                           case _ => s.disk.value.goal;
                  code == EXIT_OK <==> VerifiedBy(s, t, false))
  {
    hide RunVerify, VerifiedBy;
    if s.disk.Some? {
      VerifyIff(s, s.disk.value.origin, false);
      VerifyIff(s, s.disk.value.goal, false);
      VerifyOnlyReads(s, s.disk.value.origin, false);
      VerifyOnlyReads(s, s.disk.value.goal, false);
    }
  }
}
