/** What one step of a rotation does, told by the fate of its operation and the
    world this finds, whoever has edited that world meanwhile. */
module Steps {
  import opened Wrappers
  import opened Names
  import opened Planning
  import opened Reality
  import opened World
  import opened Verification
  import opened Rotation

  /** The world an operation finds. */
  function Met(s: Sys): World
    requires s.script != []
  {
    if s.script[0].meddle.Some? then s.script[0].meddle.value else s.world
  }

  /** One write, recorded with what stood there before and the snapshot on disk. */
  predicate Wrote(s: Sys, s': Sys, op: Step, w': World)
    requires s.script != []
  {
    s'.world == w' && s'.disk == s.disk && s'.script == s.script[1..] && s'.trace == s.trace + [Event(op, Met(s), w', s.disk)]
  }

  predicate LeftAlone(s: Sys, s': Sys)
    requires s.script != []
  {
    s'.world == Met(s) && s'.disk == s.disk && s'.script == s.script[1..] && s'.trace == s.trace
  }

  /** A dead process does nothing. */
  lemma DeadStep(s: Sys, step: Step, cur: Reading, guard: Option<PanelValues>, t: Layers, restart: bool)
    requires s.script == []
    ensures DoStep(s, step, cur, guard, t, restart) == (s, FAILED)
  {
  }

  /** The panel is written if and only if it can be reached, still holds what
      was read, has reality settings, and the write lands; a conflict is reported
      if and only if it holds something else. */
  lemma PanelStepIs(s: Sys, cur: Reading, guard: Option<PanelValues>, t: Layers, restart: bool)
    requires s.script != [] && cur.panel.Some?
    ensures var (s', r) := DoStep(s, PanelStep, cur, guard, t, restart);
            var w, f := Met(s), s.script[0];
            var same := SamePanel(ReadReality(w.stream), cur.panel.value);
            var put := ApplyRealityChanges(w.stream, t.panel);
            && (w.bot.Running? && same && put.Some? && f.lands ==>
                  var got := ReadReality(put.value);
                  && Wrote(s, s', PanelStep, w.(stream := put.value, xray := if restart then XrayView(got.dest, got.names) else w.xray))
                  && (r.ok <==> f.replies && SamePanel(got, t.panel)) && (r.ok ==> r.after == Some(got) && r.restarted == restart))
            && (!(w.bot.Running? && same && put.Some? && f.lands) ==> LeftAlone(s, s') && !r.ok)
            && (r.conflict <==> w.bot.Running? && f.replies && !same)
  {
    hide ReadReality, ApplyRealityChanges, SamePanel;
  }

  /** A panel that was not read before is read now. If it is at the target the
      step has succeeded; if it holds a value that is not the one to be taken
      back, that is a conflict; neither is written to. Otherwise the step goes on
      from what was read. */
  lemma LazyPanelIs(s: Sys, cur: Reading, guard: Option<PanelValues>, t: Layers, restart: bool)
    requires s.script != [] && cur.panel == None
    ensures var (s', r) := DoStep(s, PanelStep, cur, guard, t, restart);
            var v := ReadReality(Met(s).stream);
            if !s.script[0].replies || Met(s).bot.Down? then LeftAlone(s, s') && !r.ok && !r.conflict
            else if SamePanel(v, t.panel) then LeftAlone(s, s') && r.ok
            else if guard.Some? && !SamePanel(v, guard.value) then LeftAlone(s, s') && !r.ok && r.conflict
            else
              (s', r) == DoStep(s.(world := Met(s), script := s.script[1..]), PanelStep, cur.(panel := Some(v)), guard, t, restart)
  {
    hide ReadReality, ApplyRealityChanges, SamePanel;
  }

  /** The ACL is written if and only if it still holds what was read, can be
      edited, has as many lines as there are lists and none of these is empty, and
      the write lands. */
  lemma AclStepIs(s: Sys, cur: Reading, guard: Option<PanelValues>, t: Layers, restart: bool)
    requires s.script != [] && cur.acl.Some?
    ensures var (s', r) := DoStep(s, HaproxyStep, cur, guard, t, restart);
            var w, f := Met(s), s.script[0];
            var same := AclEqual(w.acl, cur.acl.value);
            var goes := same && w.editable && |t.acl| == |w.acl| && [] !in t.acl && f.lands;
            && (if goes then Wrote(s, s', HaproxyStep, w.(acl := t.acl)) else LeftAlone(s, s'))
            && (r.ok <==> goes && f.replies) && (r.conflict <==> f.replies && !same)
  {
    hide AclEqual;
    assert NoEmptyLine(t.acl) <==> [] !in t.acl;
  }

  lemma EnvStepIs(s: Sys, cur: Reading, guard: Option<PanelValues>, t: Layers, restart: bool)
    requires s.script != [] && cur.env.Some?
    ensures var (s', r) := DoStep(s, EnvStep, cur, guard, t, restart);
            var w, f := Met(s), s.script[0];
            var same := w.env == cur.env.value;
            var goes := same && w.editable && f.lands;
            && (if goes then Wrote(s, s', EnvStep, w.(env := t.env)) else LeftAlone(s, s'))
            && (r.ok <==> goes && f.replies) && (r.conflict <==> f.replies && !same)
  {
  }

  /** The container comes up with what .env says now, or with compose's default
      where that is nothing; the step succeeds if and only if it does, is
      healthy, and runs with the value expected. */
  lemma BotStepIs(s: Sys, cur: Reading, guard: Option<PanelValues>, t: Layers, restart: bool)
    requires s.script != []
    ensures var (s', r) := DoStep(s, BotStep, cur, guard, t, restart);
            var w, f := Met(s), s.script[0];
            var sni := if w.env == None || w.env == Some("") then w.composeDefault else w.env;
            && (!f.lands ==> LeftAlone(s, s'))
            && (f.lands ==> Wrote(s, s', BotStep, w.(bot := if f.wreck then Down else Running(sni, f.replies))))
            && (r.ok <==> f.lands && !f.wreck && f.replies && (t.env == None || sni == t.env)) && !r.conflict
  {
  }

  /** The probe is given the container's own name, and only if that is the one
      expected. */
  lemma ProbeStepIs(s: Sys, cur: Reading, guard: Option<PanelValues>, t: Layers, restart: bool)
    requires s.script != []
    ensures var (s', r) := DoStep(s, ProbeStep, cur, guard, t, restart);
            var w, f := Met(s), s.script[0];
            var goes := w.bot.Running? && w.bot.sni == t.env && f.lands;
            && (if goes then Wrote(s, s', ProbeStep, w.(probe := Probe(true, t.env, f.replies))) else LeftAlone(s, s'))
            && (r.ok <==> goes && f.replies) && !r.conflict
  {
  }

  /** Does this layer hold its target? */
  predicate Holds(w: World, step: Step, t: Layers) {
    match step
    case PanelStep => SamePanel(ReadReality(w.stream), t.panel)
    case HaproxyStep => AclEqual(w.acl, t.acl)
    case EnvStep => w.env == t.env
    case BotStep => w.bot.Running? && w.bot.healthy && (t.env == None || w.bot.sni == t.env)
    case ProbeStep => w.probe.present && w.probe.up && w.probe.serverName == t.env
  }

  /** A step that reports success has its layer at the target, whatever else
      happened to the world, panel read on the way included. */
  lemma StepHonest(s: Sys, step: Step, cur: Reading, guard: Option<PanelValues>, t: Layers, restart: bool)
    ensures var (s', r) := DoStep(s, step, cur, guard, t, restart);
            r.ok ==> Holds(s'.world, step, t)
  {
    hide ReadReality, ApplyRealityChanges, SamePanel, AclEqual;
    if s.script == [] {
      DeadStep(s, step, cur, guard, t, restart);
    } else {
      AclItself(t.acl);
    }
  }

  lemma AclItself(a: AclLines)
    ensures AclEqual(a, a)
  {
  }

  // ---- the verify that follows is strict about xray if the panel step restarted it --------

  lemma {:induction false} OnlyPanelRestarts(s: Sys, cur: Reading, guard: Option<PanelValues>, t: Layers, steps: seq<Step>, restart: bool)
    ensures var log := Converge(s, cur, guard, t, steps, restart).1.log;
            && (RestartedIn(log) <==> exists e | e in log :: e.restarted)
            && (forall e | e in log && e.restarted :: e.step == PanelStep && restart)
    decreases |steps|
  {
    hide Advance;
    if steps != [] {
      var (s1, r) := DoStep(s, steps[0], cur, guard, t, restart);
      RestartsPanel(s, steps[0], cur, guard, t, restart);
      var cur1 := if r.ok then Advance(cur, steps[0], t, r) else cur;
      OnlyPanelRestarts(s1, cur1, guard, t, steps[1..], restart);
      var log := Converge(s, cur, guard, t, steps, restart).1.log;
      if e :| e in log && e.restarted {
        var i :| 0 <= i < |log| && log[i] == e;
        assert log[i].step == PanelStep && log[i].restarted;
      }
    }
  }

  lemma RestartsPanel(s: Sys, step: Step, cur: Reading, guard: Option<PanelValues>, t: Layers, restart: bool)
    ensures DoStep(s, step, cur, guard, t, restart).1.restarted ==> step == PanelStep && restart
  {
    hide ReadReality, ApplyRealityChanges, SamePanel, AclEqual;
  }

  // ---- auto-revert --------------------------------------------------------------------------

  /** What is to be taken back: layers whose step ran and met no stranger; .env,
      bot and probe together. */
  predicate ToRevert(log: seq<Entry>, step: Step) {
    || (exists i | 0 <= i < |log| :: log[i].step == step && (log[i].conflict ==> log[i].ok))
    || (step in {EnvStep, BotStep, ProbeStep}
        && exists i | 0 <= i < |log| :: log[i].step in {EnvStep, BotStep, ProbeStep} && (log[i].conflict ==> log[i].ok))
  }

  lemma ToRevertIff(log: seq<Entry>, step: Step)
    ensures step in Widened(Attempted(log)) <==> ToRevert(log, step)
  {
    var some := Attempted(log);
    if i :| 0 <= i < |log| && log[i].step == step && (log[i].conflict ==> log[i].ok) { assert log[i].step in some; }
    if i :| 0 <= i < |log| && log[i].step in ENV_GROUP && (log[i].conflict ==> log[i].ok) {
      assert log[i].step in some * ENV_GROUP;
    }
    if some * ENV_GROUP != {} {
      var x :| x in some * ENV_GROUP;
      var i :| 0 <= i < |log| && (log[i].ok || !log[i].conflict) && log[i].step == x;
    }
  }

  /** Somebody else's value in a layer that is to be taken back. The panel is not
      looked at yet. */
  predicate Stranger(w: World, mask: Mask, log: seq<Entry>, snap: Snapshot) {
    || (ToRevert(log, HaproxyStep) && mask.acl && !AclEqual(w.acl, snap.origin.acl) && !AclEqual(w.acl, snap.goal.acl))
    || (ToRevert(log, EnvStep) && mask.env && w.env != snap.origin.env && w.env != snap.goal.env)
  }

  /** Auto-revert gives up before its first step if and only if entry does not
      answer or holds a stranger's value in a layer to be taken back; it has
      nothing to do if no step is to be taken back, and says so. */
  lemma RevertGivesUp(s: Sys, snap: Snapshot, log: seq<Entry>, restart: bool)
    ensures var (s', back, did) := RevertTo(s, snap, Attempted(log), restart);
            if forall step: Step :: !ToRevert(log, step) then s' == s && back && did == []
            else
              (!back && did == [] <==>
                 s.script == [] || !s.script[0].replies || Stranger(Met(s), s.script[0].mask, log, snap))
  {
    hide AclEqual, Attempted, Widened, ToRevert, Converge, StepsNeeded;
    forall step: Step ensures step in Widened(Attempted(log)) <==> ToRevert(log, step) { ToRevertIff(log, step); }
    var only := Widened(Attempted(log));
    if s.script != [] && s.script[0].replies {
      var (s1, entry) := ReadEntry(s);
      var cur := ValuesFrom(entry, None);
      var steps := Only(StepsNeeded(cur, snap.origin, ROLLBACK_ORDER), only);
      LogStarts(s1, cur, Some(snap.goal.panel), snap.origin, steps, restart);
    }
  }

  lemma LogStarts(s: Sys, cur: Reading, guard: Option<PanelValues>, t: Layers, steps: seq<Step>, restart: bool)
    ensures var run := Converge(s, cur, guard, t, steps, restart).1;
            run.log == [] ==> run.failed == None
  {
    hide DoStep, Advance;
  }
}
