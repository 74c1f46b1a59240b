/** The staircase: what every reachable mixture of old and new layers looks
    like, step by step and over whole histories of runs. */
module Staircase {
  import opened Wrappers
  import opened Names
  import opened Planning
  import opened Reality
  import opened World
  import opened Rotation

  predicate AtPanel(w: World, l: Layers) { SamePanel(PanelOf(w), l.panel) }
  predicate AtAcl(w: World, l: Layers) { AclEqual(w.acl, l.acl) }

  /** No container runs, or it runs with the SNI it had before the rotation or
      the one the old .env gives it. */
  predicate OnOrigin(w: World, origin: Layers) {
    || w.bot.Down?
    || w.bot.sni == origin.container
    || w.bot.sni == Effective(origin.env, w.composeDefault)
  }

  /** Old values under which a rollback never recreates the container while
      panel and ACL are back: an ACL line without names cannot be written back,
      and a container found with the empty value .env has is left alone. */
  predicate Held(origin: Layers) {
    || (origin.env == None && !NoEmptyLine(origin.acl))
    || (origin.env == Some("") && origin.container == Some(""))
  }

  predicate OldBot(w: World, origin: Layers) { w.bot.Running? && w.bot.sni == origin.container }

  predicate AtFront(w: World, goal: Layers) { AtAcl(w, goal) && AtPanel(w, goal) }

  /** There, a container other than the old one means a new panel and ACL. */
  predicate Pinned(w: World, origin: Layers, goal: Layers) {
    Held(origin) ==> OldBot(w, origin) || AtFront(w, goal)
  }

  /** Panel, ACL and .env each hold exactly the old or the new value; a later
      layer has moved only if the earlier ones have. The container clause
      needs an old .env that defined SNI_VALUE. */
  predicate Stairs(w: World, origin: Layers, goal: Layers) {
    && w.stream.reality.Some?
    && w.probe.present == origin.probe.present == goal.probe.present
    && (PanelOf(w) == origin.panel || (PanelOf(w) == goal.panel && !SamePanel(origin.panel, goal.panel)))
    && (w.acl == origin.acl || (w.acl == goal.acl && !AclEqual(origin.acl, goal.acl)))
    && (w.env == origin.env || w.env == goal.env)
    && (OnOrigin(w, origin) || w.bot.sni == goal.env)
    && (!AtAcl(w, origin) ==> AtPanel(w, goal))
    && (w.env != origin.env ==> AtAcl(w, goal) && AtPanel(w, goal))
    && (origin.env.Some? && !OnOrigin(w, origin) ==> AtAcl(w, goal) && AtPanel(w, goal))
    && Pinned(w, origin, goal)
  }

  /** A snapshot this tool wrote: the goal was planned from the origin. */
  predicate Planned(snap: Snapshot) {
    && Lower(snap.sni) == snap.sni && snap.sni != ""
    && snap.origin.panel.dest != map[]
    && snap.origin.panel.dest.Keys <= DEST_KEYS
    && snap.goal == PlanTarget(snap.origin, snap.sni, snap.dest, snap.keepOld)
  }

  lemma PlannedFacts(snap: Snapshot)
    requires Planned(snap)
    ensures Interchangeable(snap.origin.panel, snap.goal.panel)
    ensures |snap.goal.acl| == |snap.origin.acl| && NoEmptyLine(snap.goal.acl)
    ensures snap.goal.env == Some(snap.sni) && IsSet(snap.goal.env)
  {
    PlanInterchangeable(snap.origin, snap.sni, snap.dest, snap.keepOld);
    PlannedAclCoversNames(snap.origin, snap.sni, snap.dest, snap.keepOld);
  }

  /** A write happened with its snapshot on disk, unfinished, and on the stairs. */
  predicate GoodEvent(e: Event) {
    && e.disk.Some?
    && Unfinished(e.disk.value.status)
    && Planned(e.disk.value)
    && Stairs(e.before, e.disk.value.origin, e.disk.value.goal)
    && Stairs(e.after, e.disk.value.origin, e.disk.value.goal)
  }

  predicate GoodTrace(s: Sys) {
    forall e | e in s.trace :: GoodEvent(e)
  }

  /** A run is moving layers under the snapshot on disk. */
  predicate Moving(s: Sys, snap: Snapshot) {
    && s.disk == Some(snap)
    && Unfinished(snap.status)
    && Planned(snap)
    && Stairs(s.world, snap.origin, snap.goal)
    && Quiet(s.script)
    && GoodTrace(s)
  }

  /** What holds between any two operations of any run. */
  predicate Inv(s: Sys) {
    && GoodTrace(s)
    && s.world.stream.reality.Some?
    && (s.disk.Some? ==> Planned(s.disk.value) && Stairs(s.world, s.disk.value.origin, s.disk.value.goal))
  }

  // ---- single operations ----------------------------------------------------------

  /** The layers a step does not own. */
  predicate OthersKept(step: Step, w: World, w': World) {
    && (step != PanelStep ==> w'.stream == w.stream && w'.xray == w.xray)
    && (step != HaproxyStep ==> w'.acl == w.acl)
    && (step != EnvStep ==> w'.env == w.env)
    && (step != BotStep ==> w'.bot == w.bot)
    && (step != ProbeStep ==> w'.probe == w.probe)
    && w'.haproxyActive == w.haproxyActive
    && w'.composeDefault == w.composeDefault
    && w'.editable == w.editable
  }

  /** Has a hard step reached its target? (The probe layer is soft.) */
  predicate Reached(w: World, t: Layers, step: Step) {
    match step
    case PanelStep => AtPanel(w, t)
    case HaproxyStep => AtAcl(w, t)
    case EnvStep => w.env == t.env
    case BotStep => w.bot.Running? && SniMatches(w.bot.sni, t.env)
    case ProbeStep => true
  }

  /** The probe's config carries the target name, if there is a probe. */
  predicate ProbeAgrees(w: World, t: Layers) {
    t.probe.present ==> SniMatches(LayersOf(w).probe.serverName, t.env)
  }

  /** The value a step compares with is the one its layer holds. */
  predicate Accurate(w: World, cur: Reading, step: Step) {
    match step
    case PanelStep => cur.panel.Some? ==> cur.panel.value == PanelOf(w)
    case HaproxyStep => cur.acl.Some? ==> cur.acl.value == w.acl
    case EnvStep => cur.env.Some? ==> cur.env.value == w.env
    case BotStep => true
    case ProbeStep => true
  }

  lemma QuietTail(s: Sys)
    requires Quiet(s.script) && s.script != []
    ensures Begin(s).world == s.world && Quiet(s.script[1..])
  {
    assert s.script[0] in s.script;
    forall f | f in s.script[1..] ensures f.meddle == None {
      assert f in s.script;
    }
  }

  /** What a step may rely on when the target is the goal. */
  predicate ForwardAllowed(w: World, goal: Layers, step: Step) {
    && (step == PanelStep ==> !AtPanel(w, goal))
    && (step == HaproxyStep ==> AtPanel(w, goal) && !AtAcl(w, goal))
    && (step == EnvStep ==> AtPanel(w, goal) && AtAcl(w, goal))
    && (step == BotStep ==> AtPanel(w, goal) && AtAcl(w, goal) && w.env == goal.env)
    && (step == ProbeStep ==> goal.probe.present)
  }

  /** The container is one the old panel and ACL may be put back under. */
  predicate Settled(w: World, origin: Layers) {
    && (origin.env.Some? ==> OnOrigin(w, origin))
    && (origin.env == Some("") && Held(origin) ==> OldBot(w, origin))
  }

  /** What a step may rely on when the target is the origin. */
  predicate BackAllowed(w: World, snap: Snapshot, step: Step) {
    && (step == HaproxyStep || step == PanelStep ==> w.env == snap.origin.env && Settled(w, snap.origin))
    && (step == PanelStep ==> AtAcl(w, snap.origin))
    && (step == BotStep && Held(snap.origin) ==> AtFront(w, snap.goal))
    && (step == ProbeStep ==> snap.origin.probe.present)
  }

  lemma AclEqualSelf(a: AclLines)
    ensures AclEqual(a, a)
  {
  }

  /** A write is logged with the state around it. */
  predicate Logged(s: Sys, step: Step, s1: Sys) {
    s1.trace == s.trace || s1.trace == s.trace + [Event(step, s.world, s1.world, s.disk)]
  }

  /** A quiet step of a run: nothing but its own layer and the trace moves. */
  predicate QuietStep(s: Sys, step: Step, s1: Sys) {
    && s1.disk == s.disk
    && Quiet(s1.script)
    && Logged(s, step, s1)
    && OthersKept(step, s.world, s1.world)
  }

  lemma MovingOn(s: Sys, snap: Snapshot, step: Step, s1: Sys)
    requires Moving(s, snap) && QuietStep(s, step, s1)
    requires Stairs(s1.world, snap.origin, snap.goal)
    ensures Moving(s1, snap)
  {
    hide Stairs, Planned, OthersKept;
  }

  lemma HaproxyStays(s: Sys, cur: Reading, snap: Snapshot, back: bool)
    requires Moving(s, snap)
    requires Accurate(s.world, cur, HaproxyStep)
    requires if back then BackAllowed(s.world, snap, HaproxyStep) else ForwardAllowed(s.world, snap.goal, HaproxyStep)
    ensures var t := if back then snap.origin else snap.goal;
            var (s1, r) := DoStep(s, HaproxyStep, cur, None, t, false);
            && QuietStep(s, HaproxyStep, s1)
            && Stairs(s1.world, snap.origin, snap.goal)
            && (r.ok ==> Reached(s1.world, t, HaproxyStep))
            && !r.conflict
  {
    hide AclEqual, SamePanel, GoodTrace, Quiet, Planned;
    var t := if back then snap.origin else snap.goal;
    AclEqualSelf(s.world.acl);
    AclEqualSelf(t.acl);
    if s.script != [] { QuietTail(s); }
  }

  lemma EnvStays(s: Sys, cur: Reading, snap: Snapshot, back: bool)
    requires Moving(s, snap)
    requires Accurate(s.world, cur, EnvStep)
    requires !back ==> ForwardAllowed(s.world, snap.goal, EnvStep)
    ensures var t := if back then snap.origin else snap.goal;
            var (s1, r) := DoStep(s, EnvStep, cur, None, t, false);
            && QuietStep(s, EnvStep, s1)
            && Stairs(s1.world, snap.origin, snap.goal)
            && (r.ok ==> Reached(s1.world, t, EnvStep))
            && !r.conflict
  {
    hide AclEqual, SamePanel, GoodTrace, Quiet, Planned;
    if s.script != [] { QuietTail(s); }
  }

  lemma BotStays(s: Sys, cur: Reading, snap: Snapshot, back: bool)
    requires Moving(s, snap)
    requires if back then BackAllowed(s.world, snap, BotStep) else ForwardAllowed(s.world, snap.goal, BotStep)
    ensures var t := if back then snap.origin else snap.goal;
            var (s1, r) := DoStep(s, BotStep, cur, None, t, false);
            && QuietStep(s, BotStep, s1)
            && Stairs(s1.world, snap.origin, snap.goal)
            && (r.ok ==> Reached(s1.world, t, BotStep))
            && (r.ok ==> s1.world.bot.sni == Effective(s1.world.env, s1.world.composeDefault))
            && !r.conflict
  {
    hide AtAcl, AtPanel, Stairs, GoodTrace, Quiet, Planned, OnOrigin, Held;
    PlannedFacts(snap);
    if s.script != [] { QuietTail(s); }
    var t := if back then snap.origin else snap.goal;
    var s1 := DoStep(s, BotStep, cur, None, t, false).0;
    if s1.world != s.world {
      BotOnStairs(s.world, s1.world, snap, back);
    }
  }

  /** A container created from .env belongs where .env is. */
  lemma BotOnStairs(w: World, w': World, snap: Snapshot, back: bool)
    requires Stairs(w, snap.origin, snap.goal) && IsSet(snap.goal.env)
    requires w' == w.(bot := w'.bot)
    requires w'.bot.Down? || w'.bot.sni == Effective(w.env, w.composeDefault)
    requires if back then Held(snap.origin) ==> AtFront(w, snap.goal)
             else AtFront(w, snap.goal) && w.env == snap.goal.env
    ensures Stairs(w', snap.origin, snap.goal)
  {
    hide AclEqual, SamePanel, ReadReality;
  }

  lemma ProbeStays(s: Sys, cur: Reading, snap: Snapshot, t: Layers)
    requires Moving(s, snap) && snap.origin.probe.present
    ensures var (s1, r) := DoStep(s, ProbeStep, cur, None, t, false);
            && QuietStep(s, ProbeStep, s1)
            && Stairs(s1.world, snap.origin, snap.goal)
            && (r.ok ==> ProbeAgrees(s1.world, t))
            && !r.conflict
  {
    hide ReadReality, AclEqual, SamePanel, GoodTrace, Quiet, Planned;
    if s.script != [] { QuietTail(s); }
  }

  /** The panel write itself, comparing with what the panel holds. */
  lemma PanelSetStays(s: Sys, snap: Snapshot, back: bool, restart: bool)
    requires Moving(s, snap)
    requires if back then BackAllowed(s.world, snap, PanelStep) else !AtPanel(s.world, snap.goal)
    ensures var t := if back then snap.origin else snap.goal;
            var (s1, r) := PanelSet(s, PanelOf(s.world), t.panel, restart);
            && QuietStep(s, PanelStep, s1)
            && Stairs(s1.world, snap.origin, snap.goal)
            && (r.ok ==> PanelOf(s1.world) == t.panel && r.after == Some(t.panel))
            && !r.conflict
  {
    hide AclEqual, SamePanel, GoodTrace, Quiet, Planned, ReadReality, ApplyRealityChanges;
    PlannedFacts(snap);
    var t := if back then snap.origin else snap.goal;
    assert Interchangeable(PanelOf(s.world), t.panel);
    PutOverOther(s.world.stream, t.panel);
    SamePanelSelf(t.panel);
    SamePanelSelf(PanelOf(s.world));
    if back { EmptyLineTells(s.world, snap); }
    if s.script != [] { QuietTail(s); }
    hide Held;
  }

  /** An empty old line tells the old ACL from the new one, so under the old ACL
      a pinned container is still the old one. */
  lemma EmptyLineTells(w: World, snap: Snapshot)
    requires Planned(snap) && Pinned(w, snap.origin, snap.goal) && AtAcl(w, snap.origin)
    requires snap.origin.env == Some("") && Held(snap.origin) ==> OldBot(w, snap.origin)
    ensures Held(snap.origin) ==> OldBot(w, snap.origin)
  {
    PlannedFacts(snap);
    var o, g := snap.origin, snap.goal;
    if !NoEmptyLine(o.acl) {
      var i :| 0 <= i < |o.acl| && o.acl[i] == [];
      assert SameNames(w.acl[i], o.acl[i]) && |LowerNames(w.acl[i])| == 0 && |LowerNames(g.acl[i])| > 0;
      assert !AtAcl(w, g) by { assert !SameNames(w.acl[i], g.acl[i]); }
    }
    hide AclEqual, SamePanel, ReadReality;
  }

  lemma SamePanelSelf(p: PanelValues)
    ensures SamePanel(p, p)
  {
  }

  lemma PanelLooked(s: Sys, snap: Snapshot)
    requires Moving(s, snap) && s.script != []
    ensures Moving(ReadPanel(s).0, snap) && ReadPanel(s).0.world == s.world && ReadPanel(s).0.trace == s.trace
  {
    hide Stairs, Planned, GoodEvent, ReadReality;
    QuietTail(s);
  }

  lemma PanelStays(s: Sys, cur: Reading, guard: Option<PanelValues>, snap: Snapshot, back: bool, restart: bool)
    requires Moving(s, snap)
    requires Accurate(s.world, cur, PanelStep)
    requires if back then BackAllowed(s.world, snap, PanelStep) else ForwardAllowed(s.world, snap.goal, PanelStep)
    requires guard.Some? ==> back && guard.value == snap.goal.panel
    ensures var t := if back then snap.origin else snap.goal;
            var (s1, r) := DoStep(s, PanelStep, cur, guard, t, restart);
            && QuietStep(s, PanelStep, s1)
            && Stairs(s1.world, snap.origin, snap.goal)
            && (r.ok ==> Reached(s1.world, t, PanelStep))
            && !r.conflict
  {
    hide AclEqual, SamePanel, GoodTrace, Quiet, Planned, ReadReality, PanelSet;
    var t := if back then snap.origin else snap.goal;
    SamePanelSelf(t.panel);
    SamePanelSelf(snap.goal.panel);
    if cur.panel.Some? {
      PanelSetStays(s, snap, back, restart);
    } else if s.script != [] {
      PanelLooked(s, snap);
      PanelSetStays(ReadPanel(s).0, snap, back, restart);
    }
  }

  /** Any quiet step, in either direction: it stays on the stairs, touches its
      own layer only, and reaches its target when it reports success. */
  lemma StepStays(s: Sys, step: Step, cur: Reading, guard: Option<PanelValues>, snap: Snapshot, back: bool, restart: bool)
    requires Moving(s, snap)
    requires Accurate(s.world, cur, step)
    requires if back then BackAllowed(s.world, snap, step) else ForwardAllowed(s.world, snap.goal, step)
    requires guard.Some? ==> back && guard.value == snap.goal.panel
    ensures var t := if back then snap.origin else snap.goal;
            var (s1, r) := DoStep(s, step, cur, guard, t, restart);
            && Moving(s1, snap)
            && OthersKept(step, s.world, s1.world)
            && (r.ok ==> Reached(s1.world, t, step))
            && (r.ok && step == BotStep ==>
                  s1.world.bot.Running? && s1.world.bot.sni == Effective(s1.world.env, s1.world.composeDefault))
            && (r.ok && step == ProbeStep ==> ProbeAgrees(s1.world, t))
            && !r.conflict
  {
    hide Stairs, GoodTrace, ProbeAgrees, PanelSet, HaproxySet, EnvSet, BotRecreate, ProbeRegen, AclEqual, SamePanel;
    var t := if back then snap.origin else snap.goal;
    match step {
      case PanelStep => PanelStays(s, cur, guard, snap, back, restart);
      case HaproxyStep => HaproxyStays(s, cur, snap, back);
      case EnvStep => EnvStays(s, cur, snap, back);
      case BotStep => BotStays(s, cur, snap, back);
      case ProbeStep => ProbeStays(s, cur, snap, t);
    }
    var s1 := DoStep(s, step, cur, guard, t, restart).0;
    MovingOn(s, snap, step, s1);
  }

  // ---- the order of the steps --------------------------------------------------------

  function ApplyRank(s: Step): nat {
    match s case PanelStep => 0 case HaproxyStep => 1 case EnvStep => 2 case BotStep => 3 case ProbeStep => 4
  }

  function BackRank(s: Step): nat {
    match s case EnvStep => 0 case BotStep => 1 case ProbeStep => 2 case HaproxyStep => 3 case PanelStep => 4
  }

  function Rank(s: Step, back: bool): nat { if back then BackRank(s) else ApplyRank(s) }

  predicate Ordered(steps: seq<Step>, back: bool) {
    forall i, j | 0 <= i < j < |steps| :: Rank(steps[i], back) < Rank(steps[j], back)
  }

  lemma {:induction false} NeededOrdered(cur: Reading, t: Layers, order: seq<Step>, back: bool)
    requires Ordered(order, back)
    ensures Ordered(StepsNeeded(cur, t, order), back)
  {
    if order != [] {
      assert Ordered(order[1..], back);
      NeededOrdered(cur, t, order[1..], back);
      var rest := StepsNeeded(cur, t, order[1..]);
      forall j | 0 <= j < |rest| ensures Rank(order[0], back) < Rank(rest[j], back) {
        assert rest[j] in order[1..];
      }
    }
  }

  lemma {:induction false} OnlyOrdered(steps: seq<Step>, allowed: set<Step>, back: bool)
    requires Ordered(steps, back)
    ensures Ordered(Only(steps, allowed), back)
    ensures forall s :: s in Only(steps, allowed) <==> s in steps && s in allowed
  {
    if steps != [] {
      assert Ordered(steps[1..], back);
      OnlyOrdered(steps[1..], allowed, back);
      var rest := Only(steps[1..], allowed);
      forall j | 0 <= j < |rest| ensures Rank(steps[0], back) < Rank(rest[j], back) {
        assert rest[j] in steps[1..];
      }
    }
  }

  // ---- converge -----------------------------------------------------------------------

  /** Ready to move on to the goal: in apply order, and every hard step that is
      not on the list has been reached. */
  predicate ForwardReady(w: World, cur: Reading, goal: Layers, steps: seq<Step>) {
    && Ordered(steps, false)
    && (forall s: Step | s !in steps :: Reached(w, goal, s))
    && (forall s: Step | s in steps :: Accurate(w, cur, s))
    && (PanelStep in steps ==> !AtPanel(w, goal))
    && (HaproxyStep in steps ==> !AtAcl(w, goal))
    && (ProbeStep in steps ==> goal.probe.present)
  }

  /** Ready to move back: in rollback order, and nothing that a later step
      relies on is left out while still new. */
  predicate BackReady(w: World, cur: Reading, snap: Snapshot, steps: seq<Step>) {
    var origin := snap.origin;
    && Ordered(steps, true)
    && (forall s: Step | s in steps :: Accurate(w, cur, s))
    && ((HaproxyStep in steps || PanelStep in steps || BotStep in steps) ==> EnvStep in steps || w.env == origin.env)
    && ((HaproxyStep in steps || PanelStep in steps) ==>
          BotStep in steps || Settled(w, origin))
    && (BotStep in steps && Held(origin) ==> AtFront(w, snap.goal))
    && (PanelStep in steps ==> HaproxyStep in steps || AtAcl(w, origin))
    && (ProbeStep in steps ==> origin.probe.present)
  }

  predicate InReadiness(w: World, cur: Reading, snap: Snapshot, steps: seq<Step>, back: bool) {
    if back then BackReady(w, cur, snap, steps) else ForwardReady(w, cur, snap.goal, steps)
  }

  lemma FirstIsFirst(steps: seq<Step>, back: bool, x: Step)
    requires steps != [] && Ordered(steps, back)
    requires Rank(x, back) < Rank(steps[0], back)
    ensures x !in steps
  {
    forall j | 0 <= j < |steps| ensures steps[j] != x {
      assert j == 0 || Rank(steps[0], back) < Rank(steps[j], back);
    }
  }

  lemma FirstStepAllowed(w: World, cur: Reading, snap: Snapshot, steps: seq<Step>, back: bool)
    requires steps != [] && InReadiness(w, cur, snap, steps, back)
    ensures Accurate(w, cur, steps[0])
    ensures if back then BackAllowed(w, snap, steps[0]) else ForwardAllowed(w, snap.goal, steps[0])
  {
    assert steps[0] in steps;
    forall x: Step | Rank(x, back) < Rank(steps[0], back)
      ensures x !in steps && (!back ==> Reached(w, snap.goal, x))
    {
      FirstIsFirst(steps, back, x);
    }
    hide SamePanel, AclEqual, PanelOf, Accurate, OnOrigin;
    var r0, r1, r2, r3 := Reached(w, snap.goal, PanelStep), Reached(w, snap.goal, HaproxyStep),
                          Reached(w, snap.goal, EnvStep), Reached(w, snap.goal, BotStep);
    var i0, i1, i2, i3, i4 := PanelStep in steps, HaproxyStep in steps, EnvStep in steps, BotStep in steps, ProbeStep in steps;
  }

  predicate StillAccurate(w: World, cur: Reading, cur': Reading, step: Step) {
    forall x: Step | x != step :: Accurate(w, cur, x) ==> Accurate(w, cur', x)
  }

  lemma AdvanceAccurate(w: World, cur: Reading, step: Step, t: Layers, r: StepResult)
    ensures StillAccurate(w, cur, Advance(cur, step, t, r), step)
  {
  }

  lemma AccurateFrame(w: World, w': World, cur: Reading, step: Step, x: Step)
    requires OthersKept(step, w, w') && x != step && Accurate(w, cur, x)
    ensures Accurate(w', cur, x)
  {
  }

  lemma ReachedFrame(w: World, w': World, t: Layers, step: Step, x: Step)
    requires OthersKept(step, w, w') && x != step
    ensures Reached(w', t, x) <==> Reached(w, t, x)
  {
  }

  lemma ReadyForRest(w: World, w': World, cur: Reading, cur': Reading, snap: Snapshot, steps: seq<Step>, back: bool)
    requires steps != [] && InReadiness(w, cur, snap, steps, back)
    requires OthersKept(steps[0], w, w')
    requires steps[0] == ProbeStep || Reached(w', if back then snap.origin else snap.goal, steps[0])
    requires steps[0] == BotStep ==> w'.bot.Running? && w'.bot.sni == Effective(w'.env, w'.composeDefault)
    requires StillAccurate(w, cur, cur', steps[0])
    ensures InReadiness(w', cur', snap, steps[1..], back)
  {
    hide SamePanel, AclEqual, ReadReality, Accurate, Rank, Reached, OnOrigin;
    var step, rest := steps[0], steps[1..];
    assert steps == [step] + rest;
    RestExcludes(steps, back);
    assert forall s: Step :: s in rest <==> s in steps && s != step;
    forall s: Step | s in rest ensures Accurate(w', cur', s) {
      assert Accurate(w, cur, s) && Accurate(w, cur', s);
      AccurateFrame(w, w', cur', step, s);
    }
    assert Ordered(rest, back);
    if back {
      BackReadyRest(w, w', cur, cur', snap, steps);
    } else {
      ForwardReadyRest(w, w', cur, cur', snap.goal, steps);
    }
    hide BackReady, ForwardReady, OthersKept, StillAccurate, Ordered;
  }

  lemma ForwardReadyRest(w: World, w': World, cur: Reading, cur': Reading, goal: Layers, steps: seq<Step>)
    requires steps != [] && ForwardReady(w, cur, goal, steps)
    requires OthersKept(steps[0], w, w')
    requires steps[0] == ProbeStep || Reached(w', goal, steps[0])
    requires Ordered(steps[1..], false) && forall s: Step | s in steps[1..] :: Accurate(w', cur', s)
    requires forall s: Step :: s in steps[1..] <==> s in steps && s != steps[0]
    ensures ForwardReady(w', cur', goal, steps[1..])
  {
    hide SamePanel, AclEqual, ReadReality, Accurate, Reached, Ordered;
    var step, rest := steps[0], steps[1..];
    forall s: Step | s !in rest ensures Reached(w', goal, s) {
      if s == ProbeStep {
        ProbeReached(w', goal);
      } else if s != step {
        assert s !in steps;
        ReachedFrame(w, w', goal, step, s);
      }
    }
    assert PanelStep in rest ==> PanelStep in steps && PanelStep != step;
    assert HaproxyStep in rest ==> HaproxyStep in steps && HaproxyStep != step;
    assert ProbeStep in rest ==> ProbeStep in steps;
  }

  lemma ProbeReached(w: World, t: Layers)
    ensures Reached(w, t, ProbeStep)
  {
  }

  lemma BackReadyRest(w: World, w': World, cur: Reading, cur': Reading, snap: Snapshot, steps: seq<Step>)
    requires steps != [] && BackReady(w, cur, snap, steps)
    requires OthersKept(steps[0], w, w')
    requires steps[0] == ProbeStep || Reached(w', snap.origin, steps[0])
    requires steps[0] == BotStep ==> w'.bot.Running? && w'.bot.sni == Effective(w'.env, w'.composeDefault)
    requires Ordered(steps[1..], true) && forall s: Step | s in steps[1..] :: Accurate(w', cur', s)
    requires forall s: Step :: s in steps[1..] <==> s in steps && s != steps[0]
    ensures BackReady(w', cur', snap, steps[1..])
  {
    hide SamePanel, AclEqual, ReadReality, Accurate, Ordered, Settled, Held, Effective, OnOrigin;
    var rest, origin := steps[1..], snap.origin;
    var h, p, b, e := HaproxyStep in rest, PanelStep in rest, BotStep in rest, EnvStep in rest;
    EnvBeforeBot(w, cur, snap, steps);
    if steps[0] == BotStep {
      BotSettles(w', origin);
    } else {
      if b { BotAfterEnv(steps); }
      SettledFrame(steps[0], w, w', origin);
    }
    assert ProbeStep in rest ==> ProbeStep in steps;
  }

  /** A container just created from the old .env, and accepted. */
  lemma BotSettles(w: World, origin: Layers)
    requires w.bot.Running? && SniMatches(w.bot.sni, origin.env)
    requires w.env == origin.env && w.bot.sni == Effective(w.env, w.composeDefault)
    ensures Settled(w, origin)
  {
  }

  lemma SettledFrame(step: Step, w: World, w': World, origin: Layers)
    requires OthersKept(step, w, w') && step != BotStep
    ensures Settled(w, origin) ==> Settled(w', origin)
  {
  }

  /** Only the .env step comes before the bot step. */
  lemma BotAfterEnv(steps: seq<Step>)
    requires steps != [] && Ordered(steps, true) && BotStep in steps[1..]
    ensures steps[0] == EnvStep
  {
    var j :| 0 <= j < |steps[1..]| && steps[1..][j] == BotStep;
    assert Rank(steps[0], true) < Rank(steps[j + 1], true);
  }

  /** When the bot step comes first, .env is already back. */
  lemma EnvBeforeBot(w: World, cur: Reading, snap: Snapshot, steps: seq<Step>)
    requires steps != [] && BackReady(w, cur, snap, steps)
    ensures steps[0] == BotStep ==> w.env == snap.origin.env
  {
    if steps[0] == BotStep {
      assert BotStep in steps;
      FirstIsFirst(steps, true, EnvStep);
    }
    hide SamePanel, AclEqual, ReadReality, Accurate, OnOrigin;
  }

  lemma RestExcludes(steps: seq<Step>, back: bool)
    requires steps != [] && Ordered(steps, back)
    ensures steps[0] !in steps[1..]
  {
    forall j | 0 <= j < |steps[1..]| ensures steps[1..][j] != steps[0] {
      assert Rank(steps[0], back) < Rank(steps[j + 1], back);
    }
  }

  function LogSteps(log: seq<Entry>): set<Step> {
    set i | 0 <= i < |log| :: log[i].step
  }

  /** A layer a run did not touch. */
  predicate Kept(step: Step, w: World, w': World) {
    match step
    case PanelStep => w'.stream == w.stream
    case HaproxyStep => w'.acl == w.acl
    case EnvStep => w'.env == w.env
    case BotStep => w'.bot == w.bot
    case ProbeStep => w'.probe == w.probe
  }

  predicate ConstantsKept(w: World, w': World) {
    w'.haproxyActive == w.haproxyActive && w'.composeDefault == w.composeDefault && w'.editable == w.editable
  }

  /** What a quiet converge leaves behind, given what it logged. */
  predicate Converged(w: World, w': World, t: Layers, steps: seq<Step>, run: Run) {
    && ConstantsKept(w, w')
    && (forall x: Step | x !in LogSteps(run.log) :: Kept(x, w, w'))
    && (forall x | x in LogSteps(run.log) :: x in steps)
    && (forall e | e in run.log :: !e.conflict)
    && (run.failed == None ==> forall x: Step | x in steps :: Reached(w', t, x))
    && (run.failed == None && BotStep in steps ==>
          w'.bot.Running? && w'.bot.sni == Effective(w'.env, w'.composeDefault))
    && (run.failed == None && !run.soft && ProbeStep in steps ==> ProbeAgrees(w', t))
  }

  /** A quiet converge, in either direction, whatever its operations' fates:
      it stays on the stairs at every write, changes only layers it logs, never
      sees a conflict, and when no hard step fails every step on its list has
      been reached. */
  lemma {:induction false} ConvergeStays(s: Sys, cur: Reading, guard: Option<PanelValues>, snap: Snapshot,
                                         steps: seq<Step>, back: bool, restart: bool)
    requires Moving(s, snap)
    requires InReadiness(s.world, cur, snap, steps, back)
    requires guard.Some? ==> back && guard.value == snap.goal.panel
    ensures var t := if back then snap.origin else snap.goal;
            var (s', run) := Converge(s, cur, guard, t, steps, restart);
            Moving(s', snap) && Converged(s.world, s'.world, t, steps, run)
    decreases |steps|
  {
    hide DoStep, Moving, InReadiness, Converged, OthersKept, Reached, Accurate, Advance, Effective, ProbeAgrees, Ordered;
    var t := if back then snap.origin else snap.goal;
    var (s', run) := Converge(s, cur, guard, t, steps, restart);
    if steps != [] {
      var step := steps[0];
      FirstStepAllowed(s.world, cur, snap, steps, back);
      StepStays(s, step, cur, guard, snap, back, restart);
      var (s1, r) := DoStep(s, step, cur, guard, t, restart);
      var e := Entry(step, r.ok, r.conflict, r.restarted);
      if !r.ok && step != ProbeStep {
        ConvergeStopped(s.world, s1.world, t, steps, e, run);
      } else {
        var cur1 := if r.ok then Advance(cur, step, t, r) else cur;
        AdvanceAccurate(s.world, cur, step, t, r);
        SelfAccurate(s.world, cur, step);
        ReadyForRest(s.world, s1.world, cur, cur1, snap, steps, back);
        ConvergeStays(s1, cur1, guard, snap, steps[1..], back, restart);
        var (s2, rest) := Converge(s1, cur1, guard, t, steps[1..], restart);
        ReadyOrdered(s.world, cur, snap, steps, back);
        RestExcludes(steps, back);
        EnvListedFirst(steps, back);
        ConvergeGlue(s.world, s1.world, s'.world, t, steps, e, rest, run);
      }
    } else {
      ConvergedNothing(s.world, t, run);
    }
  }

  /** A run towards the goal comes to .env, bot and probe only under the new
      panel and ACL. */
  lemma {:induction false} GroupAtFront(s: Sys, cur: Reading, snap: Snapshot, steps: seq<Step>, restart: bool)
    requires Moving(s, snap) && ForwardReady(s.world, cur, snap.goal, steps)
    ensures var (s', run) := Converge(s, cur, None, snap.goal, steps, restart);
            LogSteps(run.log) * ENV_GROUP != {} ==> AtFront(s'.world, snap.goal)
    decreases |steps|
  {
    hide DoStep, Moving, ForwardReady, OthersKept, Reached, Accurate, Advance, Effective, ProbeAgrees, Ordered, AtFront,
         LogSteps, Converged;
    if steps != [] {
      var step := steps[0];
      var (s', run) := Converge(s, cur, None, snap.goal, steps, restart);
      if step in ENV_GROUP {
        ConvergeStays(s, cur, None, snap, steps, false, restart);
        FrontKept(s.world, s'.world, cur, snap.goal, steps, run);
      } else {
        FirstStepAllowed(s.world, cur, snap, steps, false);
        StepStays(s, step, cur, None, snap, false, restart);
        var (s1, r) := DoStep(s, step, cur, None, snap.goal, restart);
        var e := Entry(step, r.ok, r.conflict, r.restarted);
        if !r.ok {
          LogOne(e, []);
        } else {
          var cur1 := Advance(cur, step, snap.goal, r);
          AdvanceAccurate(s.world, cur, step, snap.goal, r);
          ReadyForRest(s.world, s1.world, cur, cur1, snap, steps, false);
          GroupAtFront(s1, cur1, snap, steps[1..], restart);
          LogOne(e, Converge(s1, cur1, None, snap.goal, steps[1..], restart).1.log);
        }
      }
    } else {
      assert LogSteps([]) == {} by { NoLogSteps(); }
    }
  }

  lemma NoLogSteps()
    ensures LogSteps([]) == {}
  {
  }

  lemma LogOne(e: Entry, rest: seq<Entry>)
    ensures LogSteps([e] + rest) == {e.step} + LogSteps(rest)
    ensures rest == [] ==> LogSteps([e]) == {e.step}
  {
    assert rest == [] ==> [e] + rest == [e];
    forall x ensures x in LogSteps([e] + rest) <==> x == e.step || x in LogSteps(rest) {
      if x == e.step { assert ([e] + rest)[0].step == x; }
      if x in LogSteps(rest) {
        var i :| 0 <= i < |rest| && rest[i].step == x;
        assert ([e] + rest)[i + 1].step == x;
      }
    }
  }

  lemma FrontKept(w: World, w': World, cur: Reading, goal: Layers, steps: seq<Step>, run: Run)
    requires steps != [] && ForwardReady(w, cur, goal, steps) && steps[0] in ENV_GROUP
    requires Converged(w, w', goal, steps, run)
    ensures AtFront(w', goal)
  {
    hide SamePanel, AclEqual, ReadReality, LogSteps, Ordered, Accurate;
    FirstIsFirst(steps, false, PanelStep);
    FirstIsFirst(steps, false, HaproxyStep);
    assert Reached(w, goal, PanelStep) && Reached(w, goal, HaproxyStep);
    assert Kept(PanelStep, w, w') && Kept(HaproxyStep, w, w');
  }

  lemma ReadyOrdered(w: World, cur: Reading, snap: Snapshot, steps: seq<Step>, back: bool)
    requires InReadiness(w, cur, snap, steps, back)
    ensures Ordered(steps, back)
  {
  }

  lemma EnvListedFirst(steps: seq<Step>, back: bool)
    requires steps != [] && Ordered(steps, back)
    ensures BotStep in steps ==> EnvStep !in steps[1..] || BotStep in steps[1..]
  {
    if steps[0] == BotStep {
      FirstIsFirst(steps, back, EnvStep);
    }
  }

  lemma SelfAccurate(w: World, cur: Reading, step: Step)
    ensures StillAccurate(w, cur, cur, step)
  {
  }

  lemma ConvergedNothing(w: World, t: Layers, run: Run)
    requires run.log == []
    ensures Converged(w, w, t, [], run)
  {
  }

  lemma ConvergeStopped(w: World, w': World, t: Layers, steps: seq<Step>, e: Entry, run: Run)
    requires steps != [] && e.step == steps[0] && !e.conflict && run.log == [e] && run.failed.Some?
    requires OthersKept(steps[0], w, w')
    ensures Converged(w, w', t, steps, run)
  {
    assert run.log[0].step in LogSteps(run.log);
    hide Reached;
  }

  lemma ConvergeGlue(w: World, w1: World, w': World, t: Layers, steps: seq<Step>, e: Entry, rest: Run, run: Run)
    requires steps != [] && e.step == steps[0] && !e.conflict && steps[0] !in steps[1..]
    requires run.log == [e] + rest.log && run.failed == rest.failed && (rest.soft ==> run.soft)
    requires steps[0] == ProbeStep && !run.soft ==> ProbeAgrees(w1, t)
    requires OthersKept(steps[0], w, w1)
    requires Converged(w1, w', t, steps[1..], rest)
    requires steps[0] == ProbeStep || Reached(w1, t, steps[0])
    requires steps[0] == BotStep ==> w1.bot.Running? && w1.bot.sni == Effective(w1.env, w1.composeDefault)
    requires BotStep in steps ==> EnvStep !in steps[1..] || BotStep in steps[1..]
    ensures Converged(w, w', t, steps, run)
  {
    hide Reached, ProbeAgrees;
    forall x ensures x in LogSteps(run.log) <==> x == steps[0] || x in LogSteps(rest.log) {
      if x == steps[0] { assert run.log[0].step == x; }
      if x in LogSteps(rest.log) {
        var i :| 0 <= i < |rest.log| && rest.log[i].step == x;
        assert run.log[i + 1].step == x;
      }
    }
    assert steps[0] !in LogSteps(rest.log);
    assert Kept(steps[0], w1, w');
    if steps[0] == BotStep { assert EnvStep !in LogSteps(rest.log) && Kept(EnvStep, w1, w'); }
    assert steps == [steps[0]] + steps[1..];
    if run.failed == None {
      forall x: Step | x in steps ensures Reached(w', t, x) {
        if x == steps[0] { ReachedKept(w1, w', t, x); }
      }
      if steps[0] == ProbeStep && !run.soft { ProbeKept(w1, w', t); }
    }
    hide LogSteps;
  }

  lemma ProbeKept(w: World, w': World, t: Layers)
    requires Kept(ProbeStep, w, w') && ProbeAgrees(w, t)
    ensures ProbeAgrees(w', t)
  {
  }

  lemma ReachedKept(w: World, w': World, t: Layers, x: Step)
    requires Kept(x, w, w') && Reached(w, t, x)
    ensures Reached(w', t, x)
  {
  }
}
