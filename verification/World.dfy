/** The world a rotation moves, and the operations it has on it
    (scripts/rotate_reality_dest.py: the host-side drivers and FakeIO).

    Every outcome an operation can have is decided by the next Fate of a
    script. A process whose script has run out is dead: nothing it does after
    that has any effect. So a statement about all scripts covers a kill between
    any two operations. */
module World {
  import opened Wrappers
  import opened Names
  import opened Planning
  import opened Reality

  // ---- state ----------------------------------------------------------------

  /** The vpn-bot container: gone or stopped, or running with the SNI_VALUE it
      was created with. */
  datatype Bot = Down | Running(sni: Option<string>, healthy: bool)

  datatype Probe = Probe(present: bool, serverName: Option<string>, up: bool)

  datatype XrayView = XrayView(dest: map<string, string>, names: seq<string>)

  /** `editable` stands for the checks of build_plan that no step changes: the
      inbound is VLESS-Reality, no ACL line is flagged, SNI_VALUE is not
      defined twice, both files are writable, the haproxy binary is there. */
  datatype World = World(stream: Stream, xray: XrayView, acl: AclLines, haproxyActive: bool,
                         env: Option<string>, bot: Bot, probe: Probe,
                         composeDefault: Option<string>, editable: bool)

  function PanelOf(w: World): PanelValues { ReadReality(w.stream) }

  function ContainerSni(b: Bot): Option<string> {
    if b.Running? then b.sni else None
  }

  /** A value that is there and not empty. */
  predicate IsSet(v: Option<string>) {
    v.Some? && v.value != ""
  }

  /** What a recreated container runs with: compose falls back to its own
      default when .env does not set SNI_VALUE, or sets it to nothing
      (docker-compose.yml says `:-`). */
  function Effective(env: Option<string>, composeDefault: Option<string>): Option<string> {
    if IsSet(env) then env else composeDefault
  }

  function LayersOf(w: World): Layers {
    Layers(PanelOf(w), w.acl, w.env, ContainerSni(w.bot),
           ProbeValue(w.probe.present, if w.probe.present then w.probe.serverName else None))
  }

  datatype Status = StPending | StApplied | StPartial | StReverted | StFailed | StRollingBack | StRolledBack

  predicate Unfinished(st: Status) {
    st == StPending || st == StFailed || st == StPartial || st == StRollingBack
  }

  /** `origin` and `goal` are the values before and after the rotation (the
      file calls them old and new). */
  datatype Snapshot = Snapshot(status: Status, sni: string, dest: string, keepOld: bool,
                               origin: Layers, goal: Layers)

  // ---- fates ----------------------------------------------------------------

  datatype Mask = Mask(acl: bool, env: bool, bot: bool, probe: bool)

  datatype TlsRead = Unreachable | Sample(tls13: bool, verified: bool)

  /** What happens to one operation.
      meddle:  somebody edits the world just before it;
      lands:   a write takes effect;
      replies: the driver's answer arrives and reports success;
      wreck:   a bot recreate that fails leaves the container down;
      mask:    which parts of the entry host a read could see;
      verdict: the candidate's certificate samples pass (or, for a read of
               exit, whether config.json could be parsed);
      tls:     what the handshake through entry showed. */
  datatype Fate = Fate(meddle: Option<World>, lands: bool, replies: bool, wreck: bool,
                       mask: Mask, verdict: bool, tls: TlsRead)

  predicate Quiet(script: seq<Fate>) {
    forall f | f in script :: f.meddle == None
  }

  /** One write that took effect, with the snapshot on disk at that moment. */
  datatype Event = Event(op: Step, before: World, after: World, disk: Option<Snapshot>)

  datatype Sys = Sys(world: World, disk: Option<Snapshot>, script: seq<Fate>, trace: seq<Event>)

  /** Consume one fate; the adversary moves first. */
  function Begin(s: Sys): Sys
    requires s.script != []
  {
    var m := s.script[0].meddle;
    s.(world := if m.Some? then m.value else s.world, script := s.script[1..])
  }

  function Write(s: Sys, op: Step, w: World): Sys {
    s.(world := w, trace := s.trace + [Event(op, s.world, w, s.disk)])
  }

  // ---- snapshot store -------------------------------------------------------

  /** Saving replaces the file atomically. */
  function Save(s: Sys, snap: Snapshot): Sys {
    if s.script == [] then s else Begin(s).(disk := Some(snap))
  }

  function Archive(s: Sys): Sys {
    if s.script == [] then s else Begin(s).(disk := None)
  }

  // ---- reads ----------------------------------------------------------------

  datatype EntryRead = EntryRead(acl: Option<AclLines>, haproxyActive: bool, editable: bool,
                                 env: Option<Option<string>>, bot: Option<Bot>, probe: Option<Probe>)

  function ReadEntry(s: Sys): (Sys, Option<EntryRead>) {
    if s.script == [] then (s, None)
    else
      var f, s1 := s.script[0], Begin(s);
      var w := s1.world;
      (s1, if !f.replies then None else
             Some(EntryRead(if f.mask.acl then Some(w.acl) else None, w.haproxyActive, w.editable,
                            if f.mask.env then Some(w.env) else None,
                            if f.mask.bot then Some(w.bot) else None,
                            if f.mask.probe then Some(w.probe) else None)))
  }

  /** Panel calls go through the vpn-bot container. */
  function ReadPanel(s: Sys): (Sys, Option<PanelValues>) {
    if s.script == [] then (s, None)
    else
      var f, s1 := s.script[0], Begin(s);
      (s1, if f.replies && s1.world.bot.Running? then Some(PanelOf(s1.world)) else None)
  }

  /** Do the candidate's certificate samples pass? None: could not look. */
  function ProbeExit(s: Sys): (Sys, Option<bool>) {
    if s.script == [] then (s, None)
    else
      var f, s1 := s.script[0], Begin(s);
      (s1, if f.replies then Some(f.verdict) else None)
  }

  datatype XrayRead = NotRead | NoConfig | Runtime(view: XrayView)

  function ReadXray(s: Sys): (Sys, XrayRead) {
    if s.script == [] then (s, NotRead)
    else
      var f, s1 := s.script[0], Begin(s);
      (s1, if !f.replies then NotRead else if f.verdict then Runtime(s1.world.xray) else NoConfig)
  }

  function TlsEntry(s: Sys): (Sys, TlsRead) {
    if s.script == [] then (s, Unreachable)
    else
      var f, s1 := s.script[0], Begin(s);
      (s1, if f.replies then f.tls else Unreachable)
  }

  // ---- writes ---------------------------------------------------------------

  datatype StepResult = StepResult(ok: bool, conflict: bool, after: Option<PanelValues>, restarted: bool)

  const FAILED := StepResult(false, false, None, false)

  /** Compare, then update inbound; with `restart`, xray picks the change up. */
  function PanelSet(s: Sys, expected: PanelValues, target: PanelValues, restart: bool): (Sys, StepResult) {
    if s.script == [] then (s, FAILED)
    else
      var f, s1 := s.script[0], Begin(s);
      var w := s1.world;
      if w.bot.Down? then (s1, FAILED)
      else if !SamePanel(PanelOf(w), expected) then (s1, StepResult(false, f.replies, None, false))
      else
        var put := ApplyRealityChanges(w.stream, target);
        if put == None || !f.lands then (s1, FAILED)
        else
          var got := ReadReality(put.value);
          var w' := w.(stream := put.value, xray := if restart then XrayView(got.dest, got.names) else w.xray);
          (Write(s1, PanelStep, w'),
           if f.replies then StepResult(true, false, Some(got), restart) else FAILED)
  }

  /** Compare, then rewrite the ACL lines and reload. A list for a line may not
      be empty: such an ACL would match nothing. */
  function HaproxySet(s: Sys, expected: AclLines, target: AclLines): (Sys, StepResult) {
    if s.script == [] then (s, FAILED)
    else
      var f, s1 := s.script[0], Begin(s);
      var w := s1.world;
      if !AclEqual(w.acl, expected) then (s1, StepResult(false, f.replies, None, false))
      else if |target| != |w.acl| || !NoEmptyLine(target) || !w.editable || !f.lands then (s1, FAILED)
      else
        (Write(s1, HaproxyStep, w.(acl := target)),
         if f.replies then StepResult(true, false, None, false) else FAILED)
  }

  function EnvSet(s: Sys, expected: Option<string>, value: Option<string>): (Sys, StepResult) {
    if s.script == [] then (s, FAILED)
    else
      var f, s1 := s.script[0], Begin(s);
      var w := s1.world;
      if w.env != expected then (s1, StepResult(false, f.replies, None, false))
      else if !w.editable || !f.lands then (s1, FAILED)
      else
        (Write(s1, EnvStep, w.(env := value)),
         if f.replies then StepResult(true, false, None, false) else FAILED)
  }

  /** Recreate the container from the .env as it is now. A failure may leave
      the old container alone, leave none running, or leave the new one
      running but unhealthy or unreported. */
  function BotRecreate(s: Sys, expected: Option<string>): (Sys, StepResult) {
    if s.script == [] then (s, FAILED)
    else
      var f, s1 := s.script[0], Begin(s);
      var w := s1.world;
      if !f.lands then (s1, FAILED)
      else if f.wreck then (Write(s1, BotStep, w.(bot := Down)), FAILED)
      else
        var sni := Effective(w.env, w.composeDefault);
        (Write(s1, BotStep, w.(bot := Running(sni, f.replies))),
         if f.replies && SniMatches(sni, expected) then StepResult(true, false, None, false) else FAILED)
  }

  /** The probe's config is generated inside the bot container; a config with
      another name than expected is never installed. */
  function ProbeRegen(s: Sys, expected: Option<string>): (Sys, StepResult) {
    if s.script == [] then (s, FAILED)
    else
      var f, s1 := s.script[0], Begin(s);
      var w := s1.world;
      if w.bot.Down? || w.bot.sni != expected || !f.lands then (s1, FAILED)
      else
        (Write(s1, ProbeStep, w.(probe := Probe(true, w.bot.sni, f.replies))),
         if f.replies then StepResult(true, false, None, false) else FAILED)
  }
}
