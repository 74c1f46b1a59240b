/** The verdict of the protocol check: assess and its helpers
    (scripts/protocol_healthcheck.py). Evidence and wording are left out; ages
    are in minutes, None for a time that cannot be read. */
module Health {
  import opened Wrappers

  datatype Proto = Reality | Hy2 | Hy2t | Ws | Stls

  const PROBED: seq<Proto> := [Reality, Hy2, Ws, Stls]
  const PROTOCOLS: seq<Proto> := [Reality, Hy2, Hy2t, Ws, Stls]

  const PROBE_DOMAINS: nat := 10
  const PROBE_STALE_MIN: real := 45.0
  const RUN_SPAN_MIN: real := 5.0
  const CERT_LIMIT_BYTES: int := 8000

  datatype State = Ok | Unknown | Degraded | Down

  datatype Reason = NoReason | ProbeRate | DarkRun | AuditBroke | LayerBelow

  datatype Verdict = Verdict(state: State, reason: Reason)

  // ---- what the layers collected ----------------------------------------------------

  datatype Row = Row(age: Option<real>, ok: bool, latency: bool)

  datatype Audit = Audit(rc: Option<int>, emptyFlow: bool, emptyPassword: bool, named: set<Proto>)

  datatype LayerA = LayerA(ok: bool, newest: Option<real>, probes: map<Proto, seq<Row>>, audit: Audit)

  type Rules = set<(string, string)>

  datatype LayerB = LayerB(ok: bool, dnat: Rules, shadowTls: string, probeProxy: string)

  datatype Runtime = Runtime(error: bool, count: int, withFlow: int)

  datatype Counts = Counts(count: int, withFlow: int)

  /** `natDump` tells whether iptables on exit answered at all. */
  datatype LayerC = LayerC(ok: bool, hysteria: string, hysteriaTurbo: string, natDump: bool, hops: Rules,
                           runtime: map<Proto, Runtime>, config: map<Proto, Counts>, certLen: Option<int>)

  datatype Layers = Layers(a: LayerA, b: LayerB, c: LayerC)

  // ---- probes ---------------------------------------------------------------------------

  function RowsOf(a: LayerA, t: Proto): seq<Row> {
    if t in a.probes then a.probes[t] else []
  }

  /** hy2t is probed only where it has rows. */
  function ProbedTags(a: LayerA): seq<Proto> {
    if RowsOf(a, Hy2t) != [] then PROBED + [Hy2t] else PROBED
  }

  predicate Alive(r: Row) { r.latency || r.ok }

  function Oks(rows: seq<Row>): (n: nat)
    ensures n <= |rows|
  {
    if rows == [] then 0 else (if rows[0].ok then 1 else 0) + Oks(rows[1..])
  }

  predicate AnyAlive(rows: seq<Row>) {
    exists r | r in rows :: Alive(r)
  }

  /** The rows within five minutes of the newest, while they last. */
  function Within(rows: seq<Row>, head: real): seq<Row> {
    if rows == [] || rows[0].age == None || rows[0].age.value - head > RUN_SPAN_MIN then []
    else [rows[0]] + Within(rows[1..], head)
  }

  function LatestRun(rows: seq<Row>): seq<Row> {
    if rows == [] || rows[0].age == None then [] else Within(rows, rows[0].age.value)
  }

  predicate Stale(age: Option<real>) { age == None || age.value > PROBE_STALE_MIN }

  function ProbeVerdict(rows: seq<Row>): Verdict {
    if rows == [] || Stale(rows[0].age) then Verdict(Unknown, NoReason)
    else if !AnyAlive(rows) then Verdict(Down, NoReason)
    else if 20 * Oks(rows) < 7 * |rows| then Verdict(Degraded, ProbeRate)
    else if |LatestRun(rows)| >= PROBE_DOMAINS && Oks(LatestRun(rows)) == 0 then Verdict(Degraded, DarkRun)
    else Verdict(Ok, NoReason)
  }

  // ---- audit ---------------------------------------------------------------------------------

  predicate FlowMissing(u: Audit) { u.rc == Some(1) && u.emptyFlow }

  predicate PasswordMissing(u: Audit) { u.rc == Some(1) && u.emptyPassword }

  /** The probed protocols whose inbound is named on a problem line. */
  function BrokenBy(u: Audit): set<Proto> {
    if u.rc == Some(1) then u.named * {Reality, Ws, Stls} else {}
  }

  // ---- hy2t from layer C --------------------------------------------------------------------------

  const ENTRY_MAIN: (string, string) := ("8402", "8402")
  const ENTRY_HOPS: (string, string) := ("40001:50000", "8402")

  function EntryDnatFor(t: Proto): Rules {
    if t == Hy2 then {("443", "8400"), ("8400", "8400"), ("20000:40000", "8400")} else {ENTRY_MAIN, ENTRY_HOPS}
  }

  function ExitHopFor(t: Proto): Rules {
    if t == Hy2 then {("20000:40000", "8400")} else {ENTRY_HOPS}
  }

  predicate NatKnown(c: LayerC) { c.ok && c.natDump }

  predicate HopMissing(l: Layers) {
    (NatKnown(l.c) && !(ExitHopFor(Hy2t) <= l.c.hops)) || (l.b.ok && ENTRY_HOPS !in l.b.dnat)
  }

  /** What layer C (and the entry DNAT) say of hy2t. */
  function CState(l: Layers): State {
    if l.c.hysteriaTurbo != "active" || (l.b.ok && ENTRY_MAIN !in l.b.dnat) then Down
    else if HopMissing(l) then Degraded
    else if !l.b.ok || !NatKnown(l.c) then Unknown
    else Ok
  }

  function Order(s: State): nat {
    match s
    case Down => 3
    case Degraded => 2
    case Unknown => 1
    case Ok => 0
  }

  // ---- states ---------------------------------------------------------------------------------------

  predicate PipelineStale(a: LayerA) { a.ok && Stale(a.newest) }

  function FromProbes(a: LayerA, t: Proto): Verdict {
    if !a.ok || PipelineStale(a) then Verdict(Unknown, NoReason) else ProbeVerdict(RowsOf(a, t))
  }

  /** A broken audit outvotes green probes. */
  function Audited(a: LayerA, t: Proto, v: Verdict): Verdict {
    if a.ok && t in BrokenBy(a.audit) && v.state == Ok then Verdict(Degraded, AuditBroke) else v
  }

  function TurboVerdict(l: Layers): Verdict {
    if Hy2t !in ProbedTags(l.a) then Verdict(if l.c.ok then CState(l) else Unknown, NoReason)
    else
      var v := FromProbes(l.a, Hy2t);
      if l.c.ok && CState(l) in [Down, Degraded] && Order(CState(l)) > Order(v.state)
      then Verdict(CState(l), if CState(l) == Degraded then LayerBelow else v.reason)
      else v
  }

  function VerdictOf(l: Layers, t: Proto): Verdict {
    if t == Hy2t then TurboVerdict(l) else Audited(l.a, t, FromProbes(l.a, t))
  }

  function StateOf(l: Layers, t: Proto): State { VerdictOf(l, t).state }

  predicate AllDark(l: Layers) {
    forall t | t in ProbedTags(l.a) :: StateOf(l, t) == Down
  }

  // ---- suspects ---------------------------------------------------------------------------------------

  datatype Target = Every | Of(proto: Proto)

  datatype Cause = PipelineDead | EverythingDark(probeProxy: Option<string>)
                 | FlowWipe | PasswordWipe | AuditBroken(on: set<Proto>) | AuditNotRun
                 | CertOutgrew(len: int) | Drift(runtime: Runtime, config: Counts) | InboundItself
                 | ShadowTlsDown(status: string)
                 | EntryNatGone(missing: Rules) | DaemonDown(status: string) | HopsGone(missing: Rules) | DaemonItself
                 | DarkLately | LowRate | NoLayerA | NoLayerB | NoLayerC

  datatype Suspect = Suspect(rank: nat, target: Target, cause: Cause)

  predicate Names(s: Suspect, t: Proto) { s.target == Every || s.target == Of(t) }

  predicate Aimed(ss: seq<Suspect>, t: Proto) {
    exists s | s in ss :: s.target == Of(t)
  }

  function When(c: bool, s: Suspect): seq<Suspect> { if c then [s] else [] }

  function AuditSuspects(u: Audit): seq<Suspect> {
    When(FlowMissing(u), Suspect(1, Of(Reality), FlowWipe))
    + When(PasswordMissing(u), Suspect(8, Of(Stls), PasswordWipe))
    + When(u.rc == Some(1) && !FlowMissing(u) && !PasswordMissing(u), Suspect(12, Every, AuditBroken(u.named)))
  }

  function RuntimeOf(c: LayerC, t: Proto): Runtime {
    if t in c.runtime then c.runtime[t] else Runtime(false, 0, 0)
  }

  /** The running xray has fewer users than its configuration. */
  predicate Drifts(c: LayerC, t: Proto) {
    && !RuntimeOf(c, t).error && t in c.config
    && (RuntimeOf(c, t).count < c.config[t].count || (t == Reality && RuntimeOf(c, t).withFlow < c.config[t].withFlow))
  }

  function DriftSuspects(c: LayerC, t: Proto): seq<Suspect> {
    if Drifts(c, t) then [Suspect(20, Of(t), Drift(RuntimeOf(c, t), c.config[t]))] else []
  }

  function CertTooLong(c: LayerC): seq<Suspect> {
    if c.certLen.Some? && c.certLen.value > CERT_LIMIT_BYTES then [Suspect(15, Of(Reality), CertOutgrew(c.certLen.value))] else []
  }

  function RealitySuspects(l: Layers, sofar: seq<Suspect>): seq<Suspect> {
    if StateOf(l, Reality) != Down then []
    else
      var u := l.a.audit;
      var found := When(!FlowMissing(u) && (u.rc == Some(2) || u.rc == None), Suspect(12, Of(Reality), AuditNotRun))
                   + CertTooLong(l.c) + DriftSuspects(l.c, Reality);
      found + When(!Aimed(sofar + found, Reality), Suspect(40, Of(Reality), InboundItself))
  }

  function StlsSuspects(l: Layers, sofar: seq<Suspect>): seq<Suspect> {
    if StateOf(l, Stls) != Down then []
    else
      var found := When(l.b.ok && l.b.shadowTls != "active", Suspect(5, Of(Stls), ShadowTlsDown(l.b.shadowTls)))
                   + DriftSuspects(l.c, Stls);
      found + When(!Aimed(sofar + found, Stls), Suspect(40, Of(Stls), InboundItself))
  }

  function WsSuspects(l: Layers): seq<Suspect> {
    if StateOf(l, Ws) != Down then []
    else if Drifts(l.c, Ws) then DriftSuspects(l.c, Ws)
    else [Suspect(40, Of(Ws), InboundItself)]
  }

  function UnitStatus(c: LayerC, t: Proto): string { if t == Hy2 then c.hysteria else c.hysteriaTurbo }

  /** "" stands for a unit the dump does not mention. */
  function HysteriaFound(l: Layers, t: Proto): seq<Suspect> {
    var dnat, hop := EntryDnatFor(t) - l.b.dnat, ExitHopFor(t) - l.c.hops;
    When(l.b.ok && dnat != {}, Suspect(10, Of(t), EntryNatGone(dnat)))
    + When(l.c.ok && UnitStatus(l.c, t) != "" && UnitStatus(l.c, t) != "active", Suspect(5, Of(t), DaemonDown(UnitStatus(l.c, t))))
    + When(NatKnown(l.c) && hop != {}, Suspect(30, Of(t), HopsGone(hop)))
  }

  function HysteriaSuspects(l: Layers, t: Proto): seq<Suspect> {
    if StateOf(l, t) !in [Down, Degraded] then []
    else
      var found := HysteriaFound(l, t);
      found + When(found == [] && StateOf(l, t) == Down, Suspect(40, Of(t), DaemonItself))
  }

  function DegradedSuspect(l: Layers, t: Proto): seq<Suspect> {
    var v := VerdictOf(l, t);
    if v.state != Degraded || v.reason == AuditBroke || v.reason == LayerBelow then []
    else if v.reason == DarkRun then [Suspect(35, Of(t), DarkLately)]
    else [Suspect(60, Of(t), LowRate)]
  }

  function DegradedSuspects(l: Layers, ts: seq<Proto>): seq<Suspect> {
    if ts == [] then [] else DegradedSuspect(l, ts[0]) + DegradedSuspects(l, ts[1..])
  }

  function BlindLayers(l: Layers): seq<Suspect> {
    When(!l.a.ok, Suspect(2, Every, NoLayerA))
    + When(!l.b.ok, Suspect(50, Every, NoLayerB))
    + When(!l.c.ok, Suspect(50, Every, NoLayerC))
  }

  function DarkSuspect(l: Layers): Suspect {
    Suspect(1, Every, EverythingDark(if l.b.ok && l.b.probeProxy != "running" then Some(l.b.probeProxy) else None))
  }

  function EachSuspects(l: Layers): seq<Suspect> {
    var s1 := AuditSuspects(l.a.audit);
    var s2 := s1 + RealitySuspects(l, s1);
    var s3 := s2 + StlsSuspects(l, s2);
    s3 + WsSuspects(l) + HysteriaSuspects(l, Hy2) + HysteriaSuspects(l, Hy2t) + DegradedSuspects(l, ProbedTags(l.a))
  }

  /** As they are found. */
  function Found(l: Layers): seq<Suspect> {
    When(PipelineStale(l.a), Suspect(1, Every, PipelineDead))
    + (if AllDark(l) then [DarkSuspect(l)] else EachSuspects(l))
    + BlindLayers(l)
  }

  // ---- ranking -----------------------------------------------------------------------------------------------

  /** Stable: behind everything of the same rank. */
  function Insert(s: Suspect, ss: seq<Suspect>): seq<Suspect> {
    if ss == [] then [s]
    else if ss[0].rank <= s.rank then [ss[0]] + Insert(s, ss[1..])
    else [s] + ss
  }

  function Sorted(ss: seq<Suspect>): seq<Suspect> {
    if ss == [] then [] else Insert(ss[|ss| - 1], Sorted(ss[..|ss| - 1]))
  }

  predicate SameIdent(a: Suspect, b: Suspect) { a.target == b.target && a.cause == b.cause }

  predicate Known(ss: seq<Suspect>, s: Suspect) {
    exists x | x in ss :: SameIdent(x, s)
  }

  function Distinct(ss: seq<Suspect>): seq<Suspect> {
    if ss == [] then []
    else
      var before := Distinct(ss[..|ss| - 1]);
      if Known(before, ss[|ss| - 1]) then before else before + [ss[|ss| - 1]]
  }

  function Renumbered(ss: seq<Suspect>): (r: seq<Suspect>)
    ensures |r| == |ss|
  {
    if ss == [] then [] else Renumbered(ss[..|ss| - 1]) + [ss[|ss| - 1].(rank := |ss|)]
  }

  function Ranked(ss: seq<Suspect>): seq<Suspect> {
    Renumbered(Distinct(Sorted(ss)))
  }

  // ---- the report ----------------------------------------------------------------------------------------------

  function ExitCodeFor(state: Proto -> State): int {
    if exists t | t in PROTOCOLS :: state(t) in [Down, Degraded] then 1
    else if forall t | t in PROTOCOLS :: state(t) == Ok then 0
    else 2
  }

  datatype Report = Report(states: map<Proto, Verdict>, suspects: seq<Suspect>, exitCode: int)

  function Assess(l: Layers): Report {
    Report(map t | t in PROTOCOLS :: VerdictOf(l, t), Ranked(Found(l)), ExitCodeFor(t => StateOf(l, t)))
  }
}
