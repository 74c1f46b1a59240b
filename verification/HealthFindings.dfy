/** What the protocol check finds, told by what was measured: the state of every
    protocol, and the suspects it lists. */
module HealthFindings {
  import opened Wrappers
  import opened Health
  import opened HealthLaws

  // ---- rows -----------------------------------------------------------------------------------

  predicate Recent(age: Option<real>) { age.Some? && age.value <= 45.0 }

  /** Layer A answered and is fresh, and this protocol's rows are there and
      fresh: its state can be told from them. */
  predicate Readable(a: LayerA, t: Proto) {
    a.ok && Recent(a.newest) && t in a.probes && a.probes[t] != [] && Recent(a.probes[t][0].age)
  }

  /** No row came through, not even slowly. */
  predicate DeadRows(rows: seq<Row>) {
    forall r | r in rows :: !r.ok && !r.latency
  }

  function OkRows(rows: seq<Row>): set<nat> {
    set i: nat | i < |rows| && rows[i].ok
  }

  /** Less than 35 of a hundred rows are ok. */
  predicate Slow(rows: seq<Row>)
    requires rows != []
  {
    |OkRows(rows)| as real / |rows| as real < 0.35
  }

  /** n rows make up the newest run: those within five minutes of the first,
      up to the first that is older or cannot be dated. */
  predicate NewestRun(rows: seq<Row>, n: nat)
    requires rows != [] && rows[0].age.Some?
  {
    && n <= |rows|
    && (forall i | 0 <= i < n :: rows[i].age.Some? && rows[i].age.value - rows[0].age.value <= 5.0)
    && (n < |rows| ==> rows[n].age == None || rows[n].age.value - rows[0].age.value > 5.0)
  }

  /** The newest run is a full one, of ten rows or more, without a single ok. */
  predicate DarkNewest(rows: seq<Row>)
    requires rows != [] && rows[0].age.Some?
  {
    exists n | 10 <= n <= |rows| :: NewestRun(rows, n) && forall i | 0 <= i < n :: !rows[i].ok
  }

  lemma {:induction false} OksSnoc(rows: seq<Row>)
    requires rows != []
    ensures var n := |rows| - 1; Oks(rows) == Oks(rows[..n]) + if rows[n].ok then 1 else 0
  {
    if |rows| > 1 {
      OksSnoc(rows[1..]);
      assert rows[1..][..|rows| - 2] == rows[..|rows| - 1][1..];
    }
  }

  lemma {:induction false} OksAre(rows: seq<Row>)
    ensures Oks(rows) == |OkRows(rows)|
  {
    if rows != [] {
      var n := |rows| - 1;
      OksAre(rows[..n]);
      OksSnoc(rows);
      assert OkRows(rows) == OkRows(rows[..n]) + if rows[n].ok then {n} else {};
    }
  }

  lemma {:induction false} WithinIs(rows: seq<Row>, head: real)
    ensures var run := Within(rows, head);
            && run <= rows
            && (forall i | 0 <= i < |run| :: rows[i].age.Some? && rows[i].age.value - head <= 5.0)
            && (|run| < |rows| ==> rows[|run|].age == None || rows[|run|].age.value - head > 5.0)
  {
    if rows != [] && rows[0].age.Some? && rows[0].age.value - head <= 5.0 {
      WithinIs(rows[1..], head);
      var run := Within(rows[1..], head);
      forall i | 0 <= i < |run| + 1 ensures rows[i].age.Some? && rows[i].age.value - head <= 5.0 {
        if i > 0 { assert rows[i] == rows[1..][i - 1]; }
      }
    }
  }

  lemma {:induction false} NoOks(rows: seq<Row>)
    ensures Oks(rows) == 0 <==> forall i | 0 <= i < |rows| :: !rows[i].ok
  {
    if rows != [] {
      NoOks(rows[1..]);
      assert forall i | 0 < i < |rows| :: rows[i] == rows[1..][i - 1];
    }
  }

  lemma OneNewestRun(rows: seq<Row>, n: nat, m: nat)
    requires rows != [] && rows[0].age.Some? && NewestRun(rows, n) && NewestRun(rows, m)
    ensures n == m
  {
  }

  lemma DarkIff(rows: seq<Row>)
    requires rows != [] && rows[0].age.Some?
    ensures |LatestRun(rows)| >= 10 && Oks(LatestRun(rows)) == 0 <==> DarkNewest(rows)
  {
    hide Within, Oks;
    var run := LatestRun(rows);
    WithinIs(rows, rows[0].age.value);
    NoOks(run);
    assert NewestRun(rows, |run|);
    if n :| 10 <= n <= |rows| && NewestRun(rows, n) && forall i | 0 <= i < n :: !rows[i].ok {
      OneNewestRun(rows, n, |run|);
    }
  }

  lemma SlowIff(rows: seq<Row>)
    requires rows != []
    ensures 20 * Oks(rows) < 7 * |rows| <==> Slow(rows)
  {
    OksAre(rows);
    RateIff(|OkRows(rows)|, |rows|);
  }

  lemma RateIff(n: nat, m: nat)
    requires m > 0
    ensures 20 * n < 7 * m <==> n as real / m as real < 0.35
  {
    QuotientBelow(n as real, m as real, 0.35);
    assert n as real < 0.35 * m as real <==> 20.0 * n as real < 7.0 * m as real;
    assert 20.0 * n as real == (20 * n) as real && 7.0 * m as real == (7 * m) as real;
  }

  lemma QuotientBelow(a: real, b: real, c: real)
    requires b > 0.0
    ensures a / b < c <==> a < c * b
  {
    var q := a / b;
    assert q * b == a;
    if q < c { Scaled(q, c, b); }
    if q > c { Scaled(c, q, b); }
  }

  lemma Scaled(x: real, y: real, b: real)
    requires b > 0.0 && x < y
    ensures x * b < y * b
  {
    assert (y - x) * b > 0.0;
  }

  /** The state of fresh rows. */
  lemma RowsTell(rows: seq<Row>)
    requires rows != [] && Recent(rows[0].age)
    ensures ProbeVerdict(rows).state == Down <==> DeadRows(rows)
    ensures ProbeVerdict(rows).state == Degraded <==> !DeadRows(rows) && (Slow(rows) || DarkNewest(rows))
    ensures ProbeVerdict(rows).state != Unknown
    ensures ProbeVerdict(rows).state == Degraded ==> ProbeVerdict(rows).reason == if Slow(rows) then ProbeRate else DarkRun
  {
    hide Oks, LatestRun, Slow, DarkNewest;
    SlowIff(rows);
    DarkIff(rows);
  }

  // ---- states ------------------------------------------------------------------------------------

  /** The panel audit complains of this inbound. */
  predicate AuditedBroken(u: Audit, t: Proto) {
    u.rc == Some(1) && t in u.named && t in {Reality, Ws, Stls}
  }

  lemma ProbeTells(a: LayerA, t: Proto)
    ensures var v := FromProbes(a, t);
            && (v.state == Unknown <==> !Readable(a, t))
            && (v.state == Down <==> Readable(a, t) && DeadRows(a.probes[t]))
            && (v.state == Degraded <==>
                  Readable(a, t) && !DeadRows(a.probes[t]) && (Slow(a.probes[t]) || DarkNewest(a.probes[t])))
  {
    hide ProbeVerdict, DeadRows, Slow, DarkNewest;
    var rows := RowsOf(a, t);
    if rows != [] && Recent(rows[0].age) {
      RowsTell(rows);
    } else {
      assert ProbeVerdict(rows).state == Unknown by { StaleRows(rows); }
    }
  }

  lemma StaleRows(rows: seq<Row>)
    requires rows == [] || !Recent(rows[0].age)
    ensures ProbeVerdict(rows).state == Unknown
  {
  }

  /** The state of reality, hy2, ws and stls, exactly: unknown unless its rows
      can be read; down when they are all dead; degraded when they are slow, the
      newest run is dark, or the audit complains of the inbound. */
  lemma ProbedState(l: Layers, t: Proto)
    requires t != Hy2t
    ensures StateOf(l, t) == Unknown <==> !Readable(l.a, t)
    ensures StateOf(l, t) == Down <==> Readable(l.a, t) && DeadRows(l.a.probes[t])
    ensures StateOf(l, t) == Degraded <==>
              Readable(l.a, t) && !DeadRows(l.a.probes[t])
              && (Slow(l.a.probes[t]) || DarkNewest(l.a.probes[t]) || AuditedBroken(l.a.audit, t))
  {
    hide FromProbes, DeadRows, Slow, DarkNewest;
    ProbeTells(l.a, t);
  }

  /** Exit or entry say that hy2t cannot work. */
  predicate TurboDead(l: Layers) {
    l.c.ok && (l.c.hysteriaTurbo != "active" || (l.b.ok && ("8402", "8402") !in l.b.dnat))
  }

  /** They say that its port hopping does not. */
  predicate TurboHopless(l: Layers) {
    && l.c.ok
    && (|| (l.c.natDump && ("40001:50000", "8402") !in l.c.hops)
        || (l.b.ok && ("40001:50000", "8402") !in l.b.dnat))
  }

  lemma LayersTell(l: Layers)
    requires l.c.ok
    ensures CState(l) == Down <==> TurboDead(l)
    ensures CState(l) == Degraded <==> !TurboDead(l) && TurboHopless(l)
    ensures CState(l) == Ok <==> !TurboDead(l) && !TurboHopless(l) && l.b.ok && l.c.natDump
  {
    assert ExitHopFor(Hy2t) == {("40001:50000", "8402")};
  }

  /** The state of hy2t, exactly. Without rows, layers B and C alone decide, and
      only both of them together can say that it is well; with rows, they can
      but worsen what the rows say. */
  lemma TurboState(l: Layers)
    ensures var rows := RowsOf(l.a, Hy2t);
            var r := Readable(l.a, Hy2t);
            && (StateOf(l, Hy2t) == Down <==> TurboDead(l) || (rows != [] && r && DeadRows(rows)))
            && (StateOf(l, Hy2t) == Degraded <==>
                  && !TurboDead(l) && !(rows != [] && r && DeadRows(rows))
                  && (TurboHopless(l) || (rows != [] && r && (Slow(rows) || DarkNewest(rows)))))
            && (StateOf(l, Hy2t) == Ok <==>
                  && !TurboDead(l) && !TurboHopless(l)
                  && if rows == [] then l.c.ok && l.b.ok && l.c.natDump
                     else r && !DeadRows(rows) && !Slow(rows) && !DarkNewest(rows))
  {
    hide FromProbes, CState, DeadRows, Slow, DarkNewest, TurboDead, TurboHopless, ProbedTags, Readable;
    TurboProbed(l.a);
    ProbeTells(l.a, Hy2t);
    if l.c.ok { LayersTell(l); }
    TurboNeedsC(l);
    RowsAreProbes(l.a, Hy2t);
  }

  lemma TurboNeedsC(l: Layers)
    ensures !l.c.ok ==> !TurboDead(l) && !TurboHopless(l)
  {
  }

  lemma RowsAreProbes(a: LayerA, t: Proto)
    ensures Readable(a, t) ==> t in a.probes && RowsOf(a, t) == a.probes[t] && RowsOf(a, t) != [] && RowsOf(a, t)[0].age.Some?
  {
  }

  /** One protocol whose fresh rows are all dead is enough for exit code 1. */
  lemma DeadRowsFail(l: Layers, t: Proto)
    requires Readable(l.a, t) && DeadRows(l.a.probes[t])
    ensures StateOf(l, t) == Down && Assess(l).states[t].state == Down && Assess(l).exitCode == 1
  {
    hide StateOf, VerdictOf, Found, Ranked, ExitCodeFor, DeadRows, Slow, DarkNewest, Readable;
    if t == Hy2t { TurboState(l); RowsAreProbes(l.a, t); } else { ProbedState(l, t); }
    Listed(t);
    ExitCodes(t => StateOf(l, t));
    assert (t => StateOf(l, t))(t) in [Down, Degraded];
    StateIsReported(l, t);
  }

  lemma StateIsReported(l: Layers, t: Proto)
    ensures t in Assess(l).states && Assess(l).states[t].state == StateOf(l, t)
  {
    hide VerdictOf, Found, Ranked, ExitCodeFor;
    Listed(t);
  }

  lemma ThreeCodes(state: Proto -> State)
    ensures ExitCodeFor(state) in {0, 1, 2}
  {
  }

  /** The exit code, by the states: 1 for any failure, else 0 only if all are ok. */
  lemma ExitCodeIff(l: Layers)
    ensures Assess(l).exitCode == 1 <==> exists t :: StateOf(l, t) == Down || StateOf(l, t) == Degraded
    ensures Assess(l).exitCode == 0 <==> forall t :: StateOf(l, t) == Ok
    ensures Assess(l).exitCode in {0, 1, 2}
  {
    hide StateOf, Found, Ranked, ExitCodeFor;
    var state := t => StateOf(l, t);
    ExitCodes(state);
    assert forall t: Proto :: state(t) == StateOf(l, t);
    if t :| StateOf(l, t) == Down || StateOf(l, t) == Degraded { assert state(t) in [Down, Degraded]; }
    assert Assess(l).exitCode == ExitCodeFor(state);
    ThreeCodes(state);
    assert state(Reality) == StateOf(l, Reality) && state(Hy2) == StateOf(l, Hy2) && state(Hy2t) == StateOf(l, Hy2t)
        && state(Ws) == StateOf(l, Ws) && state(Stls) == StateOf(l, Stls);
    if Assess(l).exitCode == 0 {
      forall t: Proto ensures StateOf(l, t) == Ok {
        match t { case Reality => case Hy2 => case Hy2t => case Ws => case Stls => }
      }
    }
  }

  // ---- suspects -------------------------------------------------------------------------------------

  /** Every probed protocol is down: one incident, not five. */
  predicate Dark(l: Layers) {
    && StateOf(l, Reality) == Down && StateOf(l, Hy2) == Down && StateOf(l, Ws) == Down && StateOf(l, Stls) == Down
    && (RowsOf(l.a, Hy2t) != [] ==> StateOf(l, Hy2t) == Down)
  }

  /** The running xray of this inbound knows fewer users, or for reality fewer
      with a flow, than its configuration. */
  predicate Behind(c: LayerC, t: Proto, rt: Runtime, cf: Counts) {
    && t in c.config && cf == c.config[t]
    && rt == (if t in c.runtime then c.runtime[t] else Runtime(false, 0, 0)) && !rt.error
    && (rt.count < cf.count || (t == Reality && rt.withFlow < cf.withFlow))
  }

  predicate SomethingBehind(c: LayerC, t: Proto) {
    t in c.config && Behind(c, t, if t in c.runtime then c.runtime[t] else Runtime(false, 0, 0), c.config[t])
  }

  function NeededOnEntry(t: Proto): Rules {
    if t == Hy2 then {("443", "8400"), ("8400", "8400"), ("20000:40000", "8400")}
    else {("8402", "8402"), ("40001:50000", "8402")}
  }

  function NeededOnExit(t: Proto): Rules {
    if t == Hy2 then {("20000:40000", "8400")} else {("40001:50000", "8402")}
  }

  predicate EntryLacks(l: Layers, t: Proto) { l.b.ok && !(NeededOnEntry(t) <= l.b.dnat) }

  predicate ExitLacks(l: Layers, t: Proto) { l.c.ok && l.c.natDump && !(NeededOnExit(t) <= l.c.hops) }

  function UnitOf(c: LayerC, t: Proto): string { if t == Hy2 then c.hysteria else c.hysteriaTurbo }

  predicate DaemonIsDown(l: Layers, t: Proto) { l.c.ok && UnitOf(l.c, t) != "" && UnitOf(l.c, t) != "active" }

  predicate Troubled(l: Layers, t: Proto) { StateOf(l, t) == Down || StateOf(l, t) == Degraded }

  /** The rows of t alone make it degraded. */
  predicate SlowOrDark(l: Layers, t: Proto, slow: bool) {
    && Readable(l.a, t) && !DeadRows(l.a.probes[t]) && (t == Hy2t ==> !TurboDead(l))
    && if slow then Slow(l.a.probes[t]) else !Slow(l.a.probes[t]) && DarkNewest(l.a.probes[t])
  }

  predicate OnXray(target: Target) { target == Of(Reality) || target == Of(Stls) || target == Of(Ws) }

  predicate Hysteria(target: Target) { target == Of(Hy2) || target == Of(Hy2t) }

  /** When a suspect is listed: for every cause, whom it accuses and on what
      evidence. */
  predicate Evidence(l: Layers, target: Target, cause: Cause) {
    var u := l.a.audit;
    match cause
    case PipelineDead => target == Every && l.a.ok && !Recent(l.a.newest)
    case EverythingDark(p) =>
      target == Every && Dark(l) && p == if l.b.ok && l.b.probeProxy != "running" then Some(l.b.probeProxy) else None
    case FlowWipe => target == Of(Reality) && !Dark(l) && u.rc == Some(1) && u.emptyFlow
    case PasswordWipe => target == Of(Stls) && !Dark(l) && u.rc == Some(1) && u.emptyPassword
    case AuditBroken(on) => target == Every && !Dark(l) && u.rc == Some(1) && !u.emptyFlow && !u.emptyPassword && on == u.named
    case AuditNotRun => target == Of(Reality) && !Dark(l) && StateOf(l, Reality) == Down && (u.rc == Some(2) || u.rc == None)
    case CertOutgrew(n) => target == Of(Reality) && !Dark(l) && StateOf(l, Reality) == Down && l.c.certLen == Some(n) && n > 8000
    case Drift(rt, cf) =>
      OnXray(target) && !Dark(l) && StateOf(l, target.proto) == Down && Behind(l.c, target.proto, rt, cf)
    case InboundItself =>
      && OnXray(target) && !Dark(l) && StateOf(l, target.proto) == Down && !SomethingBehind(l.c, target.proto)
      && (target == Of(Reality) ==> !(u.rc == Some(1) && u.emptyFlow) && u.rc != Some(2) && u.rc != None
                                    && (l.c.certLen.Some? ==> l.c.certLen.value <= 8000))
      && (target == Of(Stls) ==> !(u.rc == Some(1) && u.emptyPassword) && (l.b.ok ==> l.b.shadowTls == "active"))
    case ShadowTlsDown(status) =>
      target == Of(Stls) && !Dark(l) && StateOf(l, Stls) == Down && l.b.ok && l.b.shadowTls == status && status != "active"
    case EntryNatGone(missing) =>
      Hysteria(target) && !Dark(l) && Troubled(l, target.proto) && EntryLacks(l, target.proto)
      && missing == NeededOnEntry(target.proto) - l.b.dnat
    case DaemonDown(status) =>
      Hysteria(target) && !Dark(l) && Troubled(l, target.proto) && DaemonIsDown(l, target.proto)
      && status == UnitOf(l.c, target.proto)
    case HopsGone(missing) =>
      Hysteria(target) && !Dark(l) && Troubled(l, target.proto) && ExitLacks(l, target.proto)
      && missing == NeededOnExit(target.proto) - l.c.hops
    case DaemonItself =>
      Hysteria(target) && !Dark(l) && StateOf(l, target.proto) == Down
      && !EntryLacks(l, target.proto) && !DaemonIsDown(l, target.proto) && !ExitLacks(l, target.proto)
    case DarkLately => target != Every && !Dark(l) && SlowOrDark(l, target.proto, false)
    case LowRate => target != Every && !Dark(l) && SlowOrDark(l, target.proto, true)
    case NoLayerA => target == Every && !l.a.ok
    case NoLayerB => target == Every && !l.b.ok
    case NoLayerC => target == Every && !l.c.ok
  }

  /** What is looked at first. */
  function Urgency(cause: Cause): nat {
    match cause
    case PipelineDead => 1
    case EverythingDark(_) => 1
    case FlowWipe => 1
    case NoLayerA => 2
    case ShadowTlsDown(_) => 5
    case DaemonDown(_) => 5
    case PasswordWipe => 8
    case EntryNatGone(_) => 10
    case AuditBroken(_) => 12
    case AuditNotRun => 12
    case CertOutgrew(_) => 15
    case Drift(_, _) => 20
    case HopsGone(_) => 30
    case DarkLately => 35
    case InboundItself => 40
    case DaemonItself => 40
    case NoLayerB => 50
    case NoLayerC => 50
    case LowRate => 60
  }

  /** Found with this evidence, under its urgency. */
  predicate Justified(l: Layers, x: Suspect) {
    x.rank == Urgency(x.cause) && Evidence(l, x.target, x.cause)
  }

  lemma DarkIs(l: Layers)
    ensures AllDark(l) <==> Dark(l)
  {
    hide StateOf, RowsOf;
    assert PROBED[0] == Reality && PROBED[1] == Hy2 && PROBED[2] == Ws && PROBED[3] == Stls;
    TurboProbed(l.a);
    ProbedListed(l.a, Reality);
    ProbedListed(l.a, Hy2);
    ProbedListed(l.a, Ws);
    ProbedListed(l.a, Stls);
    forall t | t in ProbedTags(l.a) ensures t == Hy2t ==> RowsOf(l.a, Hy2t) != [] { }
  }

  predicate OfAudit(c: Cause) { c.FlowWipe? || c.PasswordWipe? || c.AuditBroken? }

  lemma AuditFound(l: Layers, x: Suspect)
    requires !Dark(l)
    ensures x in AuditSuspects(l.a.audit) <==> OfAudit(x.cause) && Justified(l, x)
  {
    hide Dark;
  }

  lemma DriftIs(c: LayerC, t: Proto)
    ensures SomethingBehind(c, t) <==> Drifts(c, t)
    ensures forall x :: x in DriftSuspects(c, t) <==> x.rank == 20 && x.target == Of(t) && x.cause.Drift?
                                                      && Behind(c, t, x.cause.runtime, x.cause.config)
    ensures forall rt, cf :: Behind(c, t, rt, cf) ==> SomethingBehind(c, t)
  {
    if Drifts(c, t) { assert Behind(c, t, RuntimeOf(c, t), c.config[t]); }
  }

  /** Accusing one of the three inbounds. */
  predicate OfInbound(x: Suspect, t: Proto) {
    x.target == Of(t) && !OfAudit(x.cause) && !x.cause.DarkLately? && !x.cause.LowRate?
  }

  /** Reasons to accuse reality's inbound, apart from the audit. */
  function RealityReasons(l: Layers): seq<Suspect> {
    var u := l.a.audit;
    When(!FlowMissing(u) && (u.rc == Some(2) || u.rc == None), Suspect(12, Of(Reality), AuditNotRun))
    + CertTooLong(l.c) + DriftSuspects(l.c, Reality)
  }

  predicate NotAudited(u: Audit) { u.rc == Some(2) || u.rc == None }

  predicate TooLong(c: LayerC) { c.certLen.Some? && c.certLen.value > 8000 }

  lemma RealityReasonsAre(l: Layers, x: Suspect)
    ensures x in RealityReasons(l) <==>
              || (NotAudited(l.a.audit) && x == Suspect(12, Of(Reality), AuditNotRun))
              || (TooLong(l.c) && x == Suspect(15, Of(Reality), CertOutgrew(l.c.certLen.value)))
              || x in DriftSuspects(l.c, Reality)
    ensures RealityReasons(l) == [] <==> !NotAudited(l.a.audit) && !TooLong(l.c) && DriftSuspects(l.c, Reality) == []
  {
    hide DriftSuspects;
  }

  /** Nothing else speaks against reality's inbound. */
  predicate OnlyItself(l: Layers) {
    && !SomethingBehind(l.c, Reality) && !(l.a.audit.rc == Some(1) && l.a.audit.emptyFlow)
    && !NotAudited(l.a.audit) && !TooLong(l.c)
  }

  lemma RealityAccused(l: Layers, x: Suspect)
    requires !Dark(l)
    ensures OfInbound(x, Reality) && Justified(l, x) <==>
              StateOf(l, Reality) == Down
              && (|| (NotAudited(l.a.audit) && x == Suspect(12, Of(Reality), AuditNotRun))
                  || (TooLong(l.c) && x == Suspect(15, Of(Reality), CertOutgrew(l.c.certLen.value)))
                  || (x.rank == 20 && x.target == Of(Reality) && x.cause.Drift? && Behind(l.c, Reality, x.cause.runtime, x.cause.config))
                  || (OnlyItself(l) && x == Suspect(40, Of(Reality), InboundItself)))
  {
    hide Dark, StateOf, Behind, SomethingBehind, SlowOrDark, Troubled, EntryLacks, ExitLacks, DaemonIsDown;
  }

  lemma RealityFound(l: Layers, x: Suspect)
    requires !Dark(l)
    ensures x in RealitySuspects(l, AuditSuspects(l.a.audit)) <==> OfInbound(x, Reality) && Justified(l, x)
  {
    hide Dark, StateOf, Drifts, DriftSuspects, Behind, SomethingBehind, RealityReasons, AuditSuspects, RealitySuspects, OfInbound, Justified,
         Aimed, NotAudited, TooLong;
    RealityAccused(l, x);
    DriftIs(l.c, Reality);
    DriftsListed(l.c, Reality);
    RealityReasonsAre(l, x);
    var sofar, found := AuditSuspects(l.a.audit), RealityReasons(l);
    forall y | y in found ensures y.target == Of(Reality) { RealityReasonsAre(l, y); }
    AimedOnce(sofar, found, Reality);
    AuditAims(l.a.audit);
    RealityUnfolds(l, sofar);
  }

  lemma RealityUnfolds(l: Layers, sofar: seq<Suspect>)
    ensures RealitySuspects(l, sofar) ==
              if StateOf(l, Reality) != Down then []
              else RealityReasons(l) + When(!Aimed(sofar + RealityReasons(l), Reality), Suspect(40, Of(Reality), InboundItself))
  {
    hide StateOf, CertTooLong, DriftSuspects, Aimed;
  }

  lemma AuditAims(u: Audit)
    ensures Aimed(AuditSuspects(u), Reality) <==> u.rc == Some(1) && u.emptyFlow
    ensures Aimed(AuditSuspects(u), Stls) <==> u.rc == Some(1) && u.emptyPassword
  {
    var ss := AuditSuspects(u);
    if FlowMissing(u) { assert ss[0].target == Of(Reality) && ss[0] in ss; }
    if PasswordMissing(u) {
      var i := if FlowMissing(u) then 1 else 0;
      assert ss[i].target == Of(Stls) && ss[i] in ss;
    }
  }

  lemma DriftsListed(c: LayerC, t: Proto)
    ensures DriftSuspects(c, t) != [] <==> SomethingBehind(c, t)
    ensures forall x | x in DriftSuspects(c, t) :: x.target == Of(t)
  {
    DriftIs(c, t);
  }

  lemma AimedOnce(sofar: seq<Suspect>, found: seq<Suspect>, t: Proto)
    requires forall x | x in found :: x.target == Of(t)
    ensures Aimed(sofar + found, t) <==> Aimed(sofar, t) || found != []
  {
    if found != [] { assert found[0] in sofar + found; }
    if Aimed(sofar, t) {
      var s :| s in sofar && s.target == Of(t);
      assert s in sofar + found;
    }
  }

  function StlsReasons(l: Layers): seq<Suspect> {
    When(l.b.ok && l.b.shadowTls != "active", Suspect(5, Of(Stls), ShadowTlsDown(l.b.shadowTls))) + DriftSuspects(l.c, Stls)
  }

  lemma StlsReasonsAre(l: Layers, x: Suspect)
    ensures x in StlsReasons(l) <==>
              || (l.b.ok && l.b.shadowTls != "active" && x == Suspect(5, Of(Stls), ShadowTlsDown(l.b.shadowTls)))
              || x in DriftSuspects(l.c, Stls)
    ensures StlsReasons(l) == [] <==> !(l.b.ok && l.b.shadowTls != "active") && DriftSuspects(l.c, Stls) == []
  {
    hide DriftSuspects;
  }

  lemma StlsUnfolds(l: Layers, sofar: seq<Suspect>)
    ensures StlsSuspects(l, sofar) ==
              if StateOf(l, Stls) != Down then []
              else StlsReasons(l) + When(!Aimed(sofar + StlsReasons(l), Stls), Suspect(40, Of(Stls), InboundItself))
  {
    hide StateOf, DriftSuspects, Aimed;
  }

  predicate FrontIsDown(l: Layers) { l.b.ok && l.b.shadowTls != "active" }

  lemma StlsAccused(l: Layers, x: Suspect)
    requires !Dark(l)
    ensures OfInbound(x, Stls) && Justified(l, x) <==>
              StateOf(l, Stls) == Down
              && (|| (FrontIsDown(l) && x == Suspect(5, Of(Stls), ShadowTlsDown(l.b.shadowTls)))
                  || (x.rank == 20 && x.target == Of(Stls) && x.cause.Drift? && Behind(l.c, Stls, x.cause.runtime, x.cause.config))
                  || (!SomethingBehind(l.c, Stls) && !(l.a.audit.rc == Some(1) && l.a.audit.emptyPassword) && !FrontIsDown(l)
                      && x == Suspect(40, Of(Stls), InboundItself)))
  {
    hide Dark, StateOf, Behind, SomethingBehind, SlowOrDark, Troubled, EntryLacks, ExitLacks, DaemonIsDown;
  }

  lemma StlsFound(l: Layers, x: Suspect)
    requires !Dark(l)
    ensures var s1 := AuditSuspects(l.a.audit);
            x in StlsSuspects(l, s1 + RealitySuspects(l, s1)) <==> OfInbound(x, Stls) && Justified(l, x)
  {
    hide Dark, StateOf, Drifts, DriftSuspects, Behind, SomethingBehind, RealitySuspects, StlsReasons, StlsSuspects, AuditSuspects, Aimed,
         OfInbound, Justified;
    StlsAccused(l, x);
    var s1 := AuditSuspects(l.a.audit);
    var reality, found := RealitySuspects(l, s1), StlsReasons(l);
    DriftIs(l.c, Stls);
    DriftsListed(l.c, Stls);
    StlsReasonsAre(l, x);
    forall y | y in found ensures y.target == Of(Stls) { StlsReasonsAre(l, y); }
    AimedOnce(s1 + reality, found, Stls);
    AuditAims(l.a.audit);
    NotAimedByReality(l, s1);
    StlsUnfolds(l, s1 + reality);
  }

  lemma NotAimedByReality(l: Layers, s1: seq<Suspect>)
    requires !Dark(l) && s1 == AuditSuspects(l.a.audit)
    ensures Aimed(s1 + RealitySuspects(l, s1), Stls) <==> Aimed(s1, Stls)
  {
    hide Dark, RealitySuspects, AuditSuspects, Justified;
    var reality := RealitySuspects(l, s1);
    forall y | y in reality ensures y.target == Of(Reality) { RealityFound(l, y); }
    if Aimed(s1, Stls) { var y :| y in s1 && y.target == Of(Stls); assert y in s1 + reality; }
  }

  lemma WsFound(l: Layers, x: Suspect)
    requires !Dark(l)
    ensures x in WsSuspects(l) <==> OfInbound(x, Ws) && Justified(l, x)
  {
    hide Dark, StateOf, Drifts, DriftSuspects, Behind, SomethingBehind;
    DriftIs(l.c, Ws);
  }

  lemma LacksIs(l: Layers, t: Proto)
    requires t == Hy2 || t == Hy2t
    ensures EntryLacks(l, t) <==> l.b.ok && EntryDnatFor(t) - l.b.dnat != {}
    ensures ExitLacks(l, t) <==> NatKnown(l.c) && ExitHopFor(t) - l.c.hops != {}
    ensures EntryDnatFor(t) == NeededOnEntry(t) && ExitHopFor(t) == NeededOnExit(t)
    ensures UnitOf(l.c, t) == UnitStatus(l.c, t)
  {
    assert EntryDnatFor(t) == NeededOnEntry(t) && ExitHopFor(t) == NeededOnExit(t);
    hide EntryDnatFor, ExitHopFor, NeededOnEntry, NeededOnExit;
    NoneMissing(NeededOnEntry(t), l.b.dnat);
    NoneMissing(NeededOnExit(t), l.c.hops);
  }

  lemma NoneMissing(needed: Rules, there: Rules)
    ensures needed <= there <==> needed - there == {}
  {
    assert forall r | r in needed :: r in there || r in needed - there;
  }

  /** The three ways a hysteria protocol is accused with a reason. */
  lemma HysteriaReasons(l: Layers, t: Proto, x: Suspect)
    requires t == Hy2 || t == Hy2t
    ensures x in HysteriaFound(l, t) <==>
              || (EntryLacks(l, t) && x == Suspect(10, Of(t), EntryNatGone(NeededOnEntry(t) - l.b.dnat)))
              || (DaemonIsDown(l, t) && x == Suspect(5, Of(t), DaemonDown(UnitOf(l.c, t))))
              || (ExitLacks(l, t) && x == Suspect(30, Of(t), HopsGone(NeededOnExit(t) - l.c.hops)))
    ensures HysteriaFound(l, t) == [] <==> !EntryLacks(l, t) && !DaemonIsDown(l, t) && !ExitLacks(l, t)
  {
    LacksIs(l, t);
    hide EntryDnatFor, ExitHopFor, NeededOnEntry, NeededOnExit, EntryLacks, ExitLacks, UnitOf, UnitStatus, NatKnown;
  }

  lemma HysteriaIs(l: Layers, t: Proto, x: Suspect)
    requires !Dark(l) && (t == Hy2 || t == Hy2t)
    ensures x in HysteriaSuspects(l, t) <==> OfInbound(x, t) && Justified(l, x)
  {
    hide Dark, StateOf, HysteriaFound, EntryLacks, ExitLacks, DaemonIsDown, UnitOf, NeededOnEntry, NeededOnExit, Behind,
         SomethingBehind, SlowOrDark;
    HysteriaReasons(l, t, x);
  }

  predicate OfRows(c: Cause) { c.DarkLately? || c.LowRate? }

  /** Why a protocol with rows is degraded. */
  lemma RowReason(l: Layers, t: Proto)
    requires t in ProbedTags(l.a)
    ensures var v := VerdictOf(l, t);
            && (SlowOrDark(l, t, true) <==> v.state == Degraded && v.reason == ProbeRate)
            && (SlowOrDark(l, t, false) <==> v.state == Degraded && v.reason == DarkRun)
            && (v.state == Degraded ==> v.reason != NoReason)
  {
    hide ProbeVerdict, DeadRows, Slow, DarkNewest, CState, TurboDead, TurboHopless, ProbedTags, BrokenBy;
    var rows := RowsOf(l.a, t);
    if rows != [] && Recent(rows[0].age) { RowsTell(rows); } else { StaleRows(rows); }
    if l.c.ok { LayersTell(l); }
    TurboNeedsC(l);
  }

  lemma DegradedIs(l: Layers, t: Proto, x: Suspect)
    requires !Dark(l) && t in ProbedTags(l.a)
    ensures x in DegradedSuspect(l, t) <==> OfRows(x.cause) && x.target == Of(t) && Justified(l, x)
  {
    hide Dark, VerdictOf, SlowOrDark, ProbedTags;
    RowReason(l, t);
  }

  lemma {:induction false} AllDegraded(l: Layers, ts: seq<Proto>, x: Suspect)
    requires !Dark(l) && forall t | t in ts :: t in ProbedTags(l.a)
    ensures x in DegradedSuspects(l, ts)
            <==> OfRows(x.cause) && x.target != Every && x.target.proto in ts && Justified(l, x)
  {
    hide Dark, DegradedSuspect, ProbedTags, Justified;
    if ts != [] {
      DegradedIs(l, ts[0], x);
      AllDegraded(l, ts[1..], x);
    }
  }

  /** Rows that can be read are rows that are probed. */
  lemma RowsProbed(l: Layers, x: Suspect)
    requires OfRows(x.cause) && Justified(l, x)
    ensures x.target != Every && x.target.proto in ProbedTags(l.a)
  {
    hide DeadRows, Slow, DarkNewest, Dark, ProbedTags, TurboDead;
    var t := x.target.proto;
    if t == Hy2t { TurboProbed(l.a); RowsAreProbes(l.a, t); } else { ProbedListed(l.a, t); }
  }

  lemma EachFound(l: Layers, x: Suspect)
    requires !Dark(l)
    ensures x in EachSuspects(l) <==>
              Justified(l, x) && !x.cause.PipelineDead? && !x.cause.EverythingDark?
              && !x.cause.NoLayerA? && !x.cause.NoLayerB? && !x.cause.NoLayerC?
  {
    hide Dark, AuditSuspects, RealitySuspects, StlsSuspects, WsSuspects, HysteriaSuspects, DegradedSuspects, StateOf,
         SlowOrDark, Urgency, SomethingBehind, Behind, EntryLacks, ExitLacks, ProbedTags;
    AuditFound(l, x);
    RealityFound(l, x);
    StlsFound(l, x);
    WsFound(l, x);
    HysteriaIs(l, Hy2, x);
    HysteriaIs(l, Hy2t, x);
    AllDegraded(l, ProbedTags(l.a), x);
    if OfRows(x.cause) && Justified(l, x) { RowsProbed(l, x); }
  }

  predicate OfLayer(c: Cause) { c.PipelineDead? || c.NoLayerA? || c.NoLayerB? || c.NoLayerC? }

  lemma LayersFound(l: Layers, x: Suspect)
    ensures x in When(PipelineStale(l.a), Suspect(1, Every, PipelineDead)) + BlindLayers(l) <==> OfLayer(x.cause) && Justified(l, x)
  {
    hide Dark, StateOf, SlowOrDark, SomethingBehind, Behind, EntryLacks, ExitLacks, DaemonIsDown, Troubled;
  }

  lemma DarkFound(l: Layers, x: Suspect)
    requires Dark(l)
    ensures x == DarkSuspect(l) <==> !OfLayer(x.cause) && Justified(l, x)
  {
    hide StateOf, SlowOrDark, SomethingBehind, Behind, EntryLacks, ExitLacks, DaemonIsDown, Troubled;
  }

  lemma NotDarkFound(l: Layers, x: Suspect)
    requires !Dark(l)
    ensures x in EachSuspects(l) <==> !OfLayer(x.cause) && Justified(l, x)
  {
    hide EachSuspects, StateOf, SlowOrDark, SomethingBehind, Behind, EntryLacks, ExitLacks, DaemonIsDown, Troubled;
    EachFound(l, x);
  }

  lemma FoundIff(l: Layers, x: Suspect)
    ensures x in Found(l) <==> Justified(l, x)
  {
    hide EachSuspects, AllDark, Dark, DarkSuspect, PipelineStale, BlindLayers, Justified;
    DarkIs(l);
    LayersFound(l, x);
    if Dark(l) { DarkFound(l, x); } else { NotDarkFound(l, x); }
  }

  /** The list of suspects, exactly: whoever there is evidence against is on it,
      nobody else, each once, the most urgent first, numbered from 1. */
  lemma SuspectsIff(l: Layers)
    ensures var r := Assess(l).suspects;
            && (forall target, cause :: (exists i | 0 <= i < |r| :: r[i].target == target && r[i].cause == cause)
                                        <==> Evidence(l, target, cause))
            && (forall i | 0 <= i < |r| :: r[i].rank == i + 1)
            && (forall i, j | 0 <= i < j < |r| :: Urgency(r[i].cause) <= Urgency(r[j].cause) && !SameIdent(r[i], r[j]))
  {
    hide Found, Evidence, Urgency, Sorted, Distinct, Ranked, VerdictOf, ExitCodeFor;
    RankedList(Found(l));
    var r, d := Ranked(Found(l)), Distinct(Sorted(Found(l)));
    forall i | 0 <= i < |r| ensures d[i].rank == Urgency(r[i].cause) && Evidence(l, r[i].target, r[i].cause) {
      assert d[i] in d;
      FoundIff(l, d[i]);
    }
    forall target, cause | Evidence(l, target, cause)
      ensures exists i | 0 <= i < |r| :: r[i].target == target && r[i].cause == cause
    {
      var x := Suspect(Urgency(cause), target, cause);
      FoundIff(l, x);
      var y :| y in r && SameIdent(y, x);
    }
  }
}
