/** What the verdict can be trusted for. */
module HealthLaws {
  import opened Wrappers
  import opened Health

  // ---- a pass ---------------------------------------------------------------------------------

  /** Rows that speak for a protocol: fresh, at least half the normal rate, and
      the newest full run not wholly dark. */
  predicate Convincing(rows: seq<Row>) {
    && rows != [] && rows[0].age.Some? && rows[0].age.value <= PROBE_STALE_MIN
    && 20 * Oks(rows) >= 7 * |rows|
    && (|LatestRun(rows)| >= PROBE_DOMAINS ==> Oks(LatestRun(rows)) > 0)
  }

  /** Every fact layer B and C must give before hy2t passes without probes. */
  predicate PathVerified(l: Layers) {
    && l.c.ok && l.b.ok && l.c.natDump && l.c.hysteriaTurbo == "active"
    && ENTRY_MAIN in l.b.dnat && ENTRY_HOPS in l.b.dnat && ENTRY_HOPS in l.c.hops
  }

  /** No layer that answered found hy2t broken. */
  predicate NoFailureFound(l: Layers) {
    l.c.ok ==>
      && l.c.hysteriaTurbo == "active"
      && (l.b.ok ==> ENTRY_MAIN in l.b.dnat && ENTRY_HOPS in l.b.dnat)
      && (l.c.natDump ==> ENTRY_HOPS in l.c.hops)
  }

  lemma OkMeansAlive(rows: seq<Row>)
    requires Oks(rows) > 0
    ensures AnyAlive(rows)
  {
    if rows[0].ok {
      assert rows[0] in rows && Alive(rows[0]);
    } else {
      OkMeansAlive(rows[1..]);
      var r :| r in rows[1..] && Alive(r);
      assert r in rows;
    }
  }

  lemma ProbeOk(rows: seq<Row>)
    ensures ProbeVerdict(rows).state == Ok <==> Convincing(rows)
  {
    hide LatestRun, AnyAlive;
    if Convincing(rows) { OkMeansAlive(rows); }
  }

  /** The latest run of rows that come newest first is every row of the last
      five minutes before the newest. */
  lemma {:induction false} LatestRunIsRecent(rows: seq<Row>, head: real)
    requires forall i | 0 <= i < |rows| :: rows[i].age.Some?
    requires forall i, j | 0 <= i < j < |rows| :: rows[i].age.value <= rows[j].age.value
    ensures var run := Within(rows, head);
            run <= rows && forall i | 0 <= i < |rows| :: i < |run| <==> rows[i].age.value <= head + RUN_SPAN_MIN
  {
    if rows != [] && rows[0].age.value - head <= RUN_SPAN_MIN {
      LatestRunIsRecent(rows[1..], head);
      assert forall i | 0 < i < |rows| :: rows[i] == rows[1..][i - 1];
    }
  }

  lemma Listed(t: Proto)
    ensures t in PROTOCOLS
  {
    match t
    case Reality => assert PROTOCOLS[0] == t;
    case Hy2 => assert PROTOCOLS[1] == t;
    case Hy2t => assert PROTOCOLS[2] == t;
    case Ws => assert PROTOCOLS[3] == t;
    case Stls => assert PROTOCOLS[4] == t;
  }

  lemma ExitCodes(state: Proto -> State)
    ensures ExitCodeFor(state) == 0 <==>
              state(Reality) == Ok && state(Hy2) == Ok && state(Hy2t) == Ok && state(Ws) == Ok && state(Stls) == Ok
    ensures ExitCodeFor(state) == 1 <==> exists t :: state(t) in [Down, Degraded]
  {
    forall t: Proto ensures t in PROTOCOLS { Listed(t); }
  }

  /** Exit code 0, exactly: layer A answered and is fresh; every probed protocol
      has convincing rows; no inbound is broken by the audit; and hy2t is
      either verified by every fact of layers B and C or, when probed, found
      broken by none. "Could not look" is never a pass. */
  lemma PassMeans(l: Layers)
    ensures Assess(l).exitCode == 0 <==>
              && l.a.ok && l.a.newest.Some? && l.a.newest.value <= PROBE_STALE_MIN
              && (forall t | t in [Reality, Hy2, Ws, Stls] :: Convincing(RowsOf(l.a, t)) && t !in BrokenBy(l.a.audit))
              && (if RowsOf(l.a, Hy2t) != [] then Convincing(RowsOf(l.a, Hy2t)) && NoFailureFound(l) else PathVerified(l))
  {
    hide Convincing, ProbeVerdict, RowsOf, BrokenBy, CState, Found, Ranked, ExitCodeFor;
    ExitCodes(t => StateOf(l, t));
    forall t: Proto ensures ProbeVerdict(RowsOf(l.a, t)).state == Ok <==> Convincing(RowsOf(l.a, t)) { ProbeOk(RowsOf(l.a, t)); }
    assert Hy2t in ProbedTags(l.a) <==> RowsOf(l.a, Hy2t) != [] by { TurboProbed(l.a); }
    CStates(l);
    NotBroken(l.a.audit);
    FourPass(l);
  }

  lemma TurboProbed(a: LayerA)
    ensures Hy2t in ProbedTags(a) <==> RowsOf(a, Hy2t) != []
  {
    hide RowsOf;
    assert Hy2t !in PROBED;
    if RowsOf(a, Hy2t) != [] { assert (PROBED + [Hy2t])[4] == Hy2t; }
  }

  lemma CStates(l: Layers)
    ensures l.c.ok ==> (CState(l) == Ok <==> PathVerified(l))
    ensures l.c.ok ==> (CState(l) !in [Down, Degraded] <==> NoFailureFound(l))
  {
  }

  lemma NotBroken(u: Audit)
    ensures Hy2 !in BrokenBy(u) && Hy2t !in BrokenBy(u)
  {
  }

  lemma FourPass(l: Layers)
    ensures (forall t | t in [Reality, Hy2, Ws, Stls] :: StateOf(l, t) == Ok)
            <==> l.a.ok && !PipelineStale(l.a)
                 && forall t | t in [Reality, Hy2, Ws, Stls] :: Convincing(RowsOf(l.a, t)) && t !in BrokenBy(l.a.audit)
  {
    hide Convincing, ProbeVerdict, RowsOf, BrokenBy, Stale;
    forall t: Proto ensures ProbeVerdict(RowsOf(l.a, t)).state == Ok <==> Convincing(RowsOf(l.a, t)) { ProbeOk(RowsOf(l.a, t)); }
    assert Reality in [Reality, Hy2, Ws, Stls];
  }

  /** hy2t: layers C and B are a floor under the probes, which they can only
      worsen. */
  lemma LayerCIsAFloor(l: Layers)
    ensures l.c.ok && CState(l) in [Down, Degraded] ==> Order(StateOf(l, Hy2t)) >= Order(CState(l))
    ensures Hy2t in ProbedTags(l.a) ==> Order(StateOf(l, Hy2t)) >= Order(FromProbes(l.a, Hy2t).state)
  {
    hide ProbeVerdict, CState, ProbedTags;
  }

  // ---- suspects ----------------------------------------------------------------------------------

  lemma {:induction false} InsertKeeps(s: Suspect, ss: seq<Suspect>)
    ensures forall x :: x in Insert(s, ss) <==> x == s || x in ss
  {
    if ss != [] && ss[0].rank <= s.rank { InsertKeeps(s, ss[1..]); }
  }

  predicate Ascending(ss: seq<Suspect>) {
    forall i, j | 0 <= i < j < |ss| :: ss[i].rank <= ss[j].rank
  }

  lemma {:induction false} InsertAscends(s: Suspect, ss: seq<Suspect>)
    requires Ascending(ss)
    ensures Ascending(Insert(s, ss))
  {
    if ss != [] && ss[0].rank <= s.rank {
      InsertAscends(s, ss[1..]);
      InsertKeeps(s, ss[1..]);
      var rest := Insert(s, ss[1..]);
      forall j | 0 <= j < |rest| ensures ss[0].rank <= rest[j].rank { assert rest[j] in rest; }
    }
  }

  lemma {:induction false} SortedKeeps(ss: seq<Suspect>)
    ensures Ascending(Sorted(ss)) && forall x :: x in Sorted(ss) <==> x in ss
  {
    hide Insert, Ascending;
    if ss == [] {
      assert Ascending([]) by { NothingAscends(); }
    } else {
      var n := |ss| - 1;
      SortedKeeps(ss[..n]);
      InsertAscends(ss[n], Sorted(ss[..n]));
      InsertKeeps(ss[n], Sorted(ss[..n]));
      assert forall x :: x in ss <==> x in ss[..n] || x == ss[n];
    }
  }

  lemma NothingAscends()
    ensures Ascending([])
  {
  }

  predicate AllDifferent(ss: seq<Suspect>) {
    forall i, j | 0 <= i < j < |ss| :: !SameIdent(ss[i], ss[j])
  }

  lemma {:induction false} DistinctFrom(ss: seq<Suspect>, x: Suspect)
    requires x in Distinct(ss)
    ensures x in ss
  {
    hide Known;
    var n := |ss| - 1;
    if x in Distinct(ss[..n]) { DistinctFrom(ss[..n], x); }
  }

  lemma {:induction false} DistinctDiffer(ss: seq<Suspect>)
    ensures AllDifferent(Distinct(ss))
  {
    if ss != [] {
      var d, last := Distinct(ss[..|ss| - 1]), ss[|ss| - 1];
      DistinctDiffer(ss[..|ss| - 1]);
      if !Known(d, last) {
        forall i | 0 <= i < |d| ensures !SameIdent(d[i], last) { assert d[i] in d; }
      }
    }
  }

  lemma {:induction false} DistinctAscends(ss: seq<Suspect>)
    requires Ascending(ss)
    ensures Ascending(Distinct(ss))
  {
    hide Known;
    if ss != [] {
      var n := |ss| - 1;
      DistinctAscends(ss[..n]);
      var d := Distinct(ss[..n]);
      forall i | 0 <= i < |d| ensures d[i].rank <= ss[n].rank {
        DistinctFrom(ss[..n], d[i]);
        var k :| 0 <= k < |ss[..n]| && ss[..n][k] == d[i];
        assert ss[k] == d[i];
      }
    }
  }

  lemma {:induction false} DistinctComplete(ss: seq<Suspect>, x: Suspect)
    requires x in ss
    ensures Known(Distinct(ss), x)
  {
    hide SameIdent;
    var n := |ss| - 1;
    var d := Distinct(ss[..n]);
    if x in ss[..n] {
      DistinctComplete(ss[..n], x);
      var y :| y in d && SameIdent(y, x);
      assert y in Distinct(ss);
    } else if !Known(d, ss[n]) {
      SameSelf(x);
      assert x in Distinct(ss);
    }
  }

  lemma SameSelf(x: Suspect)
    ensures SameIdent(x, x)
  {
  }

  lemma {:induction false} RenumberedKeeps(ss: seq<Suspect>)
    ensures var r := Renumbered(ss);
            forall i | 0 <= i < |ss| :: r[i] == ss[i].(rank := i + 1)
  {
    if ss != [] { RenumberedKeeps(ss[..|ss| - 1]); }
  }

  /** A renumbered list differs from its original in the numbers only. */
  predicate Numbers(r: seq<Suspect>, d: seq<Suspect>) {
    |r| == |d| && forall i | 0 <= i < |r| :: r[i] == d[i].(rank := i + 1)
  }

  lemma NumbersDiffer(r: seq<Suspect>, d: seq<Suspect>)
    requires Numbers(r, d) && AllDifferent(d)
    ensures AllDifferent(r)
  {
    forall i, j | 0 <= i < j < |r| ensures !SameIdent(r[i], r[j]) { assert !SameIdent(d[i], d[j]); }
  }

  lemma NumbersKnow(r: seq<Suspect>, d: seq<Suspect>, x: Suspect)
    requires Numbers(r, d)
    ensures Known(r, x) <==> Known(d, x)
  {
    if Known(d, x) {
      var y :| y in d && SameIdent(y, x);
      var i :| 0 <= i < |d| && d[i] == y;
      assert r[i] in r && SameIdent(r[i], x);
    }
    if Known(r, x) {
      var y :| y in r && SameIdent(y, x);
      var i :| 0 <= i < |r| && r[i] == y;
      assert d[i] in d && SameIdent(d[i], x);
    }
  }

  /** The list an operator reads: numbered 1 to N, each (protocol, cause) once,
      in the order of the original ranks, all of it found and nothing left
      out. */
  lemma RankedList(ss: seq<Suspect>)
    ensures var r, d := Ranked(ss), Distinct(Sorted(ss));
            && Numbers(r, d) && AllDifferent(r) && Ascending(d)
            && (forall x | x in d :: x in ss)
            && (forall x | x in ss :: Known(r, x))
  {
    hide Sorted, Distinct, Renumbered, Numbers, AllDifferent, Ascending, Known;
    SortedKeeps(ss);
    var d, r := Distinct(Sorted(ss)), Ranked(ss);
    DistinctDiffer(Sorted(ss));
    DistinctAscends(Sorted(ss));
    assert Numbers(r, d) by { RenumberedKeeps(d); IsNumbers(d); }
    NumbersDiffer(r, d);
    forall x | x in d ensures x in ss { DistinctFrom(Sorted(ss), x); }
    forall x | x in ss ensures Known(r, x) {
      DistinctComplete(Sorted(ss), x);
      NumbersKnow(r, d, x);
    }
  }

  lemma IsNumbers(d: seq<Suspect>)
    ensures Numbers(Renumbered(d), d)
  {
    hide Renumbered;
    RenumberedKeeps(d);
  }

  predicate Named(ss: seq<Suspect>, t: Proto) {
    exists s | s in ss :: Names(s, t)
  }

  /** Ranking names whatever was named before it. */
  lemma RankingNames(ss: seq<Suspect>, t: Proto)
    ensures Named(Ranked(ss), t) <==> Named(ss, t)
  {
    hide Ranked, Sorted, Distinct, AllDifferent, Ascending, Numbers, Known, Names;
    RankedList(ss);
    var r, d := Ranked(ss), Distinct(Sorted(ss));
    if Named(ss, t) {
      var s :| s in ss && Names(s, t);
      KnownNames(r, s, t);
    }
    if Named(r, t) {
      var s :| s in r && Names(s, t);
      NumberedNames(r, d, s, t);
    }
  }

  lemma KnownNames(ss: seq<Suspect>, s: Suspect, t: Proto)
    requires Known(ss, s) && Names(s, t)
    ensures Named(ss, t)
  {
    var x :| x in ss && SameIdent(x, s);
    assert Names(x, t);
  }

  lemma NumberedNames(r: seq<Suspect>, d: seq<Suspect>, s: Suspect, t: Proto)
    requires Numbers(r, d) && s in r && Names(s, t)
    ensures exists x :: x in d && Names(x, t)
  {
    var i :| 0 <= i < |r| && r[i] == s;
    assert d[i] in d && Names(d[i], t);
  }

  lemma NamedConcat(a: seq<Suspect>, b: seq<Suspect>, t: Proto)
    ensures Named(a + b, t) <==> Named(a, t) || Named(b, t)
  {
    hide Names;
    if Named(a, t) { var s :| s in a && Names(s, t); assert s in a + b; }
    if Named(b, t) { var s :| s in b && Names(s, t); assert s in a + b; }
  }

  lemma WhenNames(c: bool, s: Suspect, t: Proto)
    ensures Named(When(c, s), t) <==> c && Names(s, t)
  {
    hide Names;
    if c { assert When(c, s) == [s] && s in [s]; }
  }

  lemma AimedNames(ss: seq<Suspect>, t: Proto)
    ensures Aimed(ss, t) ==> Named(ss, t)
  {
    if Aimed(ss, t) {
      var s :| s in ss && s.target == Of(t);
      assert Names(s, t);
    }
  }

  lemma RealityNamed(l: Layers, sofar: seq<Suspect>)
    requires StateOf(l, Reality) == Down
    ensures Named(sofar + RealitySuspects(l, sofar), Reality)
  {
    hide StateOf, CertTooLong, DriftSuspects, FlowMissing, Named, Aimed;
    var u := l.a.audit;
    var found := When(!FlowMissing(u) && (u.rc == Some(2) || u.rc == None), Suspect(12, Of(Reality), AuditNotRun))
                 + CertTooLong(l.c) + DriftSuspects(l.c, Reality);
    var last := When(!Aimed(sofar + found, Reality), Suspect(40, Of(Reality), InboundItself));
    AimedNames(sofar + found, Reality);
    WhenNames(!Aimed(sofar + found, Reality), Suspect(40, Of(Reality), InboundItself), Reality);
    NamedConcat(sofar + found, last, Reality);
    assert sofar + found + last == sofar + (found + last);
  }

  lemma StlsNamed(l: Layers, sofar: seq<Suspect>)
    requires StateOf(l, Stls) == Down
    ensures Named(sofar + StlsSuspects(l, sofar), Stls)
  {
    hide StateOf, DriftSuspects, Named, Aimed;
    var found := When(l.b.ok && l.b.shadowTls != "active", Suspect(5, Of(Stls), ShadowTlsDown(l.b.shadowTls)))
                 + DriftSuspects(l.c, Stls);
    var last := When(!Aimed(sofar + found, Stls), Suspect(40, Of(Stls), InboundItself));
    AimedNames(sofar + found, Stls);
    WhenNames(!Aimed(sofar + found, Stls), Suspect(40, Of(Stls), InboundItself), Stls);
    NamedConcat(sofar + found, last, Stls);
    assert sofar + found + last == sofar + (found + last);
  }

  lemma DriftNamed(c: LayerC, t: Proto)
    requires Drifts(c, t)
    ensures Named(DriftSuspects(c, t), t)
  {
    hide RuntimeOf;
    var ss := DriftSuspects(c, t);
    assert ss[0] in ss && Names(ss[0], t);
  }

  lemma WsNamed(l: Layers)
    requires StateOf(l, Ws) == Down
    ensures Named(WsSuspects(l), Ws)
  {
    hide StateOf, Drifts, DriftSuspects, Named;
    if Drifts(l.c, Ws) {
      DriftNamed(l.c, Ws);
    } else {
      WhenNames(true, Suspect(40, Of(Ws), InboundItself), Ws);
    }
  }

  lemma HysteriaAimed(l: Layers, t: Proto)
    ensures HysteriaFound(l, t) != [] ==> Named(HysteriaFound(l, t), t)
  {
    hide EntryDnatFor, ExitHopFor, NatKnown, UnitStatus;
    var ss := HysteriaFound(l, t);
    if ss != [] { assert ss[0] in ss && Names(ss[0], t); }
  }

  lemma HysteriaNamed(l: Layers, t: Proto)
    requires StateOf(l, t) == Down
    ensures Named(HysteriaSuspects(l, t), t)
  {
    hide StateOf, HysteriaFound, Named;
    HysteriaAimed(l, t);
    var found := HysteriaFound(l, t);
    var last := Suspect(40, Of(t), DaemonItself);
    WhenNames(found == [], last, t);
    NamedConcat(found, When(found == [], last), t);
  }

  lemma {:induction false} DegradedNamed(l: Layers, ts: seq<Proto>, t: Proto)
    requires t in ts
    ensures Named(DegradedSuspect(l, t), t) ==> Named(DegradedSuspects(l, ts), t)
  {
    hide DegradedSuspect, Named;
    NamedConcat(DegradedSuspect(l, ts[0]), DegradedSuspects(l, ts[1..]), t);
    if t != ts[0] { DegradedNamed(l, ts[1..], t); }
  }

  /** The parts of a list of suspects that name a protocol. */
  lemma EachNames(l: Layers, t: Proto)
    ensures Named(EachSuspects(l), t) <==>
              var s1 := AuditSuspects(l.a.audit);
              var s2 := s1 + RealitySuspects(l, s1);
              || Named(s1, t) || Named(RealitySuspects(l, s1), t) || Named(StlsSuspects(l, s2), t)
              || Named(WsSuspects(l), t) || Named(HysteriaSuspects(l, Hy2), t) || Named(HysteriaSuspects(l, Hy2t), t)
              || Named(DegradedSuspects(l, ProbedTags(l.a)), t)
  {
    hide Named, AuditSuspects, RealitySuspects, StlsSuspects, WsSuspects, HysteriaSuspects, DegradedSuspects, ProbedTags;
    var s1 := AuditSuspects(l.a.audit);
    var s2 := s1 + RealitySuspects(l, s1);
    var s3 := s2 + StlsSuspects(l, s2);
    NamedConcat(s1, RealitySuspects(l, s1), t);
    NamedConcat(s2, StlsSuspects(l, s2), t);
    NamedConcat(s3, WsSuspects(l), t);
    NamedConcat(s3 + WsSuspects(l), HysteriaSuspects(l, Hy2), t);
    NamedConcat(s3 + WsSuspects(l) + HysteriaSuspects(l, Hy2), HysteriaSuspects(l, Hy2t), t);
    NamedConcat(s3 + WsSuspects(l) + HysteriaSuspects(l, Hy2) + HysteriaSuspects(l, Hy2t), DegradedSuspects(l, ProbedTags(l.a)), t);
  }

  lemma FoundNames(l: Layers, t: Proto)
    ensures Named(Found(l), t) <==>
              PipelineStale(l.a) || AllDark(l) || Named(EachSuspects(l), t) || !l.a.ok || !l.b.ok || !l.c.ok
  {
    hide Named, PipelineStale, AllDark, EachSuspects;
    var mid := if AllDark(l) then [DarkSuspect(l)] else EachSuspects(l);
    var head := When(PipelineStale(l.a), Suspect(1, Every, PipelineDead));
    NamedConcat(head + mid, BlindLayers(l), t);
    NamedConcat(head, mid, t);
    WhenNames(PipelineStale(l.a), Suspect(1, Every, PipelineDead), t);
    WhenNames(true, DarkSuspect(l), t);
    var a, b, c := Suspect(2, Every, NoLayerA), Suspect(50, Every, NoLayerB), Suspect(50, Every, NoLayerC);
    WhenNames(!l.a.ok, a, t);
    WhenNames(!l.b.ok, b, t);
    WhenNames(!l.c.ok, c, t);
    NamedConcat(When(!l.a.ok, a), When(!l.b.ok, b), t);
    NamedConcat(When(!l.a.ok, a) + When(!l.b.ok, b), When(!l.c.ok, c), t);
  }

  /** Every protocol that is down has a suspect: its own, or one that names
      them all. */
  lemma DownIsNamed(l: Layers, t: Proto)
    requires StateOf(l, t) == Down
    ensures Named(Assess(l).suspects, t)
  {
    hide Named, StateOf, Found, EachSuspects, RealitySuspects, StlsSuspects, WsSuspects, HysteriaSuspects, DegradedSuspects, AuditSuspects, Ranked, ExitCodeFor;
    RankingNames(Found(l), t);
    FoundNames(l, t);
    EachNames(l, t);
    var s1 := AuditSuspects(l.a.audit);
    var s2 := s1 + RealitySuspects(l, s1);
    match t
    case Reality => RealityNamed(l, s1); NamedConcat(s1, RealitySuspects(l, s1), t);
    case Stls => StlsNamed(l, s2); NamedConcat(s2, StlsSuspects(l, s2), t); NamedConcat(s1, RealitySuspects(l, s1), t);
    case Ws => WsNamed(l);
    case Hy2 => HysteriaNamed(l, t);
    case Hy2t => HysteriaNamed(l, t);
  }

  // ---- degraded protocols -----------------------------------------------------------------------------

  lemma OnlyOwn(l: Layers, t: Proto, sofar: seq<Suspect>)
    requires StateOf(l, t) == Degraded
    ensures !Named(RealitySuspects(l, sofar), t) && !Named(StlsSuspects(l, sofar), t) && !Named(WsSuspects(l), t)
    ensures t != Hy2 ==> !Named(HysteriaSuspects(l, Hy2), t)
    ensures t != Hy2t ==> !Named(HysteriaSuspects(l, Hy2t), t)
  {
    hide StateOf, CertTooLong, DriftSuspects, FlowMissing, Aimed, HysteriaFound, Drifts;
    AimOf(l, t);
  }

  lemma AimOf(l: Layers, t: Proto)
    ensures forall s, p | s in DriftSuspects(l.c, p) :: s.target == Of(p)
    ensures forall s | s in CertTooLong(l.c) :: s.target == Of(Reality)
    ensures forall s, p | s in HysteriaFound(l, p) :: s.target == Of(p)
  {
    hide RuntimeOf, EntryDnatFor, ExitHopFor, NatKnown, UnitStatus;
  }

  lemma {:induction false} DegradedOwn(l: Layers, ts: seq<Proto>, t: Proto)
    ensures Named(DegradedSuspects(l, ts), t) <==> t in ts && Named(DegradedSuspect(l, t), t)
  {
    hide VerdictOf;
    if ts != [] {
      DegradedOwn(l, ts[1..], t);
      NamedConcat(DegradedSuspect(l, ts[0]), DegradedSuspects(l, ts[1..]), t);
    }
  }

  lemma DegradedOne(l: Layers, t: Proto)
    ensures Named(DegradedSuspect(l, t), t)
            <==> StateOf(l, t) == Degraded && VerdictOf(l, t).reason != AuditBroke && VerdictOf(l, t).reason != LayerBelow
  {
    hide VerdictOf;
    var ss := DegradedSuspect(l, t);
    if ss != [] { assert ss[0] in ss && Names(ss[0], t); }
  }

  lemma AuditNames(u: Audit, t: Proto)
    ensures Named(AuditSuspects(u), t)
            <==> u.rc == Some(1) && ((!FlowMissing(u) && !PasswordMissing(u))
                                     || (t == Reality && FlowMissing(u)) || (t == Stls && PasswordMissing(u)))
  {
    hide Named, When;
    var a, b, c := Suspect(1, Of(Reality), FlowWipe), Suspect(8, Of(Stls), PasswordWipe), Suspect(12, Every, AuditBroken(u.named));
    var x, y, z := FlowMissing(u), PasswordMissing(u), u.rc == Some(1) && !FlowMissing(u) && !PasswordMissing(u);
    WhenNames(x, a, t);
    WhenNames(y, b, t);
    WhenNames(z, c, t);
    NamedConcat(When(x, a), When(y, b), t);
    NamedConcat(When(x, a) + When(y, b), When(z, c), t);
  }

  /** A missing hop rule or entry rule is always a suspect. */
  lemma HopsNamed(l: Layers)
    requires StateOf(l, Hy2t) == Degraded && l.c.ok && CState(l) == Degraded
    ensures Named(HysteriaSuspects(l, Hy2t), Hy2t)
  {
    hide StateOf, VerdictOf, Named;
    var found := HysteriaFound(l, Hy2t);
    assert ENTRY_HOPS in EntryDnatFor(Hy2t) && ENTRY_HOPS in ExitHopFor(Hy2t);
    if l.b.ok && ENTRY_HOPS !in l.b.dnat {
      assert ENTRY_HOPS in EntryDnatFor(Hy2t) - l.b.dnat;
    } else {
      assert ExitHopFor(Hy2t) == {ENTRY_HOPS};
      assert ENTRY_HOPS in ExitHopFor(Hy2t) - l.c.hops;
    }
    assert found != [];
    HysteriaAimed(l, Hy2t);
    NamedConcat(found, When(found == [] && StateOf(l, Hy2t) == Down, Suspect(40, Of(Hy2t), DaemonItself)), Hy2t);
  }

  /** hy2t degraded: a reason among the probes, or a rule found missing. */
  lemma TurboDegraded(l: Layers)
    requires StateOf(l, Hy2t) == Degraded
    ensures (l.c.ok && CState(l) == Degraded)
            || (Hy2t in ProbedTags(l.a) && VerdictOf(l, Hy2t).reason != AuditBroke && VerdictOf(l, Hy2t).reason != LayerBelow)
  {
    hide CState, ProbedTags, LatestRun, AnyAlive;
  }

  lemma AuditReason(l: Layers, t: Proto)
    requires StateOf(l, t) == Degraded && VerdictOf(l, t).reason == AuditBroke
    ensures t != Hy2t && l.a.ok && t in BrokenBy(l.a.audit) && l.a.audit.rc == Some(1) && (t == Reality || t == Ws || t == Stls)
  {
    hide CState, ProbedTags, LatestRun, AnyAlive;
  }

  lemma ReasonOfProbed(l: Layers, t: Proto)
    requires t != Hy2t
    ensures VerdictOf(l, t).reason != LayerBelow && t in ProbedTags(l.a)
  {
    hide LatestRun, AnyAlive;
    ProbedListed(l.a, t);
  }

  lemma ProbedListed(a: LayerA, t: Proto)
    ensures t != Hy2t ==> t in ProbedTags(a)
  {
    hide RowsOf;
    assert PROBED[0] == Reality && PROBED[1] == Hy2 && PROBED[2] == Ws && PROBED[3] == Stls;
    match t
    case Reality => assert ProbedTags(a)[0] == t;
    case Hy2 => assert ProbedTags(a)[1] == t;
    case Ws => assert ProbedTags(a)[2] == t;
    case Stls => assert ProbedTags(a)[3] == t;
    case Hy2t =>
  }

  /** A degraded protocol is named too, with one exception: an inbound that
      only the audit calls broken goes unnamed when the audit's wiped fields
      are another inbound's and every layer answered. */
  lemma DegradedIsNamed(l: Layers, t: Proto)
    requires StateOf(l, t) == Degraded
    ensures Named(Assess(l).suspects, t) <==>
              var u := l.a.audit;
              !(&& VerdictOf(l, t).reason == AuditBroke && l.b.ok && l.c.ok
                && (FlowMissing(u) || PasswordMissing(u))
                && !(t == Reality && FlowMissing(u)) && !(t == Stls && PasswordMissing(u)))
  {
    hide Named, StateOf, VerdictOf, Found, EachSuspects, RealitySuspects, StlsSuspects, WsSuspects, HysteriaSuspects, DegradedSuspect,
         DegradedSuspects, AuditSuspects, Ranked, ExitCodeFor, ProbedTags, CState, BrokenBy, FlowMissing, PasswordMissing, PipelineStale;
    var u := l.a.audit;
    var s1 := AuditSuspects(u);
    RankingNames(Found(l), t);
    FoundNames(l, t);
    EachNames(l, t);
    AuditNames(u, t);
    DegradedOwn(l, ProbedTags(l.a), t);
    DegradedOne(l, t);
    OnlyOwn(l, t, s1);
    OnlyOwn(l, t, s1 + RealitySuspects(l, s1));
    if t == Hy2t {
      TurboDegraded(l);
      if l.c.ok && CState(l) == Degraded { HopsNamed(l); }
      if VerdictOf(l, t).reason == AuditBroke { AuditReason(l, t); }
    } else {
      ReasonOfProbed(l, t);
      if VerdictOf(l, t).reason == AuditBroke {
        AuditReason(l, t);
        NotAllDark(l, t);
        FreshWhenDegraded(l, t);
      }
    }
  }

  /** An audit that finds reality without its flow and complains of stls for
      another reason; probes are green and every layer answered. */
  function CrossedLayers(): Layers {
    Layers(LayerA(true, Some(1.0), map[Stls := [Row(Some(1.0), true, true)]], Audit(Some(1), true, false, {Reality, Stls})),
           LayerB(true, {}, "active", "running"),
           LayerC(true, "active", "active", true, {}, map[], map[], None))
  }

  /** There the suspect is reality's wiped flow, and stls, degraded, has none. */
  lemma WipeHidesAnother()
    ensures var l := CrossedLayers();
            StateOf(l, Stls) == Degraded && !Named(Assess(l).suspects, Stls)
  {
    var l := CrossedLayers();
    assert RowsOf(l.a, Stls) == [Row(Some(1.0), true, true)];
    assert RowsOf(l.a, Stls)[0] in RowsOf(l.a, Stls) && Oks(RowsOf(l.a, Stls)) == 1;
    assert |LatestRun(RowsOf(l.a, Stls))| <= 1;
    assert VerdictOf(l, Stls) == Verdict(Degraded, AuditBroke);
    hide Assess, Named, VerdictOf;
    DegradedIsNamed(l, Stls);
  }

  lemma NotAllDark(l: Layers, t: Proto)
    requires t in ProbedTags(l.a) && StateOf(l, t) == Degraded
    ensures !AllDark(l)
  {
    hide StateOf, ProbedTags;
  }

  lemma FreshWhenDegraded(l: Layers, t: Proto)
    requires t != Hy2t && StateOf(l, t) == Degraded
    ensures !PipelineStale(l.a) && l.a.ok
  {
    hide ProbeVerdict, Stale, BrokenBy;
  }
}
