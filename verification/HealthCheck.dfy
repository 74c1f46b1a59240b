/** assess as it is written (scripts/protocol_healthcheck.py): verdicts are
    entered and worsened in a dictionary, suspects are appended to a list that
    is then sorted, thinned and renumbered. */
module HealthCheck {
  import opened Wrappers
  import opened Health
  import W = HealthLaws

  /** The liveness and ok counters of a list of rows. */
  method CountRows(rows: seq<Row>) returns (oks: nat, alive: bool)
    ensures oks == Oks(rows) && (alive <==> AnyAlive(rows))
  {
    hide Alive;
    oks, alive := 0, false;
    assert rows[0..] == rows;
    for i := 0 to |rows|
      invariant oks + Oks(rows[i..]) == Oks(rows)
      invariant alive <==> exists k :: 0 <= k < i && Alive(rows[k])
    {
      assert rows[i..][0] == rows[i] && rows[i..][1..] == rows[i + 1..];
      var lives := Alive(rows[i]);
      if rows[i].ok {
        oks := oks + 1;
      }
      alive := alive || lives;
    }
  }

  /** The newest run: rows are taken until one is too old. */
  method NewestRun(rows: seq<Row>) returns (latest: seq<Row>)
    ensures latest == LatestRun(rows)
  {
    if rows == [] || rows[0].age == None {
      return [];
    }
    var head := rows[0].age.value;
    latest := [];
    var i := 0;
    assert rows[0..] == rows;
    while i < |rows| && rows[i].age.Some? && rows[i].age.value - head <= RUN_SPAN_MIN
      invariant i <= |rows|
      invariant latest + Within(rows[i..], head) == Within(rows, head)
    {
      assert rows[i..][0] == rows[i] && rows[i..][1..] == rows[i + 1..];
      latest := latest + [rows[i]];
      i := i + 1;
    }
  }

  method JudgeRows(rows: seq<Row>) returns (v: Verdict)
    ensures v == ProbeVerdict(rows)
  {
    hide LatestRun, AnyAlive;
    if rows == [] || Stale(rows[0].age) {
      return Verdict(Unknown, NoReason);
    }
    var oks, alive := CountRows(rows);
    if !alive {
      return Verdict(Down, NoReason);
    }
    var latest := NewestRun(rows);
    var latestOks, _ := CountRows(latest);
    if 20 * oks < 7 * |rows| {
      return Verdict(Degraded, ProbeRate);
    }
    if |latest| >= PROBE_DOMAINS && latestOks == 0 {
      return Verdict(Degraded, DarkRun);
    }
    v := Verdict(Ok, NoReason);
  }

  lemma {:induction false} DistinctLast(ss: seq<Suspect>, i: nat)
    requires i < |ss|
    ensures Distinct(ss[..i + 1]) == if Known(Distinct(ss[..i]), ss[i]) then Distinct(ss[..i]) else Distinct(ss[..i]) + [ss[i]]
  {
    hide Known;
    assert ss[..i + 1][..i] == ss[..i] && ss[..i + 1][i] == ss[i];
  }

  class Assessment {
    var protocols: map<Proto, Verdict>
    var suspects: seq<Suspect>

    constructor ()
      ensures protocols == map[] && suspects == []
    {
      protocols, suspects := map[], [];
    }

    /** Every probed protocol gets the verdict of its rows. */
    method EnterProbes(a: LayerA)
      modifies this`protocols
      ensures protocols.Keys == set t | t in ProbedTags(a)
      ensures forall t | t in protocols :: protocols[t] == FromProbes(a, t)
    {
      hide ProbeVerdict, PipelineStale;
      protocols := map[];
      var probed := ProbedTags(a);
      for i := 0 to |probed|
        invariant protocols.Keys == set t | t in probed[..i]
        invariant forall t | t in protocols :: protocols[t] == FromProbes(a, t)
      {
        var t := probed[i];
        var v := Verdict(Unknown, NoReason);
        if a.ok && !PipelineStale(a) {
          v := JudgeRows(RowsOf(a, t));
        }
        assert forall x :: x in probed[..i + 1] <==> x in probed[..i] || x == t;
        protocols := protocols[t := v];
      }
    }

    /** A broken audit takes the OK away. */
    method EnterAudit(a: LayerA)
      modifies this`protocols
      ensures protocols.Keys == old(protocols).Keys
      ensures forall t | t in protocols :: protocols[t] == Audited(a, t, old(protocols)[t])
    {
      hide BrokenBy;
      if a.ok {
        var left := BrokenBy(a.audit);
        while left != {}
          invariant left <= BrokenBy(a.audit)
          invariant protocols.Keys == old(protocols).Keys
          invariant forall t | t in protocols :: protocols[t] == if t in left then old(protocols)[t] else Audited(a, t, old(protocols)[t])
        {
          var t :| t in left;
          left := left - {t};
          if t in protocols && protocols[t].state == Ok {
            protocols := protocols[t := Verdict(Degraded, AuditBroke)];
          }
        }
      }
    }

    /** hy2t: its own verdict without probes, a floor with them. */
    method EnterTurbo(l: Layers)
      requires Hy2t in protocols <==> Hy2t in ProbedTags(l.a)
      requires Hy2t in protocols ==> protocols[Hy2t] == FromProbes(l.a, Hy2t)
      modifies this`protocols
      ensures protocols == old(protocols)[Hy2t := TurboVerdict(l)]
    {
      hide CState, FromProbes;
      var probed := Hy2t in protocols;
      var v := if probed then protocols[Hy2t] else Verdict(Unknown, NoReason);
      if l.c.ok {
        var floor := CState(l);
        if !probed {
          v := Verdict(floor, NoReason);
        } else if (floor == Down || floor == Degraded) && Order(floor) > Order(v.state) {
          v := Verdict(floor, if floor == Degraded then LayerBelow else v.reason);
        }
      }
      protocols := protocols[Hy2t := v];
    }

    /** Sort by rank, keep the first of each (protocol, cause), renumber. */
    method Rank()
      modifies this`suspects
      ensures suspects == Ranked(old(suspects))
    {
      hide Sorted, Known;
      suspects := Sorted(suspects);
      ghost var sorted := suspects;
      var unique: seq<Suspect> := [];
      for i := 0 to |suspects|
        invariant suspects == sorted
        invariant unique == Distinct(sorted[..i])
      {
        DistinctLast(sorted, i);
        var known := false;
        for k := 0 to |unique|
          invariant known <==> exists j :: 0 <= j < k && SameIdent(unique[j], suspects[i])
        {
          known := known || SameIdent(unique[k], suspects[i]);
        }
        assert known <==> Known(unique, suspects[i]) by { KnownIs(unique, suspects[i]); }
        if !known {
          unique := unique + [suspects[i]];
        }
      }
      assert sorted[..|sorted|] == sorted;
      suspects := unique;
      for i := 0 to |suspects|
        invariant |suspects| == |unique|
        invariant forall k | 0 <= k < |unique| :: suspects[k] == if k < i then unique[k].(rank := k + 1) else unique[k]
      {
        suspects := suspects[i := suspects[i].(rank := i + 1)];
      }
      W.RenumberedKeeps(unique);
      assert suspects == Renumbered(unique);
    }

    /** The whole assessment. */
    method Run(l: Layers) returns (exitCode: int)
      modifies this
      ensures var r := Assess(l);
              && protocols == r.states && suspects == r.suspects && exitCode == r.exitCode
    {
      hide FromProbes, TurboVerdict, Found, Ranked, BrokenBy, ExitCodeFor, ProbedTags;
      EnterProbes(l.a);
      EnterAudit(l.a);
      assert Hy2t in protocols ==> protocols[Hy2t] == FromProbes(l.a, Hy2t) by { W.NotBroken(l.a.audit); }
      EnterTurbo(l);
      forall t: Proto ensures t in protocols && protocols[t] == VerdictOf(l, t) && t in PROTOCOLS {
        W.ProbedListed(l.a, t);
        W.Listed(t);
      }
      assert protocols == Assess(l).states;
      suspects := Found(l);
      Rank();
      exitCode := Code(l);
    }

    /** 1 for a definite failure anywhere, 0 only when all is well. */
    method Code(l: Layers) returns (code: int)
      requires forall t | t in PROTOCOLS :: t in protocols && protocols[t] == VerdictOf(l, t)
      ensures code == ExitCodeFor(t => StateOf(l, t))
    {
      hide VerdictOf;
      var failed, well := false, true;
      for i := 0 to |PROTOCOLS|
        invariant failed <==> exists k :: 0 <= k < i && StateOf(l, PROTOCOLS[k]) in [Down, Degraded]
        invariant well <==> forall k | 0 <= k < i :: StateOf(l, PROTOCOLS[k]) == Ok
      {
        assert PROTOCOLS[i] in PROTOCOLS;
        var state := protocols[PROTOCOLS[i]].state;
        failed := failed || state == Down || state == Degraded;
        well := well && state == Ok;
      }
      assert failed <==> exists t | t in PROTOCOLS :: StateOf(l, t) in [Down, Degraded];
      assert well <==> forall t | t in PROTOCOLS :: StateOf(l, t) == Ok;
      code := if failed then 1 else if well then 0 else 2;
    }
  }

  lemma KnownIs(ss: seq<Suspect>, s: Suspect)
    ensures Known(ss, s) <==> exists j :: 0 <= j < |ss| && SameIdent(ss[j], s)
  {
    hide SameIdent;
    if Known(ss, s) {
      var x :| x in ss && SameIdent(x, s);
      var j :| 0 <= j < |ss| && ss[j] == x;
    }
  }
}
