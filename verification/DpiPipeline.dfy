/** Both halves over time: every log line consumed is stored exactly once. */
module DpiPipeline {
  import opened Wrappers
  import opened DpiParse
  import opened DpiReader
  import R = DpiRows

  ghost predicate GoodGrammar(g: Grammar) {
    && (forall s :: g.access(s).Accepted? ==> g.access(s).tag != "")
    && (forall s :: g.rejects(s).Rejected? ==> g.rejects(s).kind != "")
  }

  // ---- cutting and counting distribute over batches --------------------------------------

  lemma SplitStep(s: Bytes)
    requires s != []
    ensures var rest := Split(s[1..]);
            Split(s) == if s[0] == NEWLINE then [[]] + rest
                        else if rest == [] then [[s[0]]]
                        else [[s[0]] + rest[0]] + rest[1..]
  {
  }

  lemma {:induction false} SplitConcat(a: Bytes, b: Bytes)
    requires EndsLine(a)
    ensures Split(a + b) == Split(a) + Split(b)
  {
    hide Split, EndsLine;
    if a == [] {
      assert a + b == b;
      assert Split([]) == [] && [] + Split(b) == Split(b) by { NothingSplit(); }
    } else {
      assert (a + b)[1..] == a[1..] + b && (a + b)[0] == a[0];
      assert EndsLine(a[1..]) && (a[0] != NEWLINE ==> a[1..] != []) by { RestEnds(a); }
      SplitConcat(a[1..], b);
      SplitStep(a);
      SplitStep(a + b);
      var rest, more := Split(a[1..]), Split(b);
      if a[0] == NEWLINE {
        assert [[]] + (rest + more) == [[]] + rest + more;
      } else {
        LineThere(a[1..]);
        assert (rest + more)[0] == rest[0] && (rest + more)[1..] == rest[1..] + more;
      }
    }
  }

  lemma RestEnds(a: Bytes)
    requires EndsLine(a) && a != []
    ensures EndsLine(a[1..]) && (a[0] != NEWLINE ==> a[1..] != [])
  {
  }

  lemma NothingSplit()
    ensures Split([]) == []
  {
  }

  lemma LineThere(a: Bytes)
    ensures a != [] ==> Split(a) != []
  {
  }

  lemma {:induction false} AccessConcat(g: Grammar, a: seq<Bytes>, b: seq<Bytes>)
    ensures AccessLines(g, a + b) == AccessLines(g, a) + AccessLines(g, b)
  {
    if a == [] {
      assert a + b == b;
    } else {
      assert (a + b)[1..] == a[1..] + b;
      AccessConcat(g, a[1..], b);
    }
  }

  lemma {:induction false} RejectConcat(g: Grammar, a: seq<Bytes>, b: seq<Bytes>)
    ensures RejectLines(g, a + b) == RejectLines(g, a) + RejectLines(g, b)
  {
    if a == [] {
      assert a + b == b;
    } else {
      assert (a + b)[1..] == a[1..] + b;
      RejectConcat(g, a[1..], b);
    }
  }

  lemma {:induction false} AccessEventsConcat(a: seq<AccessLine>, b: seq<AccessLine>)
    ensures AccessEvents(a + b) == AccessEvents(a) + AccessEvents(b)
  {
    hide DpiParse.Counted;
    if b == [] {
      assert a + b == a && AccessEvents(a) + [] == AccessEvents(a);
    } else {
      var n := |b| - 1;
      assert (a + b)[..|a + b| - 1] == a + b[..n] && (a + b)[|a + b| - 1] == b[n];
      AccessEventsConcat(a, b[..n]);
    }
  }

  lemma {:induction false} RejectEventsConcat(a: seq<RejectLine>, b: seq<RejectLine>)
    ensures RejectEvents(a + b) == RejectEvents(a) + RejectEvents(b)
  {
    if b == [] {
      assert a + b == a && RejectEvents(a) + [] == RejectEvents(a);
    } else {
      var n := |b| - 1;
      assert (a + b)[..|a + b| - 1] == a + b[..n] && (a + b)[|a + b| - 1] == b[n];
      RejectEventsConcat(a, b[..n]);
    }
  }

  lemma {:induction false} AmongConcat<K>(a: seq<DpiParse.Event<K>>, b: seq<DpiParse.Event<K>>, p: K -> bool)
    ensures Among(a + b, p) == Among(a, p) + Among(b, p)
  {
    if b == [] {
      assert a + b == a;
    } else {
      var n := |b| - 1;
      assert (a + b)[..|a + b| - 1] == a + b[..n] && (a + b)[|a + b| - 1] == b[n];
      AmongConcat(a, b[..n], p);
    }
  }

  /** What the whole lines of two byte strings weigh. */
  function BytesWeigh(g: Grammar, access: Bytes, errors: Bytes, m: R.Measure): int {
    R.LinesWeigh(AccessLines(g, Split(access)), RejectLines(g, Split(errors)), m)
  }

  lemma BytesWeighConcat(g: Grammar, a: Bytes, a': Bytes, e: Bytes, e': Bytes, m: R.Measure)
    requires EndsLine(a) && EndsLine(e)
    ensures BytesWeigh(g, a + a', e + e', m) == BytesWeigh(g, a, e, m) + BytesWeigh(g, a', e', m)
  {
    hide Split, AccessLines, RejectLines, AccessEvents, RejectEvents, Among;
    SplitConcat(a, a');
    SplitConcat(e, e');
    AccessConcat(g, Split(a), Split(a'));
    RejectConcat(g, Split(e), Split(e'));
    var x, x' := AccessLines(g, Split(a)), AccessLines(g, Split(a'));
    var y, y' := RejectLines(g, Split(e)), RejectLines(g, Split(e'));
    AccessEventsConcat(x, x');
    RejectEventsConcat(y, y');
    AmongConcat(AccessEvents(x), AccessEvents(x'), R.ByProtocol(m.p));
    AmongConcat(RejectEvents(y), RejectEvents(y'), R.RejectQuestion(m));
  }

  // ---- what was stored ----------------------------------------------------------------------

  /** The rows of all accepted reports together. */
  function StoredWeigh(net: R.Net, posted: seq<Report>, m: R.Measure): int {
    if posted == [] then 0
    else
      var n := |posted| - 1;
      StoredWeigh(net, posted[..n], m) + R.RowsWeigh(R.Rows(net, posted[n].access, posted[n].rejects), m)
  }

  /** The rows stored so far weigh what the lines taken so far weigh. */
  predicate Conserved(p: Pipe, g: Grammar, net: R.Net, m: R.Measure) {
    && EndsLine(p.access.taken) && EndsLine(p.errors.taken)
    && StoredWeigh(net, p.posted, m) == BytesWeigh(g, p.access.taken, p.errors.taken, m)
  }

  lemma {:induction false} AccessMatched(g: Grammar, lines: seq<Bytes>)
    requires GoodGrammar(g)
    ensures R.Matched(AccessLines(g, lines), [])
  {
    if lines != [] { AccessMatched(g, lines[1..]); }
  }

  lemma {:induction false} RejectMatched(g: Grammar, lines: seq<Bytes>)
    requires GoodGrammar(g)
    ensures R.Matched([], RejectLines(g, lines))
  {
    if lines != [] { RejectMatched(g, lines[1..]); }
  }

  /** One report weighs its batches; a silent one weighs nothing. */
  lemma ReportWeighs(g: Grammar, net: R.Net, access: Bytes, errors: Bytes, m: R.Measure)
    requires GoodGrammar(g) && R.Real(m)
    ensures var r := ReportOf(g, access, errors);
            && R.RowsWeigh(R.Rows(net, r.access, r.rejects), m) == BytesWeigh(g, access, errors, m)
            && (Silent(r) ==> BytesWeigh(g, access, errors, m) == 0)
  {
    hide ParseAccess, ParseRejects, Presence, GoodGrammar, R.LinesWeigh, Split;
    AccessMatched(g, Split(access));
    RejectMatched(g, Split(errors));
    R.EndToEnd(net, AccessLines(g, Split(access)), RejectLines(g, Split(errors)), m);
    NoRowsWeighNothing(net, m);
  }

  lemma NoRowsWeighNothing(net: R.Net, m: R.Measure)
    ensures R.RowsWeigh(R.Rows(net, [], []), m) == 0
  {
  }

  lemma EndsConcat(a: Bytes, b: Bytes)
    requires EndsLine(a) && EndsLine(b)
    ensures EndsLine(a + b)
  {
    if b == [] { assert a + b == a; }
  }

  lemma BatchEnds(file: File, stored: Option<nat>, cap: nat)
    ensures EndsLine(ReadNew(file, stored, cap).batch)
  {
  }

  lemma TickConserves(p: Pipe, g: Grammar, cap: nat, accepted: bool, net: R.Net, m: R.Measure)
    requires Conserved(p, g, net, m) && GoodGrammar(g) && R.Real(m)
    ensures Conserved(Run(p, g, cap, accepted), g, net, m)
  {
    hide ReadNew, ReportOf, BytesWeigh, GoodGrammar, R.RowsWeigh, R.Rows, EndsLine, R.Real, Silent;
    var a, e := ReadNew(p.access.file, p.access.stored, cap), ReadNew(p.errors.file, p.errors.stored, cap);
    BatchEnds(p.access.file, p.access.stored, cap);
    BatchEnds(p.errors.file, p.errors.stored, cap);
    EndsConcat(p.access.taken, a.batch);
    EndsConcat(p.errors.taken, e.batch);
    BytesWeighConcat(g, p.access.taken, a.batch, p.errors.taken, e.batch, m);
    ReportWeighs(g, net, a.batch, e.batch, m);
    var report := ReportOf(g, a.batch, e.batch);
    assert (p.posted + [report])[..|p.posted|] == p.posted;
  }

  /** Over any interleaving of writes, rotations and ticks, what the accepted
      reports put into the table is what the consumed lines hold. */
  lemma {:induction false} StoredIsConsumed(p: Pipe, g: Grammar, cap: nat, evs: seq<DpiReader.Event>, net: R.Net, m: R.Measure)
    requires Conserved(p, g, net, m) && GoodGrammar(g) && R.Real(m)
    ensures Conserved(Steps(p, g, cap, evs), g, net, m)
    decreases |evs|
  {
    hide Conserved, GoodGrammar, R.Real, Run;
    if evs != [] {
      if evs[0].Tick? {
        TickConserves(p, g, cap, evs[0].accepted, net, m);
      } else {
        NoTickConserves(p, g, cap, evs[0], net, m);
      }
      StoredIsConsumed(Step(p, g, cap, evs[0]), g, cap, evs[1..], net, m);
    }
  }

  lemma NoTickConserves(p: Pipe, g: Grammar, cap: nat, ev: DpiReader.Event, net: R.Net, m: R.Measure)
    requires Conserved(p, g, net, m) && !ev.Tick?
    ensures Conserved(Step(p, g, cap, ev), g, net, m)
  {
    hide BytesWeigh, StoredWeigh, EndsLine;
  }

  // ---- with no rotation, below the cap --------------------------------------------------------

  /** Is every read of these events one that follows on? */
  predicate Follows(p: Pipe, g: Grammar, cap: nat, evs: seq<DpiReader.Event>)
    decreases |evs|
  {
    evs == [] ||
    (&& !evs[0].Rotate?
     && (evs[0].Tick? ==> ReadNew(p.access.file, p.access.stored, cap).follows && ReadNew(p.errors.file, p.errors.stored, cap).follows)
     && Follows(Step(p, g, cap, evs[0]), g, cap, evs[1..]))
  }

  predicate Steady(c: Channel) { c.stored.Some? && c.intact && c.consumed == c.taken }

  lemma StepSteady(p: Pipe, g: Grammar, cap: nat, ev: DpiReader.Event)
    requires Steady(p.access) && Steady(p.errors) && !ev.Rotate?
    requires ev.Tick? ==> ReadNew(p.access.file, p.access.stored, cap).follows && ReadNew(p.errors.file, p.errors.stored, cap).follows
    ensures var q := Step(p, g, cap, ev);
            && Steady(q.access) && Steady(q.errors)
            && q.access.base == p.access.base && q.errors.base == p.errors.base
  {
    hide ReadNew, ReportOf, Silent;
  }

  lemma {:induction false} StaysSteady(p: Pipe, g: Grammar, cap: nat, evs: seq<DpiReader.Event>)
    requires Steady(p.access) && Steady(p.errors) && Follows(p, g, cap, evs)
    ensures var q := Steps(p, g, cap, evs);
            && Steady(q.access) && Steady(q.errors)
            && q.access.base == p.access.base && q.errors.base == p.errors.base
    decreases |evs|
  {
    hide Steady, Step, ReadNew;
    if evs != [] {
      StepSteady(p, g, cap, evs[0]);
      StaysSteady(Step(p, g, cap, evs[0]), g, cap, evs[1..]);
    }
  }

  /** The whole pipeline: from a baseline on, with the logs only growing and
      the backlog below the cap, the rows stored hold each line between the
      baseline and the stored offset exactly once, however often a report
      failed. */
  lemma LogToTable(p: Pipe, g: Grammar, cap: nat, evs: seq<DpiReader.Event>, net: R.Net, m: R.Measure)
    requires GoodGrammar(g) && R.Real(m)
    requires Sane(p.access) && Sane(p.errors) && Steady(p.access) && Steady(p.errors)
    requires p.access.taken == [] && p.errors.taken == [] && p.posted == []
    requires Follows(p, g, cap, evs)
    ensures var q := Steps(p, g, cap, evs);
            && q.access.stored.Some? && q.errors.stored.Some?
            && p.access.base <= q.access.stored.value <= |q.access.file.bytes|
            && p.errors.base <= q.errors.stored.value <= |q.errors.file.bytes|
            && StoredWeigh(net, q.posted, m)
               == BytesWeigh(g, q.access.file.bytes[p.access.base..q.access.stored.value],
                             q.errors.file.bytes[p.errors.base..q.errors.stored.value], m)
  {
    hide GoodGrammar, R.Real, Follows, Steps, BytesWeigh;
    assert BytesWeigh(g, [], [], m) == 0 by { NothingWeighsNothing(g, m); }
    StoredIsConsumed(p, g, cap, evs, net, m);
    StaysSteady(p, g, cap, evs);
    NoRotations(p, g, cap, evs);
    ConsumedExactlyOnce(p, g, cap, evs);
  }

  /** What these events write to one of the logs. */
  function Written(evs: seq<DpiReader.Event>, access: bool): Bytes {
    if evs == [] then []
    else (if evs[0].Write? && evs[0].access == access then evs[0].more else []) + Written(evs[1..], access)
  }

  lemma {:induction false} LogsGrow(p: Pipe, g: Grammar, cap: nat, evs: seq<DpiReader.Event>)
    requires Follows(p, g, cap, evs)
    ensures var q := Steps(p, g, cap, evs);
            && q.access.file.bytes == p.access.file.bytes + Written(evs, true)
            && q.errors.file.bytes == p.errors.file.bytes + Written(evs, false)
    decreases |evs|
  {
    hide ReadNew, ReportOf, Silent;
    if evs != [] {
      LogsGrow(Step(p, g, cap, evs[0]), g, cap, evs[1..]);
    }
  }

  lemma {:induction false} LastStep(p: Pipe, g: Grammar, cap: nat, evs: seq<DpiReader.Event>)
    requires evs != [] && Follows(p, g, cap, evs)
    ensures var n := |evs| - 1;
            && Follows(p, g, cap, evs[..n]) && Follows(Steps(p, g, cap, evs[..n]), g, cap, [evs[n]])
            && Steps(p, g, cap, evs) == Step(Steps(p, g, cap, evs[..n]), g, cap, evs[n])
    decreases |evs|
  {
    hide Step, ReadNew;
    var n := |evs| - 1;
    if n == 0 {
      assert evs[..n] == [] && evs == [evs[n]];
    } else {
      assert evs[1..][..n - 1] == evs[..n][1..] && evs[1..][n - 1] == evs[n];
      LastStep(Step(p, g, cap, evs[0]), g, cap, evs[1..]);
    }
  }

  predicate NoLineFrom(bytes: Bytes, i: nat) { forall j | i <= j < |bytes| :: bytes[j] != NEWLINE }

  /** A tick whose report is accepted leaves no whole line unread. */
  lemma AcceptedReadsAll(p: Pipe, g: Grammar, cap: nat)
    requires Sane(p.access) && Sane(p.errors) && Follows(p, g, cap, [Tick(true)])
    ensures var q := Run(p, g, cap, true);
            && q.access.stored.Some? && NoLineFrom(q.access.file.bytes, q.access.stored.value)
            && q.errors.stored.Some? && NoLineFrom(q.errors.file.bytes, q.errors.stored.value)
  {
    hide ReadNew, ReportOf, Silent, ExactlyOnce;
    assert [Tick(true)][0] == Tick(true);
    ReadIs(p.access.file, p.access.stored, cap);
    ReadIs(p.errors.file, p.errors.stored, cap);
  }

  /** Nothing is lost on the way: in the same setting, once a report has been
      accepted the table holds every whole line written since the baseline,
      each exactly once, however many reports failed before. */
  lemma AllArrives(p: Pipe, g: Grammar, cap: nat, evs: seq<DpiReader.Event>, net: R.Net, m: R.Measure)
    requires GoodGrammar(g) && R.Real(m)
    requires Sane(p.access) && Sane(p.errors) && Steady(p.access) && Steady(p.errors)
    requires p.access.taken == [] && p.errors.taken == [] && p.posted == []
    requires Follows(p, g, cap, evs) && evs != [] && evs[|evs| - 1] == Tick(true)
    ensures var q := Steps(p, g, cap, evs);
            var access, errors := p.access.file.bytes + Written(evs, true), p.errors.file.bytes + Written(evs, false);
            && q.access.stored.Some? && q.errors.stored.Some?
            && p.access.base <= q.access.stored.value <= |access| && p.errors.base <= q.errors.stored.value <= |errors|
            && NoLineFrom(access, q.access.stored.value) && NoLineFrom(errors, q.errors.stored.value)
            && StoredWeigh(net, q.posted, m)
               == BytesWeigh(g, access[p.access.base..q.access.stored.value], errors[p.errors.base..q.errors.stored.value], m)
  {
    hide GoodGrammar, R.Real, Follows, Steps, BytesWeigh, StoredWeigh, Steady, Sane, ReadNew, Written, NoLineFrom;
    LogToTable(p, g, cap, evs, net, m);
    LogsGrow(p, g, cap, evs);
    LastStep(p, g, cap, evs);
    var before := evs[..|evs| - 1];
    NoRotations(p, g, cap, before);
    ConsumedExactlyOnce(p, g, cap, before);
    AcceptedReadsAll(Steps(p, g, cap, before), g, cap);
  }

  lemma {:induction false} SomethingAggregates<K>(events: seq<DpiParse.Event<K>>)
    ensures Aggregate(events) == [] <==> events == []
  {
  }

  lemma {:induction false} CountedEvents(lines: seq<AccessLine>)
    ensures AccessEvents(lines) == [] <==> forall i | 0 <= i < |lines| :: !DpiParse.Counted(lines[i])
    ensures AccessEvents(lines) == [] ==> Presence(lines) == []
  {
    if lines != [] { CountedEvents(lines[..|lines| - 1]); }
  }

  lemma {:induction false} RejectedEvents(lines: seq<RejectLine>)
    ensures RejectEvents(lines) == [] <==> forall i | 0 <= i < |lines| :: !lines[i].Rejected?
  {
    if lines != [] {
      var n := |lines| - 1;
      RejectedEvents(lines[..n]);
      assert lines == lines[..n] + [lines[n]];
      assert forall i | 0 <= i < n :: lines[..n][i] == lines[i];
    }
  }

  /** Is there anything to tell in these batches? */
  predicate Telling(g: Grammar, access: Bytes, errors: Bytes) {
    || (exists i | 0 <= i < |Split(access)| :: DpiParse.Counted(g.access(Split(access)[i])))
    || (exists i | 0 <= i < |Split(errors)| :: g.rejects(Split(errors)[i]).Rejected?)
  }

  lemma SilentIff(g: Grammar, access: Bytes, errors: Bytes)
    ensures Silent(ReportOf(g, access, errors)) <==> !Telling(g, access, errors)
  {
    hide Split, DpiParse.Counted, Aggregate, AccessEvents, RejectEvents, Presence;
    var ls, rs := AccessLines(g, Split(access)), RejectLines(g, Split(errors));
    CountedEvents(ls);
    RejectedEvents(rs);
    SomethingAggregates(AccessEvents(ls));
    SomethingAggregates(RejectEvents(rs));
    AccessLinesAt(g, Split(access));
    RejectLinesAt(g, Split(errors));
    assert NoEvents() by { NothingReported(); }
  }

  predicate NoEvents() { AccessReport([]) == [] && RejectReport([]) == [] }

  lemma NothingReported()
    ensures NoEvents()
  {
  }

  lemma {:induction false} AccessLinesAt(g: Grammar, lines: seq<Bytes>)
    ensures forall i | 0 <= i < |lines| :: AccessLines(g, lines)[i] == g.access(lines[i])
  {
    if lines != [] { AccessLinesAt(g, lines[1..]); }
  }

  lemma {:induction false} RejectLinesAt(g: Grammar, lines: seq<Bytes>)
    ensures forall i | 0 <= i < |lines| :: RejectLines(g, lines)[i] == g.rejects(lines[i])
  {
    if lines != [] { RejectLinesAt(g, lines[1..]); }
  }

  /** A tick, exactly: if a line tells of a user or a reject, it is all or
      nothing with the answer; if none does, the offsets move without a report. */
  lemma TickIff(p: Pipe, g: Grammar, cap: nat, accepted: bool)
    ensures var a, e := ReadNew(p.access.file, p.access.stored, cap), ReadNew(p.errors.file, p.errors.stored, cap);
            var q := Run(p, g, cap, accepted);
            && (Telling(g, a.batch, e.batch) && !accepted ==> q == p)
            && (Telling(g, a.batch, e.batch) && accepted ==> q.posted == p.posted + [ReportOf(g, a.batch, e.batch)])
            && (!Telling(g, a.batch, e.batch) ==> q.posted == p.posted)
            && (accepted || !Telling(g, a.batch, e.batch) ==> q.access.stored == Some(a.offset) && q.errors.stored == Some(e.offset))
  {
    hide ReadNew, ReportOf, Telling, Silent;
    var a, e := ReadNew(p.access.file, p.access.stored, cap), ReadNew(p.errors.file, p.errors.stored, cap);
    SilentIff(g, a.batch, e.batch);
  }

  lemma NothingWeighsNothing(g: Grammar, m: R.Measure)
    ensures BytesWeigh(g, [], [], m) == 0
  {
  }

  lemma {:induction false} NoRotations(p: Pipe, g: Grammar, cap: nat, evs: seq<DpiReader.Event>)
    requires Follows(p, g, cap, evs)
    ensures forall i | 0 <= i < |evs| :: SaneEvent(evs[i])
    decreases |evs|
  {
    hide Step, ReadNew;
    if evs != [] {
      NoRotations(Step(p, g, cap, evs[0]), g, cap, evs[1..]);
      forall i | 0 <= i < |evs| ensures SaneEvent(evs[i]) {
        if i > 0 { assert evs[i] == evs[1..][i - 1]; }
      }
    }
  }
}
