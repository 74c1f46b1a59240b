/** run_once as it is written (scripts/hermes_model_guard.py): the state
    dictionary is updated in place, messages are filtered and delivered in
    loops. And what the policy's convergence means for it. */
module GuardKeeper {
  import opened Wrappers
  import opened Guard
  import opened GuardRun
  import L = GuardLaws
  import P = GuardLoops

  lemma PassedStep(notes: seq<Note>, i: nat, notified: map<Key, int>, now: int)
    requires i < |notes|
    ensures Passed(notes[i..], notified, now)
            == (if Fires(notes[i].key, notified, now) then [notes[i]] else []) + Passed(notes[i + 1..], notified, now)
  {
    hide Fires;
    P.Tail(notes, i);
  }

  lemma {:induction false} StampedLast(m: map<Key, int>, passed: seq<Note>, n: Note, now: int)
    ensures Stamped(m, passed + [n], now) == Stamped(m, passed, now)[n.key := now]
    decreases |passed|
  {
    if passed == [] {
      assert [] + [n] == [n];
    } else {
      assert (passed + [n])[0] == passed[0] && (passed + [n])[1..] == passed[1..] + [n];
      StampedLast(m[passed[0].key := now], passed[1..], n, now);
    }
  }

  /** filter_notifications: the survivors, and the map with old keys pruned
      and theirs stamped. Two equal keys of one run both survive. */
  method FilterNotifications(notes: seq<Note>, notified: map<Key, int>, now: int)
    returns (passed: seq<Note>, updated: map<Key, int>)
    ensures passed == Passed(notes, notified, now)
    ensures updated == Stamped(Pruned(notified, now), passed, now)
  {
    hide Passed, Stamped, Pruned, Fires;
    updated := Prune(notified, now);
    passed := [];
    assert notes[0..] == notes;
    assert Stamped(updated, [], now) == updated by { NothingStamped(updated, now); }
    for i := 0 to |notes|
      invariant passed + Passed(notes[i..], notified, now) == Passed(notes, notified, now)
      invariant updated == Stamped(Pruned(notified, now), passed, now)
    {
      var n := notes[i];
      PassedStep(notes, i, notified, now);
      var fires := Fires(n.key, notified, now);
      if fires {
        P.Assoc(passed, [n], Passed(notes[i + 1..], notified, now));
        StampedLast(Pruned(notified, now), passed, n, now);
        passed := passed + [n];
        updated := updated[n.key := now];
      }
    }
    NothingPassed(notified, now);
    assert notes[|notes|..] == [] && passed + [] == passed;
  }

  lemma NothingStamped(m: map<Key, int>, now: int)
    ensures Stamped(m, [], now) == m
  {
  }

  lemma NothingPassed(notified: map<Key, int>, now: int)
    ensures Passed([], notified, now) == []
  {
  }

  method Prune(notified: map<Key, int>, now: int) returns (m: map<Key, int>)
    ensures m == Pruned(notified, now)
  {
    m := map[];
    var keys := notified.Keys;
    while keys != {}
      invariant keys <= notified.Keys
      invariant m == map k | k in notified && k !in keys && notified[k] > now - DEDUPE_RETENTION :: notified[k]
    {
      var k :| k in keys;
      keys := keys - {k};
      if notified[k] > now - DEDUPE_RETENTION {
        m := m[k := notified[k]];
      }
    }
  }

  lemma {:induction false} RetryLast(items: seq<Item>, x: Item, t: Tick, k: nat)
    ensures var m, r := Retry(items, t, k), Retry(items + [x], t, k);
            r == if Delivered(t, k + |items|) then m.(sent := m.sent + [x]) else m.(queue := m.queue + [x])
    decreases |items|
  {
    hide Delivered;
    if items == [] {
      assert [] + [x] == [x] && [x][1..] == [];
      assert Retry([], t, k + 1) == Mail([], [], []);
      assert [x] + [] == [x];
    } else {
      var first, rest := items[0], items[1..];
      assert (items + [x])[0] == first && (items + [x])[1..] == rest + [x];
      RetryLast(rest, x, t, k + 1);
      var m := Retry(rest, t, k + 1);
      P.Assoc([first], m.sent, [x]);
      P.Assoc([first], m.queue, [x]);
    }
  }

  lemma {:induction false} SendLast(queue: seq<Item>, items: seq<Item>, x: Item, t: Tick, k: nat)
    ensures var m := Send(queue, items, t, k);
            Send(queue, items + [x], t, k)
            == if Delivered(t, k + |items|) then m.(sent := m.sent + [x])
               else
                 var q := m.queue + [x];
                 Mail(m.sent, q[Overflow(q)..], m.evicted + q[..Overflow(q)])
    decreases |items|
  {
    hide Delivered, Overflow;
    if items == [] {
      assert [] + [x] == [x] && [x][1..] == [];
      assert [x] + [] == [x];
      var q := queue + [x];
      assert Send(q[Overflow(q)..], [], t, k + 1) == Mail([], q[Overflow(q)..], []);
      assert q[..Overflow(q)] + [] == [] + q[..Overflow(q)];
    } else {
      var first, rest := items[0], items[1..];
      assert (items + [x])[0] == first && (items + [x])[1..] == rest + [x];
      if Delivered(t, k) {
        SendLast(queue, rest, x, t, k + 1);
        P.Assoc([first], Send(queue, rest, t, k + 1).sent, [x]);
      } else {
        var q := queue + [first];
        SendLast(q[Overflow(q)..], rest, x, t, k + 1);
        var m := Send(q[Overflow(q)..], rest, t, k + 1);
        var q' := m.queue + [x];
        P.Assoc(q[..Overflow(q)], m.evicted, q'[..Overflow(q')]);
      }
    }
  }

  /** The guard with its state. */
  class Keeper {
    var lastUsage: Option<real>
    var notified: map<Key, int>
    var models: States
    var failures: nat
    var pending: seq<Item>
    var debt: Option<Debt>
    var issued: nat
    var disk: Config
    var running: Config

    function Saved(): Memory
      reads this
    {
      Memory(lastUsage, notified, models, failures, pending, debt, issued)
    }

    function Machine(): Host
      reads this
    {
      Host(disk, running)
    }

    constructor (config: Config)
      ensures Saved() == Memory(None, map[], map[], 0, [], None, 0) && Machine() == Host(config, config)
    {
      lastUsage, notified, models, failures := None, map[], map[], 0;
      pending, debt, issued := [], None, 0;
      disk, running := config, config;
    }

    /** Restart, or put it off: the debt is carried in the state. */
    method RestartIfIdle(t: Tick) returns (attempted: bool)
      modifies this`debt, this`running
      ensures (attempted, debt) == RestartOrDefer(old(debt), t)
      ensures running == if attempted && t.restarted then disk else old(running)
    {
      var deferrals := if debt.Some? then debt.value.deferrals else 0;
      if t.inflight > 0 && deferrals < RESTART_DEFER_MAX {
        debt := Some(Debt(if debt.Some? then debt.value.since else t.now, deferrals + 1));
        return false;
      }
      if t.restarted {
        running := disk;
      }
      debt := None;
      return true;
    }

    /** What earlier runs could not deliver. */
    method DeliverPending(t: Tick) returns (sent: seq<Item>)
      modifies this`pending
      ensures var m := Retry(old(pending), t, 0); sent == m.sent && pending == m.queue
    {
      hide Retry, Delivered;
      sent := [];
      var still: seq<Item> := [];
      assert Retry([], t, 0) == Mail([], [], []) by { NothingRetried(t); }
      for i := 0 to |pending|
        invariant pending == old(pending)
        invariant Retry(pending[..i], t, 0) == Mail(sent, still, [])
      {
        RetryLast(pending[..i], pending[i], t, 0);
        assert pending[..i + 1] == pending[..i] + [pending[i]];
        var ok := Delivered(t, i);
        if ok {
          sent := sent + [pending[i]];
        } else {
          still := still + [pending[i]];
        }
      }
      assert pending[..|pending|] == pending;
      pending := still;
    }

    /** This run's news; what cannot be sent is queued. */
    method DeliverNews(items: seq<Item>, t: Tick, k: nat) returns (sent: seq<Item>, evicted: seq<Item>)
      modifies this`pending
      ensures Mail(sent, pending, evicted) == Send(old(pending), items, t, k)
    {
      hide Send, Delivered, Overflow;
      sent, evicted := [], [];
      assert Send(pending, [], t, k) == Mail([], pending, []) by { NothingSent(pending, t, k); }
      for i := 0 to |items|
        invariant Send(old(pending), items[..i], t, k) == Mail(sent, pending, evicted)
      {
        SendLast(old(pending), items[..i], items[i], t, k);
        assert items[..i + 1] == items[..i] + [items[i]];
        var ok := Delivered(t, k + i);
        if ok {
          sent := sent + [items[i]];
        } else {
          var q := pending + [items[i]];
          var cut := Overflow(q);
          pending := q[cut..];
          evicted := evicted + q[..cut];
        }
      }
      assert items[..|items|] == items;
    }

    /** Count a blind run or forget the earlier ones; then decide. */
    method Judge(t: Tick) returns (p: Plan, extra: seq<Note>)
      modifies this`failures
      ensures failures == Failures(old(Saved()), t)
      ensures extra == BlindNotes(old(Saved()), t)
      ensures p == Decide(disk, Seen(t), lastUsage, t.usage, models)
    {
      hide Pricing, UsageNotes;
      var index := Seen(t);
      extra := [];
      if t.usage == None || index == None {
        failures := failures + 1;
        if failures >= API_FAIL_NOTIFY_AFTER {
          extra := [Note(GuardBlind, false)];
        }
      } else {
        failures := 0;
      }
      p := Plan(UsageNotes(lastUsage, t.usage), [], None);
      if index.Some? {
        var q := P.DecidePricing(disk, index.value, models);
        p := q.(notes := p.notes + q.notes);
      }
    }

    /** Write the configuration and restart, or pay an old debt. */
    method Act(t: Tick, p: Plan) returns (done: seq<Note>)
      modifies this`disk, this`running, this`debt
      ensures var called := CallsRestart(old(Saved()), p, t);
              var (attempted, owed) := if called then RestartOrDefer(old(debt), t) else (false, old(debt));
              && debt == owed
              && disk == (if p.newConfig.Some? && t.written then p.newConfig.value else old(disk))
              && running == (if attempted && t.restarted then disk else old(running))
              && done == if p.newConfig == None && attempted then [Note(RestartDone(t.now), !t.restarted)] else []
    {
      hide RestartOrDefer;
      done := [];
      if p.newConfig.Some? {
        if t.written {
          disk := p.newConfig.value;
          var _ := RestartIfIdle(t);
        }
      } else if debt.Some? {
        var attempted := RestartIfIdle(t);
        if attempted {
          done := [Note(RestartDone(t.now), !t.restarted)];
        }
      }
    }

    /** Deliver what waited, then the news that is not a repetition. */
    method Report(t: Tick, notes: seq<Note>) returns (sent: seq<Item>, evicted: seq<Item>)
      modifies this`pending, this`notified, this`issued
      ensures var retried := Retry(old(pending), t, 0);
              var passed := Passed(notes, old(notified), t.now);
              var mail := Send(retried.queue, Numbered(passed, old(issued)), t, |old(pending)|);
              && pending == mail.queue && sent == retried.sent + mail.sent && evicted == mail.evicted
              && notified == Stamped(Pruned(old(notified), t.now), passed, t.now)
              && issued == old(issued) + |passed|
    {
      hide Retry, Send, Passed, Stamped, Pruned, Numbered;
      var waiting := |pending|;
      var retried := DeliverPending(t);
      var passed, updated := FilterNotifications(notes, notified, t.now);
      notified := updated;
      var news;
      news, evicted := DeliverNews(Numbered(passed, issued), t, waiting);
      issued := issued + |passed|;
      sent := retried + news;
    }

    /** Judge, then act; what is to be told about both. */
    method Resolve(t: Tick) returns (p: Plan, extra: seq<Note>)
      modifies this`failures, this`disk, this`running, this`debt
      ensures var r := RunOnce(old(Saved()), old(Machine()), t);
              && p == r.plan && extra == r.extra
              && failures == Failures(old(Saved()), t) && debt == r.state.debt && Machine() == r.host
    {
      hide Decide, RestartOrDefer, BlindNotes, Seen, Failures, RunOnce;
      ghost var s0, h0 := Saved(), Machine();
      p, extra := Judge(t);
      var done := Act(t, p);
      extra := extra + done;
      RunDecides(s0, h0, t);
    }

    /** One run, step by step. */
    method Once(t: Tick) returns (sent: seq<Item>, evicted: seq<Item>, code: int)
      modifies this
      ensures var r := RunOnce(old(Saved()), old(Machine()), t);
              && Saved() == r.state && Machine() == r.host
              && sent == r.sent && evicted == r.evicted && code == r.code
    {
      hide Retry, Send, ModelStates, HasCritical, Passed, Stamped, Pruned, Numbered, Seen, Failed, Failures, RunOnce;
      var checked := disk;
      RunReports(Saved(), Machine(), t);
      var p, extra := Resolve(t);
      sent, evicted := Report(t, p.notes + extra);
      if t.usage.Some? {
        lastUsage := t.usage;
      }
      if Seen(t).Some? {
        models := ModelStates(checked, Seen(t).value);
      }
      code := if HasCritical(p.notes) || HasCritical(extra) then 1 else if Failed(t) then 2 else 0;
    }
  }

  /** The first half of a run: the decision and what it does to the host. */
  lemma RunDecides(s: Memory, h: Host, t: Tick)
    ensures var r := RunOnce(s, h, t);
            && r.plan == Decide(h.disk, Seen(t), s.lastUsage, t.usage, s.models)
            && r.called == CallsRestart(s, r.plan, t)
            && (r.attempted, r.state.debt) == (if r.called then RestartOrDefer(s.debt, t) else (false, s.debt))
            && r.host.disk == (if r.plan.newConfig.Some? && t.written then r.plan.newConfig.value else h.disk)
            && r.host.running == (if r.attempted && t.restarted then r.host.disk else h.running)
            && r.extra == BlindNotes(s, t) + (if r.plan.newConfig == None && r.attempted
                                              then [Note(RestartDone(t.now), !t.restarted)] else [])
  {
    hide Decide, Retry, Send, RestartOrDefer, ModelStates, BlindNotes, HasCritical, Passed, Stamped, Pruned, Numbered, Seen,
         Failed, Failures, CallsRestart;
  }

  /** The second half: what is delivered and what is remembered. */
  lemma RunReports(s: Memory, h: Host, t: Tick)
    ensures var r := RunOnce(s, h, t);
            var retried, passed := Retry(s.pending, t, 0), Passed(r.plan.notes + r.extra, s.notified, t.now);
            var mail := Send(retried.queue, Numbered(passed, s.issued), t, |s.pending|);
            && r.state.pending == mail.queue && r.sent == retried.sent + mail.sent && r.evicted == mail.evicted
            && r.state.notified == Stamped(Pruned(s.notified, t.now), passed, t.now)
            && r.state.issued == s.issued + |passed|
            && r.state.lastUsage == (if t.usage.Some? then t.usage else s.lastUsage)
            && r.state.models == (if Seen(t).Some? then ModelStates(h.disk, Seen(t).value) else s.models)
            && r.state.failures == Failures(s, t)
            && r.code == if HasCritical(r.plan.notes) || HasCritical(r.extra) then 1 else if Failed(t) then 2 else 0
  {
    hide Decide, Retry, Send, RestartOrDefer, ModelStates, BlindNotes, HasCritical, Passed, Stamped, Pruned, Numbered, Seen,
         Failed, Failures, CallsRestart;
  }

  lemma NothingRetried(t: Tick)
    ensures Retry([], t, 0) == Mail([], [], [])
  {
  }

  lemma NothingSent(q: seq<Item>, t: Tick, k: nat)
    ensures Send(q, [], t, k) == Mail([], q, [])
  {
  }

  // ---- convergence of whole runs -----------------------------------------------------------

  function SightOf(t: Tick): L.Sight {
    if Seen(t) == None then L.Blind else L.Sees(t.written)
  }

  function Sights(ts: seq<Tick>): (r: seq<L.Sight>)
    ensures |r| == |ts| && forall i | 0 <= i < |ts| :: r[i] == SightOf(ts[i])
  {
    seq(|ts|, i requires 0 <= i < |ts| => SightOf(ts[i]))
  }

  predicate OneCatalogue(ts: seq<Tick>, cat: Catalogue) {
    forall t | t in ts :: t.index.Some? ==> t.index.value == cat
  }

  lemma RunIsStep(s: Memory, h: Host, t: Tick, cat: Catalogue)
    requires t.index.Some? ==> t.index.value == cat
    ensures var r := RunOnce(s, h, t);
            L.Guarded(r.host.disk, r.state.models) == L.Step(L.Guarded(h.disk, s.models), cat, SightOf(t))
  {
    hide Pricing, Retry, Send, ModelStates, HasCritical, BlindNotes, Passed, Numbered, Stamped, RestartOrDefer, Pruned;
  }

  lemma {:induction false} RunsAreSteps(p: Past, ts: seq<Tick>, cat: Catalogue)
    requires OneCatalogue(ts, cat)
    ensures var q := RunAll(p, ts);
            L.Guarded(q.host.disk, q.state.models) == L.Steps(L.Guarded(p.host.disk, p.state.models), cat, Sights(ts))
    decreases |ts|
  {
    hide RunOnce, L.Step, SightOf;
    if ts != [] {
      var r := RunOnce(p.state, p.host, ts[0]);
      assert ts[0] in ts && forall t | t in ts[1..] :: t in ts;
      RunIsStep(p.state, p.host, ts[0], cat);
      RunsAreSteps(Past(r.state, r.host, Booked(p.ledger, r)), ts[1..], cat);
      assert Sights(ts)[1..] == Sights(ts[1..]);
    }
  }

  /** Whole runs converge: while the catalogue stays the same and something
      free is to be had, two runs that saw it, the later one able to write,
      leave only free models in the file, whatever else failed; and the next
      run plans nothing. */
  lemma RunsConverge(p: Past, ts: seq<Tick>, cat: Catalogue, i: nat, j: nat)
    requires OneCatalogue(ts, cat) && L.Hope(p.host.disk, cat)
    requires i < j < |ts| && Seen(ts[i]).Some? && Seen(ts[j]).Some? && ts[j].written
    ensures var q := RunAll(p, ts);
            L.AllFree(q.host.disk, cat) && Pricing(q.host.disk, cat, q.state.models).actions == []
  {
    hide RunAll, L.Hope, L.AllFree, Pricing, L.Steps;
    RunsAreSteps(p, ts, cat);
    L.Converges(L.Guarded(p.host.disk, p.state.models), cat, Sights(ts), i, j);
  }
}
