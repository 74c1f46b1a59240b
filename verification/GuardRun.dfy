/** One run of the guard and its persistent state: run_once with its helpers
    (scripts/hermes_model_guard.py). Times are in seconds. */
module GuardRun {
  import opened Wrappers
  import opened Guard
  import L = GuardLaws

  const DEDUPE_WINDOW: int := 21600
  const DEDUPE_RETENTION: int := 604800
  const API_FAIL_NOTIFY_AFTER: nat := 3
  const PENDING_MAX: nat := 20
  const RESTART_DEFER_MAX: nat := 3

  /** A message on its way. The numbers are this model's own: they say in which
      order the messages were let through. */
  datatype Item = Item(key: Key, number: nat)

  datatype Debt = Debt(since: int, deferrals: nat)

  /** state.json. */
  datatype Memory = Memory(lastUsage: Option<real>, notified: map<Key, int>, models: States, failures: nat,
                         pending: seq<Item>, debt: Option<Debt>, issued: nat)

  /** The configuration on disk and the one hermes-api runs with. */
  datatype Host = Host(disk: Config, running: Config)

  /** What one run meets. `delivered[k]` is the fate of its k-th message. */
  datatype Tick = Tick(now: int, readable: bool, usage: Option<real>, index: Option<Catalogue>, written: bool,
                       inflight: nat, restarted: bool, delivered: seq<bool>)

  // ---- dedupe ------------------------------------------------------------------------

  predicate Fires(key: Key, notified: map<Key, int>, now: int) {
    key !in notified || now - notified[key] >= DEDUPE_WINDOW
  }

  function Passed(notes: seq<Note>, notified: map<Key, int>, now: int): seq<Note> {
    if notes == [] then []
    else (if Fires(notes[0].key, notified, now) then [notes[0]] else []) + Passed(notes[1..], notified, now)
  }

  function Pruned(notified: map<Key, int>, now: int): map<Key, int> {
    map k | k in notified && notified[k] > now - DEDUPE_RETENTION :: notified[k]
  }

  function Stamped(m: map<Key, int>, passed: seq<Note>, now: int): map<Key, int>
    decreases |passed|
  {
    if passed == [] then m else Stamped(m[passed[0].key := now], passed[1..], now)
  }

  // ---- mail ----------------------------------------------------------------------------

  datatype Mail = Mail(sent: seq<Item>, queue: seq<Item>, evicted: seq<Item>)

  predicate Delivered(t: Tick, k: nat) { k < |t.delivered| && t.delivered[k] }

  /** What earlier runs could not deliver is tried again, oldest first. */
  function Retry(items: seq<Item>, t: Tick, k: nat): Mail
    decreases |items|
  {
    if items == [] then Mail([], [], [])
    else
      var r := Retry(items[1..], t, k + 1);
      if Delivered(t, k) then r.(sent := [items[0]] + r.sent) else r.(queue := [items[0]] + r.queue)
  }

  /** The last PENDING_MAX of a queue, and how many that leaves out. */
  function Overflow(q: seq<Item>): (cut: nat)
    ensures cut <= |q|
  {
    if |q| > PENDING_MAX then |q| - PENDING_MAX else 0
  }

  /** News: sent, or queued behind the rest; a full queue loses its oldest. */
  function Send(queue: seq<Item>, items: seq<Item>, t: Tick, k: nat): Mail
    decreases |items|
  {
    if items == [] then Mail([], queue, [])
    else if Delivered(t, k) then
      var r := Send(queue, items[1..], t, k + 1);
      r.(sent := [items[0]] + r.sent)
    else
      var q := queue + [items[0]];
      var r := Send(q[Overflow(q)..], items[1..], t, k + 1);
      r.(evicted := q[..Overflow(q)] + r.evicted)
  }

  function Numbered(notes: seq<Note>, from: nat): (r: seq<Item>)
    ensures |r| == |notes|
  {
    if notes == [] then [] else [Item(notes[0].key, from)] + Numbered(notes[1..], from + 1)
  }

  // ---- the restart ------------------------------------------------------------------------

  /** Deferred while requests are in flight, at most RESTART_DEFER_MAX times;
      then attempted. The first component tells whether it was attempted. */
  function RestartOrDefer(debt: Option<Debt>, t: Tick): (bool, Option<Debt>) {
    var deferrals := if debt.Some? then debt.value.deferrals else 0;
    if t.inflight > 0 && deferrals < RESTART_DEFER_MAX
    then (false, Some(Debt(if debt.Some? then debt.value.since else t.now, deferrals + 1)))
    else (true, None)
  }

  // ---- one run -----------------------------------------------------------------------------

  datatype Run = Run(state: Memory, host: Host, passed: seq<Item>, sent: seq<Item>, evicted: seq<Item>,
                     called: bool, attempted: bool, plan: Plan, extra: seq<Note>, code: int)

  function Seen(t: Tick): Option<Catalogue> {
    if t.readable then t.index else None
  }

  predicate Failed(t: Tick) { t.usage == None || Seen(t) == None }

  function Failures(s: Memory, t: Tick): nat {
    if Failed(t) then s.failures + 1 else 0
  }

  function BlindNotes(s: Memory, t: Tick): seq<Note> {
    if Failed(t) && Failures(s, t) >= API_FAIL_NOTIFY_AFTER then [Note(GuardBlind, false)] else []
  }

  /** The restart is called after a rewrite that reached the disk, or to pay an
      old debt when nothing was to be rewritten. */
  predicate CallsRestart(s: Memory, p: Plan, t: Tick) {
    if p.newConfig.Some? then t.written else s.debt.Some?
  }

  predicate HasCritical(notes: seq<Note>) {
    exists n | n in notes :: n.critical
  }

  function RunOnce(s: Memory, h: Host, t: Tick): Run {
    var p := Decide(h.disk, Seen(t), s.lastUsage, t.usage, s.models);
    var called := CallsRestart(s, p, t);
    var (attempted, debt) := if called then RestartOrDefer(s.debt, t) else (false, s.debt);
    var disk := if p.newConfig.Some? && t.written then p.newConfig.value else h.disk;
    var done := if p.newConfig == None && attempted then [Note(RestartDone(t.now), !t.restarted)] else [];
    var extra := BlindNotes(s, t) + done;
    var retried := Retry(s.pending, t, 0);
    var passed := Passed(p.notes + extra, s.notified, t.now);
    var items := Numbered(passed, s.issued);
    var mail := Send(retried.queue, items, t, |s.pending|);
    Run(Memory(if t.usage.Some? then t.usage else s.lastUsage,
              Stamped(Pruned(s.notified, t.now), passed, t.now),
              if Seen(t).Some? then ModelStates(h.disk, Seen(t).value) else s.models,
              Failures(s, t), mail.queue, debt, s.issued + |passed|),
        Host(disk, if attempted && t.restarted then disk else h.running),
        items, retried.sent + mail.sent, mail.evicted, called, attempted, p, extra,
        if HasCritical(p.notes) || HasCritical(extra) then 1 else if Failed(t) then 2 else 0)
  }

  // ---- many runs ----------------------------------------------------------------------------

  /** Everything that was let through, sent and lost so far. */
  datatype Ledger = Ledger(passed: seq<Item>, sent: seq<Item>, evicted: seq<Item>)

  function Booked(l: Ledger, r: Run): Ledger {
    Ledger(l.passed + r.passed, l.sent + r.sent, l.evicted + r.evicted)
  }

  /** How often a message is in a list. */
  function Count(xs: seq<Item>, x: Item): nat { multiset(xs)[x] }

  ghost predicate Conserved(passed: seq<Item>, sent: seq<Item>, pending: seq<Item>, evicted: seq<Item>) {
    forall x :: Count(passed, x) == Count(sent, x) + Count(pending, x) + Count(evicted, x)
  }

  predicate Rising(items: seq<Item>) {
    forall i, j | 0 <= i < j < |items| :: items[i].number < items[j].number
  }

  /** Every message let through is in exactly one place; what was lost is
      older than all that waits; the queue is bounded. */
  ghost predicate Accounts(l: Ledger, s: Memory) {
    && Conserved(l.passed, l.sent, s.pending, l.evicted)
    && Rising(l.passed) && (forall i | 0 <= i < |l.passed| :: l.passed[i].number < s.issued)
    && Rising(l.evicted + s.pending) && (forall i | 0 <= i < |s.pending| :: s.pending[i].number < s.issued)
    && (forall i | 0 <= i < |l.evicted| :: l.evicted[i].number < s.issued)
    && |s.pending| <= PENDING_MAX
  }

  lemma CountJoin(a: seq<Item>, b: seq<Item>, x: Item)
    ensures Count(a + b, x) == Count(a, x) + Count(b, x)
  {
  }

  lemma CountSplit(q: seq<Item>, cut: nat, x: Item)
    requires cut <= |q|
    ensures Count(q, x) == Count(q[..cut], x) + Count(q[cut..], x)
  {
    assert q == q[..cut] + q[cut..];
  }

  lemma {:induction false} RetryConserves(items: seq<Item>, t: Tick, k: nat, x: Item)
    ensures var m := Retry(items, t, k); Count(m.sent, x) + Count(m.queue, x) == Count(items, x)
    decreases |items|
  {
    hide Count;
    if items == [] {
      CountNothing(x);
    } else {
      var first, rest := items[0], items[1..];
      var r := Retry(rest, t, k + 1);
      assert items == [first] + rest;
      CountJoin([first], rest, x);
      RetryConserves(rest, t, k + 1, x);
      CountJoin([first], r.sent, x);
      CountJoin([first], r.queue, x);
    }
  }

  lemma CountNothing(x: Item)
    ensures Count([], x) == 0
  {
  }

  lemma {:induction false} RetryRises(gone: seq<Item>, items: seq<Item>, t: Tick, k: nat)
    requires Rising(gone + items)
    ensures var m := Retry(items, t, k); Rising(gone + m.queue) && |m.queue| <= |items|
    decreases |items|
  {
    hide Rising;
    if items != [] {
      var x, rest, r := items[0], items[1..], Retry(items[1..], t, k + 1);
      assert items == [x] + rest;
      if Delivered(t, k) {
        WithoutOne(gone, x, rest);
        RetryRises(gone, rest, t, k + 1);
      } else {
        assert gone + items == gone + [x] + rest;
        RetryRises(gone + [x], rest, t, k + 1);
        assert gone + ([x] + r.queue) == gone + [x] + r.queue;
      }
    }
  }

  lemma WithoutOne(a: seq<Item>, x: Item, b: seq<Item>)
    requires Rising(a + ([x] + b))
    ensures Rising(a + b)
  {
    var long, short := a + ([x] + b), a + b;
    forall i, j | 0 <= i < j < |short| ensures short[i].number < short[j].number {
      assert short[i] == long[if i < |a| then i else i + 1] && short[j] == long[if j < |a| then j else j + 1];
    }
  }

  /** No message is lost or doubled on the way. */
  lemma {:induction false} SendConserves(queue: seq<Item>, items: seq<Item>, t: Tick, k: nat, x: Item)
    ensures var m := Send(queue, items, t, k);
            Count(m.sent, x) + Count(m.queue, x) + Count(m.evicted, x) == Count(queue, x) + Count(items, x)
    decreases |items|
  {
    hide Overflow, Count;
    CountNothing(x);
    if items != [] {
      var first, rest := items[0], items[1..];
      assert items == [first] + rest;
      CountJoin([first], rest, x);
      if Delivered(t, k) {
        SendConserves(queue, rest, t, k + 1, x);
        CountJoin([first], Send(queue, rest, t, k + 1).sent, x);
      } else {
        var q := queue + [first];
        var cut := Overflow(q);
        CountJoin(queue, [first], x);
        CountSplit(q, cut, x);
        SendConserves(q[cut..], rest, t, k + 1, x);
        CountJoin(q[..cut], Send(q[cut..], rest, t, k + 1).evicted, x);
      }
    }
  }

  /** What is lost is always the oldest, and the queue stays bounded. */
  lemma {:induction false} SendRises(gone: seq<Item>, queue: seq<Item>, items: seq<Item>, t: Tick, k: nat)
    requires Rising(gone + queue + items) && |queue| <= PENDING_MAX
    ensures var m := Send(queue, items, t, k);
            Rising(gone + m.evicted + m.queue) && |m.queue| <= PENDING_MAX
    decreases |items|
  {
    hide Rising;
    if items == [] {
      assert gone + queue + items == gone + [] + queue;
    } else {
      var x, rest := items[0], items[1..];
      assert items == [x] + rest;
      if Delivered(t, k) {
        assert gone + queue + ([x] + rest) == gone + queue + items;
        WithoutOne(gone + queue, x, rest);
        SendRises(gone, queue, rest, t, k + 1);
      } else {
        var q := queue + [x];
        var cut := Overflow(q);
        var r := Send(q[cut..], rest, t, k + 1);
        SameItems(gone, queue, x, rest, cut);
        SendRises(gone + q[..cut], q[cut..], rest, t, k + 1);
        Regrouped(gone, q[..cut], r.evicted);
      }
    }
  }

  lemma SameItems(gone: seq<Item>, queue: seq<Item>, x: Item, rest: seq<Item>, cut: nat)
    requires cut <= |queue| + 1
    ensures var q := queue + [x]; gone + queue + ([x] + rest) == gone + q[..cut] + q[cut..] + rest
  {
    var q := queue + [x];
    assert q == q[..cut] + q[cut..];
    assert gone + queue + ([x] + rest) == gone + q + rest;
  }

  lemma Regrouped(a: seq<Item>, b: seq<Item>, c: seq<Item>)
    ensures a + b + c == a + (b + c)
  {
  }

  lemma {:induction false} NumberedRise(notes: seq<Note>, from: nat)
    ensures var xs := Numbered(notes, from);
            Rising(xs) && forall i | 0 <= i < |xs| :: from <= xs[i].number < from + |notes|
  {
    if notes != [] { NumberedRise(notes[1..], from + 1); }
  }

  lemma RisingConcat(a: seq<Item>, b: seq<Item>, m: nat)
    requires Rising(a) && Rising(b)
    requires (forall i | 0 <= i < |a| :: a[i].number < m) && (forall i | 0 <= i < |b| :: m <= b[i].number)
    ensures Rising(a + b)
  {
  }

  predicate AllBelow(xs: seq<Item>, m: nat) {
    forall i | 0 <= i < |xs| :: xs[i].number < m
  }

  lemma BelowConcat(a: seq<Item>, b: seq<Item>, m: nat)
    ensures AllBelow(a + b, m) <==> AllBelow(a, m) && AllBelow(b, m)
  {
    if AllBelow(a + b, m) {
      forall i | 0 <= i < |a| ensures a[i].number < m { assert a[i] == (a + b)[i]; }
      forall i | 0 <= i < |b| ensures b[i].number < m { assert b[i] == (a + b)[|a| + i]; }
    }
  }

  lemma BelowMore(xs: seq<Item>, m: nat, n: nat)
    requires AllBelow(xs, m) && m <= n
    ensures AllBelow(xs, n)
  {
  }

  /** The mail of one run keeps the accounts. */
  lemma MailAccounts(l: Ledger, s: Memory, items: seq<Item>, t: Tick, issued: nat)
    requires Accounts(l, s) && s.issued <= issued
    requires Rising(items) && AllBelow(items, issued) && forall i | 0 <= i < |items| :: s.issued <= items[i].number
    ensures var retried := Retry(s.pending, t, 0);
            var mail := Send(retried.queue, items, t, |s.pending|);
            Accounts(Ledger(l.passed + items, l.sent + (retried.sent + mail.sent), l.evicted + mail.evicted),
                     s.(pending := mail.queue, issued := issued))
  {
    hide Rising, AllBelow, Retry, Send, Accounts;
    var retried := Retry(s.pending, t, 0);
    var mail := Send(retried.queue, items, t, |s.pending|);
    AccountsMean(l, s);
    forall x ensures Count(retried.sent, x) + Count(retried.queue, x) == Count(s.pending, x) { RetryConserves(s.pending, t, 0, x); }
    forall x ensures Count(mail.sent, x) + Count(mail.queue, x) + Count(mail.evicted, x) == Count(retried.queue, x) + Count(items, x) {
      SendConserves(retried.queue, items, t, |s.pending|, x);
    }
    MailBags(l, s.pending, items, retried, mail);
    assert Rising(l.passed + items) && Rising(l.evicted + retried.queue + items) by {
      RetryRises(l.evicted, s.pending, t, 0);
      Fewer(s.pending, retried.queue, s.issued);
      BelowConcat(l.evicted, retried.queue, s.issued);
      Appended(l.passed, items, s.issued);
      Appended(l.evicted + retried.queue, items, s.issued);
    }
    assert |retried.queue| <= PENDING_MAX by { RetryRises(l.evicted, s.pending, t, 0); }
    SendRises(l.evicted, retried.queue, items, t, |s.pending|);
    MailBounds(l, s, items, retried, mail, issued);
    AccountsMean(Ledger(l.passed + items, l.sent + (retried.sent + mail.sent), l.evicted + mail.evicted),
                 s.(pending := mail.queue, issued := issued));
  }

  lemma Appended(a: seq<Item>, b: seq<Item>, m: nat)
    requires Rising(a) && Rising(b) && AllBelow(a, m) && forall i | 0 <= i < |b| :: m <= b[i].number
    ensures Rising(a + b)
  {
    RisingConcat(a, b, m);
  }

  lemma MailBags(l: Ledger, pending: seq<Item>, items: seq<Item>, retried: Mail, mail: Mail)
    requires Conserved(l.passed, l.sent, pending, l.evicted)
    requires forall x :: Count(retried.sent, x) + Count(retried.queue, x) == Count(pending, x)
    requires forall x :: Count(mail.sent, x) + Count(mail.queue, x) + Count(mail.evicted, x) == Count(retried.queue, x) + Count(items, x)
    ensures Conserved(l.passed + items, l.sent + (retried.sent + mail.sent), mail.queue, l.evicted + mail.evicted)
  {
    hide Count;
    forall x
      ensures Count(l.passed + items, x)
              == Count(l.sent + (retried.sent + mail.sent), x) + Count(mail.queue, x) + Count(l.evicted + mail.evicted, x)
    {
      CountJoin(l.passed, items, x);
      CountJoin(l.sent, retried.sent + mail.sent, x);
      CountJoin(retried.sent, mail.sent, x);
      CountJoin(l.evicted, mail.evicted, x);
    }
  }

  lemma MailBounds(l: Ledger, s: Memory, items: seq<Item>, retried: Mail, mail: Mail, issued: nat)
    requires s.issued <= issued && AllBelow(items, issued)
    requires AllBelow(l.passed, s.issued) && AllBelow(s.pending, s.issued) && AllBelow(l.evicted, s.issued)
    requires forall x :: Count(retried.sent, x) + Count(retried.queue, x) == Count(s.pending, x)
    requires forall x :: Count(mail.sent, x) + Count(mail.queue, x) + Count(mail.evicted, x) == Count(retried.queue, x) + Count(items, x)
    ensures AllBelow(l.passed + items, issued) && AllBelow(mail.queue, issued) && AllBelow(l.evicted + mail.evicted, issued)
  {
    hide AllBelow, Count;
    Fewer(s.pending, retried.queue, s.issued);
    BelowMore(l.passed, s.issued, issued);
    BelowMore(l.evicted, s.issued, issued);
    BelowMore(retried.queue, s.issued, issued);
    BelowConcat(l.passed, items, issued);
    BelowConcat(retried.queue, items, issued);
    forall x ensures Count(mail.queue, x) <= Count(retried.queue + items, x) && Count(mail.evicted, x) <= Count(retried.queue + items, x) {
      CountJoin(retried.queue, items, x);
    }
    Fewer(retried.queue + items, mail.queue, issued);
    Fewer(retried.queue + items, mail.evicted, issued);
    BelowConcat(l.evicted, mail.evicted, issued);
  }

  lemma AccountsMean(l: Ledger, s: Memory)
    ensures Accounts(l, s) <==>
            && Conserved(l.passed, l.sent, s.pending, l.evicted)
            && Rising(l.passed) && AllBelow(l.passed, s.issued)
            && Rising(l.evicted + s.pending) && AllBelow(s.pending, s.issued) && AllBelow(l.evicted, s.issued)
            && |s.pending| <= PENDING_MAX
  {
    hide Rising;
  }

  lemma Fewer(all: seq<Item>, some: seq<Item>, m: nat)
    requires (forall x :: Count(some, x) <= Count(all, x)) && AllBelow(all, m)
    ensures AllBelow(some, m)
  {
    forall i | 0 <= i < |some| ensures some[i].number < m {
      CountsIn(some, some[i]);
      CountsIn(all, some[i]);
    }
  }

  lemma CountsIn(xs: seq<Item>, x: Item)
    ensures x in xs <==> Count(xs, x) > 0
  {
    assert x in xs <==> x in multiset(xs);
  }

  /** One run keeps the accounts. */
  lemma RunAccounts(l: Ledger, s: Memory, h: Host, t: Tick)
    requires Accounts(l, s)
    ensures var r := RunOnce(s, h, t); Accounts(Booked(l, r), r.state)
  {
    hide Decide, Passed, Rising, Retry, Send, Numbered, Pruned, Stamped, RestartOrDefer, ModelStates, HasCritical, BlindNotes;
    var r := RunOnce(s, h, t);
    NumberedRise(Passed(r.plan.notes + r.extra, s.notified, t.now), s.issued);
    MailAccounts(l, s, r.passed, t, r.state.issued);
  }

  // ---- sequences of runs ------------------------------------------------------------------------

  datatype Past = Past(state: Memory, host: Host, ledger: Ledger)

  function RunAll(p: Past, ts: seq<Tick>): Past
    decreases |ts|
  {
    if ts == [] then p
    else
      var r := RunOnce(p.state, p.host, ts[0]);
      RunAll(Past(r.state, r.host, Booked(p.ledger, r)), ts[1..])
  }

  /** Over any run of the guard every message let through was sent, waits, or
      was pushed out by newer ones from a queue of at most twenty. */
  lemma {:induction false} NothingIsLost(p: Past, ts: seq<Tick>)
    requires Accounts(p.ledger, p.state)
    ensures var q := RunAll(p, ts); Accounts(q.ledger, q.state)
    decreases |ts|
  {
    hide RunOnce, Accounts;
    if ts != [] {
      var r := RunOnce(p.state, p.host, ts[0]);
      RunAccounts(p.ledger, p.state, p.host, ts[0]);
      NothingIsLost(Past(r.state, r.host, Booked(p.ledger, r)), ts[1..]);
    }
  }

  /** No message is sent twice, and none that was sent is kept or pushed out. */
  lemma SentOnce(l: Ledger, s: Memory, i: nat, j: nat)
    requires Accounts(l, s) && i < |l.sent| && j < |l.sent| && l.sent[i] == l.sent[j]
    ensures i == j && l.sent[i] !in s.pending && l.sent[i] !in l.evicted
  {
    hide Rising, Count;
    var x := l.sent[i];
    RisingOnce(l.passed, x);
    assert Count(l.passed, x) == Count(l.sent, x) + Count(s.pending, x) + Count(l.evicted, x);
    CountsIn(l.sent, x);
    CountsIn(s.pending, x);
    CountsIn(l.evicted, x);
    SameTwice(l.sent, i, j);
  }

  lemma SameTwice(xs: seq<Item>, i: nat, j: nat)
    requires i < |xs| && j < |xs| && xs[i] == xs[j]
    ensures i != j ==> Count(xs, xs[i]) >= 2
  {
    if i != j {
      var a, b := if i < j then i else j, if i < j then j else i;
      assert xs == xs[..a] + [xs[a]] + xs[a + 1..b] + [xs[b]] + xs[b + 1..];
    }
  }

  lemma {:induction false} RisingOnce(xs: seq<Item>, x: Item)
    requires Rising(xs)
    ensures Count(xs, x) <= 1
  {
    if xs != [] {
      var n := |xs| - 1;
      assert xs == xs[..n] + [xs[n]];
      RisingOnce(xs[..n], x);
      if xs[n] == x && x in xs[..n] {
        assert false;
      }
    }
  }

  // ---- dedupe over runs ----------------------------------------------------------------------------

  predicate LetsThrough(r: Run, key: Key) {
    exists x | x in r.passed :: x.key == key
  }

  /** Either the stamp of the key is still there, or its window is over. */
  predicate Remembered(s: Memory, key: Key, at: int, now: int) {
    (key in s.notified && s.notified[key] >= at) || now - at >= DEDUPE_WINDOW
  }

  lemma {:induction false} StampedIs(m: map<Key, int>, passed: seq<Note>, now: int, key: Key)
    ensures var u := Stamped(m, passed, now);
            if exists n | n in passed :: n.key == key then key in u && u[key] == now
            else (key in u <==> key in m) && (key in m ==> u[key] == m[key])
    decreases |passed|
  {
    if passed != [] { StampedIs(m[passed[0].key := now], passed[1..], now, key); }
  }

  lemma {:induction false} PassedIs(notes: seq<Note>, notified: map<Key, int>, now: int)
    ensures forall n :: n in Passed(notes, notified, now) <==> n in notes && Fires(n.key, notified, now)
  {
    hide Fires;
    if notes != [] { PassedIs(notes[1..], notified, now); }
  }

  lemma {:induction false} NumberedKeys(notes: seq<Note>, from: nat, key: Key)
    ensures (exists x | x in Numbered(notes, from) :: x.key == key) <==> (exists n | n in notes :: n.key == key)
  {
    if notes != [] {
      NumberedKeys(notes[1..], from + 1, key);
      var xs := Numbered(notes, from);
      assert xs[0] in xs && notes[0] in notes;
      assert forall x :: x in xs <==> x == xs[0] || x in xs[1..];
      assert forall n :: n in notes <==> n == notes[0] || n in notes[1..];
    }
  }

  /** What a run lets through, and what it stamps. */
  lemma RunDedupes(s: Memory, h: Host, t: Tick, key: Key)
    ensures var r := RunOnce(s, h, t);
            && (LetsThrough(r, key) <==> (exists n | n in r.plan.notes + r.extra :: n.key == key) && Fires(key, s.notified, t.now))
            && (LetsThrough(r, key) ==> key in r.state.notified && r.state.notified[key] == t.now)
            && (!LetsThrough(r, key) ==>
                  (key in r.state.notified <==> key in s.notified && s.notified[key] > t.now - DEDUPE_RETENTION)
                  && (key in r.state.notified ==> r.state.notified[key] == s.notified[key]))
  {
    hide Decide, Retry, Send, RestartOrDefer, ModelStates, HasCritical, BlindNotes, Passed, Numbered, Stamped;
    var r := RunOnce(s, h, t);
    var notes := r.plan.notes + r.extra;
    var passed := Passed(notes, s.notified, t.now);
    PassedIs(notes, s.notified, t.now);
    NumberedKeys(passed, s.issued, key);
    StampedIs(Pruned(s.notified, t.now), passed, t.now, key);
  }

  lemma RememberedStays(s: Memory, h: Host, t: Tick, key: Key, at: int, now: int)
    requires Remembered(s, key, at, now) && now <= t.now && at <= now
    ensures var r := RunOnce(s, h, t);
            && Remembered(r.state, key, at, t.now)
            && (LetsThrough(r, key) ==> t.now - at >= DEDUPE_WINDOW)
  {
    hide RunOnce, LetsThrough;
    RunDedupes(s, h, t, key);
  }

  predicate Clocked(ts: seq<Tick>, now: int) {
    ts == [] || (now <= ts[0].now && Clocked(ts[1..], ts[0].now))
  }

  /** The state and host a run of the sequence finds. */
  function Before(p: Past, ts: seq<Tick>, i: nat): Past
    requires i <= |ts|
  {
    RunAll(p, ts[..i])
  }

  function RunAt(p: Past, ts: seq<Tick>, i: nat): Run
    requires i < |ts|
  {
    RunOnce(Before(p, ts, i).state, Before(p, ts, i).host, ts[i])
  }

  lemma RunAtLater(p: Past, ts: seq<Tick>, i: nat)
    requires 0 < i < |ts|
    ensures var r := RunOnce(p.state, p.host, ts[0]);
            RunAt(p, ts, i) == RunAt(Past(r.state, r.host, Booked(p.ledger, r)), ts[1..], i - 1)
  {
    hide RunOnce;
    assert ts[..i][0] == ts[0] && ts[..i][1..] == ts[1..][..i - 1];
  }

  lemma {:induction false} RememberedUntil(p: Past, ts: seq<Tick>, j: nat, key: Key, at: int, now: int)
    requires Clocked(ts, now) && at <= now && Remembered(p.state, key, at, now) && j < |ts|
    ensures LetsThrough(RunAt(p, ts, j), key) ==> ts[j].now - at >= DEDUPE_WINDOW
    decreases |ts|
  {
    hide RunOnce, LetsThrough, Remembered;
    RememberedStays(p.state, p.host, ts[0], key, at, now);
    var r := RunOnce(p.state, p.host, ts[0]);
    if j == 0 {
      assert ts[..0] == [];
    } else {
      RunAtLater(p, ts, j);
      RememberedUntil(Past(r.state, r.host, Booked(p.ledger, r)), ts[1..], j - 1, key, at, ts[0].now);
    }
  }

  /** No news twice within six hours: two different runs that let the same key
      through are that far apart, however the map was pruned in between. */
  lemma {:induction false} NotTwiceInSixHours(p: Past, ts: seq<Tick>, i: nat, j: nat, key: Key, now: int)
    requires Clocked(ts, now) && i < j < |ts|
    requires LetsThrough(RunAt(p, ts, i), key) && LetsThrough(RunAt(p, ts, j), key)
    ensures ts[j].now - ts[i].now >= DEDUPE_WINDOW
    decreases |ts|
  {
    hide RunOnce, LetsThrough;
    var r := RunOnce(p.state, p.host, ts[0]);
    var next := Past(r.state, r.host, Booked(p.ledger, r));
    RunAtLater(p, ts, j);
    if i == 0 {
      assert ts[..0] == [];
      RunDedupes(p.state, p.host, ts[0], key);
      RememberedUntil(next, ts[1..], j - 1, key, ts[0].now, ts[0].now);
    } else {
      RunAtLater(p, ts, i);
      NotTwiceInSixHours(next, ts[1..], i - 1, j - 1, key, ts[0].now);
    }
  }

  // ---- the restart debt ------------------------------------------------------------------------------

  predicate Solvent(s: Memory) {
    s.debt.Some? ==> 1 <= s.debt.value.deferrals <= RESTART_DEFER_MAX
  }

  /** A debt is cleared only by an attempt, and an attempt always clears it; a
      call that finds the third deferral attempts, whatever is in flight. */
  lemma DebtOfRun(s: Memory, h: Host, t: Tick)
    requires Solvent(s)
    ensures var r := RunOnce(s, h, t);
            && Solvent(r.state)
            && (r.attempted ==> r.called && r.state.debt == None)
            && (s.debt.Some? && r.state.debt == None ==> r.attempted)
            && (r.called && s.debt.Some? && s.debt.value.deferrals == RESTART_DEFER_MAX ==> r.attempted)
            && (r.called && !r.attempted ==>
                  r.state.debt.Some? && t.inflight > 0
                  && r.state.debt.value == if s.debt.Some? then Debt(s.debt.value.since, s.debt.value.deferrals + 1) else Debt(t.now, 1))
            && (!r.called ==> r.state.debt == s.debt)
            && (s.debt.Some? && !r.called ==> r.plan.newConfig.Some? && !t.written)
  {
    hide Decide, Retry, Send, ModelStates, HasCritical, BlindNotes, Passed, Numbered, Stamped;
  }

  /** The process runs what is on disk, or a restart is owed, or the last
      attempt failed. */
  predicate InStep(s: Memory, h: Host, failed: bool) {
    h.running == h.disk || s.debt.Some? || failed
  }

  /** Did the last attempt fail, with nothing written since? */
  predicate FailedBy(r: Run, h: Host, t: Tick, failed: bool) {
    if r.attempted then !t.restarted else failed && r.host.disk == h.disk
  }

  predicate FailedAfter(p: Past, ts: seq<Tick>, failed: bool)
    decreases |ts|
  {
    if ts == [] then failed
    else
      var r := RunOnce(p.state, p.host, ts[0]);
      FailedAfter(Past(r.state, r.host, Booked(p.ledger, r)), ts[1..], FailedBy(r, p.host, ts[0], failed))
  }

  lemma RunInStep(s: Memory, h: Host, t: Tick, failed: bool)
    requires InStep(s, h, failed) && Solvent(s)
    ensures var r := RunOnce(s, h, t);
            InStep(r.state, r.host, FailedBy(r, h, t, failed))
  {
    hide Decide, Retry, Send, ModelStates, HasCritical, BlindNotes, Passed, Numbered, Stamped;
  }

  /** Over any sequence of runs: the process runs what is on disk, or a restart
      is owed, or the last attempt failed and nothing was written since. */
  lemma {:induction false} StaysInStep(p: Past, ts: seq<Tick>, failed: bool)
    requires InStep(p.state, p.host, failed) && Solvent(p.state)
    ensures var q := RunAll(p, ts);
            InStep(q.state, q.host, FailedAfter(p, ts, failed)) && Solvent(q.state)
    decreases |ts|
  {
    hide RunOnce, InStep, Solvent, FailedBy;
    if ts != [] {
      var r := RunOnce(p.state, p.host, ts[0]);
      RunInStep(p.state, p.host, ts[0], failed);
      DebtOfRun(p.state, p.host, ts[0]);
      StaysInStep(Past(r.state, r.host, Booked(p.ledger, r)), ts[1..], FailedBy(r, p.host, ts[0], failed));
    }
  }

  /** How many runs of the sequence call for a restart, up to the first that
      attempts one. */
  predicate AttemptedWithin(p: Past, ts: seq<Tick>)
    decreases |ts|
  {
    ts != [] &&
    (var r := RunOnce(p.state, p.host, ts[0]);
     r.attempted || AttemptedWithin(Past(r.state, r.host, Booked(p.ledger, r)), ts[1..]))
  }

  predicate EachCalls(p: Past, ts: seq<Tick>)
    decreases |ts|
  {
    ts == [] ||
    (var r := RunOnce(p.state, p.host, ts[0]);
     r.called && EachCalls(Past(r.state, r.host, Booked(p.ledger, r)), ts[1..]))
  }

  /** A restart that is owed is attempted after at most three deferrals. */
  lemma {:induction false} DebtIsPaid(p: Past, ts: seq<Tick>)
    requires Solvent(p.state) && EachCalls(p, ts)
    requires |ts| > RESTART_DEFER_MAX - if p.state.debt.Some? then p.state.debt.value.deferrals else 0
    ensures AttemptedWithin(p, ts)
    decreases |ts|
  {
    hide RunOnce;
    var r := RunOnce(p.state, p.host, ts[0]);
    DebtOfRun(p.state, p.host, ts[0]);
    if !r.attempted { DebtIsPaid(Past(r.state, r.host, Booked(p.ledger, r)), ts[1..]); }
  }

  // ---- endpoints and keys ---------------------------------------------------------------------------------

  lemma RunGenuine(c0: Config, s: Memory, h: Host, t: Tick)
    requires L.AllGenuine(c0, h.disk) && L.AllGenuine(c0, h.running)
    ensures var h' := RunOnce(s, h, t).host; L.AllGenuine(c0, h'.disk) && L.AllGenuine(c0, h'.running)
  {
    hide Pricing, Retry, Send, RestartOrDefer, ModelStates, HasCritical, BlindNotes, Passed, Numbered, Stamped, Pruned,
         L.AllGenuine;
    if Seen(t).Some? { L.PricingGenuine(c0, h.disk, Seen(t).value, s.models); }
  }

  /** Over any runs, whatever the catalogue says meanwhile: on disk and in the
      running process, every primary and fallback is one the operator wrote,
      with its own endpoint and key, or a curated one without a key. */
  lemma {:induction false} KeysStayTogether(c0: Config, p: Past, ts: seq<Tick>)
    requires L.AllGenuine(c0, p.host.disk) && L.AllGenuine(c0, p.host.running)
    ensures var h := RunAll(p, ts).host; L.AllGenuine(c0, h.disk) && L.AllGenuine(c0, h.running)
    decreases |ts|
  {
    hide RunOnce, L.AllGenuine;
    if ts != [] {
      var r := RunOnce(p.state, p.host, ts[0]);
      RunGenuine(c0, p.state, p.host, ts[0]);
      KeysStayTogether(c0, Past(r.state, r.host, Booked(p.ledger, r)), ts[1..]);
    }
  }

  // ---- baselines -----------------------------------------------------------------------------------------

  /** The reading later runs compare with. */
  function Baseline(before: Option<real>, t: Tick): Option<real> {
    if t.usage.Some? then t.usage else before
  }

  function LastSeen(before: Option<real>, ts: seq<Tick>): Option<real>
    decreases |ts|
  {
    if ts == [] then before
    else LastSeen(Baseline(before, ts[0]), ts[1..])
  }

  function BlindFor(before: nat, ts: seq<Tick>): nat
    decreases |ts|
  {
    if ts == [] then before else BlindFor(if Failed(ts[0]) then before + 1 else 0, ts[1..])
  }

  /** The usage a run compares with is the last one ever read, and the blind
      counter counts exactly the failed runs since the last good one. */
  lemma {:induction false} BaselinesFollow(p: Past, ts: seq<Tick>)
    ensures RunAll(p, ts).state.lastUsage == LastSeen(p.state.lastUsage, ts)
    ensures RunAll(p, ts).state.failures == BlindFor(p.state.failures, ts)
    decreases |ts|
  {
    hide Decide, Retry, Send, ModelStates, HasCritical, BlindNotes, Passed, Numbered, Stamped, RestartOrDefer, Pruned;
    if ts != [] {
      var r := RunOnce(p.state, p.host, ts[0]);
      BaselinesFollow(Past(r.state, r.host, Booked(p.ledger, r)), ts[1..]);
    }
  }

  // ---- the spending alarm ---------------------------------------------------------------------------------

  /** The run has the alarm to tell. */
  predicate Alarms(r: Run) {
    exists n | n in r.plan.notes + r.extra :: n.key == UsageGrew
  }

  /** A reading that is known and more than a tenth of a cent above the one
      before, if that is known. */
  predicate Jumps(before: Option<real>, now: Option<real>) {
    before.Some? && now.Some? && now.value - before.value > 0.001
  }

  lemma AlarmIffJump(s: Memory, h: Host, t: Tick)
    ensures Alarms(RunOnce(s, h, t)) <==> Jumps(s.lastUsage, t.usage)
  {
    hide Pricing, Retry, Send, ModelStates, HasCritical, Passed, Numbered, Stamped, RestartOrDefer, Pruned;
    if Seen(t).Some? { L.PricingTellsOfModels(h.disk, Seen(t).value, s.models); }
    var r := RunOnce(s, h, t);
    if Jumps(s.lastUsage, t.usage) {
      assert r.plan.notes[0] == Note(UsageGrew, true) && r.plan.notes[0] in r.plan.notes + r.extra;
    }
  }

  /** The alarm is told if and only if the reading jumps and the last alarm was
      told six hours ago or more. */
  lemma ToldIff(s: Memory, h: Host, t: Tick)
    ensures LetsThrough(RunOnce(s, h, t), UsageGrew)
            <==> Jumps(s.lastUsage, t.usage) && Fires(UsageGrew, s.notified, t.now)
  {
    hide RunOnce, Jumps, Fires;
    AlarmIffJump(s, h, t);
    RunDedupes(s, h, t, UsageGrew);
  }

  lemma RunRemembers(s: Memory, h: Host, t: Tick)
    ensures RunOnce(s, h, t).state.lastUsage == Baseline(s.lastUsage, t)
  {
    hide Decide, Retry, Send, ModelStates, HasCritical, BlindNotes, Passed, Numbered, Stamped, RestartOrDefer, Pruned;
  }

  /** No run of the sequence lets the alarm through. */
  predicate Silent(p: Past, ts: seq<Tick>)
    decreases |ts|
  {
    ts == [] ||
    (var r := RunOnce(p.state, p.host, ts[0]);
     !LetsThrough(r, UsageGrew) && Silent(Past(r.state, r.host, Booked(p.ledger, r)), ts[1..]))
  }

  /** When the alarm was last told, as far as state.json remembers. */
  function LastTold(s: Memory): Option<int> {
    if UsageGrew in s.notified then Some(s.notified[UsageGrew]) else None
  }

  predicate Due(told: Option<int>, now: int) {
    told == None || now - told.value >= DEDUPE_WINDOW
  }

  /** Every reading that jumps comes less than six hours after the last alarm. */
  predicate Muffled(before: Option<real>, told: Option<int>, ts: seq<Tick>)
    decreases |ts|
  {
    ts == [] ||
    (!(Jumps(before, ts[0].usage) && Due(told, ts[0].now)) && Muffled(Baseline(before, ts[0]), told, ts[1..]))
  }

  /** The stamp is as it was, or pruned long after its window was over. */
  predicate Recalls(s: Memory, told: Option<int>, now: int) {
    LastTold(s) == told || (LastTold(s) == None && Due(told, now))
  }

  lemma RunRecalls(s: Memory, h: Host, t: Tick, told: Option<int>, now: int)
    requires Recalls(s, told, now) && now <= t.now
    ensures var r := RunOnce(s, h, t);
            && (LetsThrough(r, UsageGrew) <==> Jumps(s.lastUsage, t.usage) && Due(told, t.now))
            && (!LetsThrough(r, UsageGrew) ==> Recalls(r.state, told, t.now))
  {
    hide RunOnce, LetsThrough, Jumps;
    ToldIff(s, h, t);
    RunDedupes(s, h, t, UsageGrew);
  }

  lemma {:induction false} SilentMuffled(p: Past, ts: seq<Tick>, told: Option<int>, now: int)
    requires Clocked(ts, now) && Recalls(p.state, told, now)
    ensures Silent(p, ts) <==> Muffled(p.state.lastUsage, told, ts)
    decreases |ts|
  {
    hide RunOnce, LetsThrough, Jumps, Baseline, Recalls, Due;
    if ts != [] {
      var r := RunOnce(p.state, p.host, ts[0]);
      RunRecalls(p.state, p.host, ts[0], told, now);
      RunRemembers(p.state, p.host, ts[0]);
      if !LetsThrough(r, UsageGrew) {
        SilentMuffled(Past(r.state, r.host, Booked(p.ledger, r)), ts[1..], told, ts[0].now);
      }
    }
  }

  /** When runs stay silent about spending: if and only if every good reading is
      at most a tenth of a cent above the good one before it, or comes less
      than six hours after the alarm was last told. */
  lemma SilenceIff(p: Past, ts: seq<Tick>, now: int)
    requires Clocked(ts, now)
    ensures Silent(p, ts) <==> Muffled(p.state.lastUsage, LastTold(p.state), ts)
  {
    hide Silent, Muffled, Clocked;
    SilentMuffled(p, ts, LastTold(p.state), now);
  }

  /** What the jumps of the readings add up to. */
  function Spree(before: Option<real>, ts: seq<Tick>): real
    decreases |ts|
  {
    if ts == [] then 0.0
    else
      (if Jumps(before, ts[0].usage) then ts[0].usage.value - before.value else 0.0) + Spree(Baseline(before, ts[0]), ts[1..])
  }

  lemma {:induction false} SmallStepsAndSpree(before: Option<real>, ts: seq<Tick>)
    requires before.Some?
    ensures var last := LastSeen(before, ts);
            last.Some? && last.value - before.value <= 0.001 * |ts| as real + Spree(before, ts)
    decreases |ts|
  {
    if ts != [] { SmallStepsAndSpree(Baseline(before, ts[0]), ts[1..]); }
  }

  /** Once the window is over, silence means there are no jumps. */
  lemma {:induction false} NoSpreeWhenDue(before: Option<real>, told: Option<int>, ts: seq<Tick>, now: int)
    requires Clocked(ts, now) && Muffled(before, told, ts) && Due(told, now)
    ensures Spree(before, ts) == 0.0
    decreases |ts|
  {
    hide Jumps, Baseline;
    if ts != [] { NoSpreeWhenDue(Baseline(before, ts[0]), told, ts[1..], ts[0].now); }
  }

  /** What silent runs can hide: a tenth of a cent a run, blind runs included,
      and all that is spent in jumps within six hours of the last alarm; with
      that alarm six hours old when they begin, or none told, no jump at all. */
  lemma SilenceIsCheap(p: Past, ts: seq<Tick>, now: int)
    requires p.state.lastUsage.Some? && Clocked(ts, now) && Silent(p, ts)
    ensures var last, spree := RunAll(p, ts).state.lastUsage, Spree(p.state.lastUsage, ts);
            && last.Some? && last.value - p.state.lastUsage.value <= 0.001 * |ts| as real + spree
            && (Due(LastTold(p.state), now) ==> spree == 0.0)
  {
    hide Silent, RunAll, Clocked, Muffled, Spree, Due, LastTold;
    SilenceIff(p, ts, now);
    BaselinesFollow(p, ts);
    SmallStepsAndSpree(p.state.lastUsage, ts);
    if Due(LastTold(p.state), now) { NoSpreeWhenDue(p.state.lastUsage, LastTold(p.state), ts, now); }
  }

  lemma {:induction false} WindowMuffles(before: Option<real>, told: Option<int>, ts: seq<Tick>)
    requires forall i | 0 <= i < |ts| :: !Due(told, ts[i].now)
    ensures Muffled(before, told, ts)
    decreases |ts|
  {
    if ts != [] {
      forall i | 0 <= i < |ts[1..]| ensures !Due(told, ts[1..][i].now) { assert ts[1..][i] == ts[i + 1]; }
      WindowMuffles(Baseline(before, ts[0]), told, ts[1..]);
    }
  }

  /** Less than six hours after an alarm nothing is told, whatever is spent. */
  lemma SixHoursUnwatched(p: Past, ts: seq<Tick>, now: int)
    requires Clocked(ts, now) && forall i | 0 <= i < |ts| :: !Due(LastTold(p.state), ts[i].now)
    ensures Silent(p, ts)
  {
    hide Silent, Muffled, Due, LastTold, Clocked;
    WindowMuffles(p.state.lastUsage, LastTold(p.state), ts);
    SilenceIff(p, ts, now);
  }

  /** A thousand dollars, half an hour after an alarm: the plan has the alarm,
      nobody is told, and the next run compares with the new reading. */
  lemma ThousandUnseen(h: Host, t: Tick)
    requires t.now == 1800 && t.usage == Some(1000.0)
    ensures var s := Memory(Some(0.0), map[UsageGrew := 0], map[], 0, [], None, 0);
            var r := RunOnce(s, h, t);
            Alarms(r) && !LetsThrough(r, UsageGrew) && r.state.lastUsage == Some(1000.0)
  {
    hide RunOnce, LetsThrough, Alarms;
    var s := Memory(Some(0.0), map[UsageGrew := 0], map[], 0, [], None, 0);
    AlarmIffJump(s, h, t);
    ToldIff(s, h, t);
    RunRemembers(s, h, t);
  }

  // ---- a drip ------------------------------------------------------------------------------------------------

  /** A tenth of a cent more at every run. */
  predicate Drips(from: real, ts: seq<Tick>) {
    forall i | 0 <= i < |ts| :: ts[i].usage == Some(from + 0.001 * (i + 1) as real)
  }

  /** The bound is reached without a word: usage that grows by exactly $0.001
      a run is told to nobody over any number of runs, whenever they happen,
      and adds up to $0.001 times that number. */
  lemma {:induction false} DripIsSilent(p: Past, ts: seq<Tick>)
    requires p.state.lastUsage.Some? && Drips(p.state.lastUsage.value, ts)
    ensures Silent(p, ts)
    ensures RunAll(p, ts).state.lastUsage == Some(p.state.lastUsage.value + 0.001 * |ts| as real)
    decreases |ts|
  {
    hide RunOnce, LetsThrough;
    if ts != [] {
      var r := RunOnce(p.state, p.host, ts[0]);
      var next := p.state.lastUsage.value + 0.001;
      ToldIff(p.state, p.host, ts[0]);
      RunRemembers(p.state, p.host, ts[0]);
      assert ts[0].usage == Some(next);
      forall i | 0 <= i < |ts[1..]| ensures ts[1..][i].usage == Some(next + 0.001 * (i + 1) as real) {
        assert ts[1..][i] == ts[i + 1];
      }
      DripIsSilent(Past(r.state, r.host, Booked(p.ledger, r)), ts[1..]);
    }
  }

  // ---- what one run sends and answers ------------------------------------------------------

  /** Of these messages, tried in turn, those that were delivered or those that
      were not. */
  function Picked(items: seq<Item>, t: Tick, k: nat, delivered: bool): seq<Item>
    decreases |items|
  {
    if items == [] then []
    else (if (k < |t.delivered| && t.delivered[k]) == delivered then [items[0]] else []) + Picked(items[1..], t, k + 1, delivered)
  }

  lemma {:induction false} PickedConcat(a: seq<Item>, b: seq<Item>, t: Tick, k: nat, delivered: bool)
    ensures Picked(a + b, t, k, delivered) == Picked(a, t, k, delivered) + Picked(b, t, k + |a|, delivered)
    decreases |a|
  {
    if a == [] {
      assert a + b == b;
    } else {
      assert (a + b)[1..] == a[1..] + b;
      PickedConcat(a[1..], b, t, k + 1, delivered);
    }
  }

  lemma {:induction false} RetryPicks(items: seq<Item>, t: Tick, k: nat)
    ensures var m := Retry(items, t, k);
            m.sent == Picked(items, t, k, true) && m.queue == Picked(items, t, k, false) && |m.queue| <= |items|
    decreases |items|
  {
    if items != [] { RetryPicks(items[1..], t, k + 1); }
  }

  lemma {:induction false} SendPicks(queue: seq<Item>, items: seq<Item>, t: Tick, k: nat)
    requires |queue| <= 20
    ensures var m := Send(queue, items, t, k);
            && m.sent == Picked(items, t, k, true) && m.evicted + m.queue == queue + Picked(items, t, k, false)
            && |m.queue| <= 20 && (m.evicted != [] ==> |m.queue| == 20)
    decreases |items|
  {
    hide Overflow, Picked;
    PickedOne(items, t, k, true);
    PickedOne(items, t, k, false);
    if items == [] {
      assert queue + [] == queue;
    } else {
      var rest := Picked(items[1..], t, k + 1, false);
      if Delivered(t, k) {
        SendPicks(queue, items[1..], t, k + 1);
        assert [] + rest == rest;
      } else {
        var q := queue + [items[0]];
        Overflows(q);
        SendPicks(q[Overflow(q)..], items[1..], t, k + 1);
        QueueStaysFull(q[Overflow(q)..], items[1..], t, k + 1);
        var r := Send(q[Overflow(q)..], items[1..], t, k + 1);
        CutAndJoined(queue, items[0], Overflow(q), r.evicted, r.queue, rest);
      }
    }
  }

  lemma PickedOne(items: seq<Item>, t: Tick, k: nat, delivered: bool)
    ensures Picked(items, t, k, delivered) ==
              if items == [] then []
              else (if Delivered(t, k) == delivered then [items[0]] else []) + Picked(items[1..], t, k + 1, delivered)
  {
  }

  lemma Overflows(q: seq<Item>)
    requires |q| <= 21
    ensures Overflow(q) == (if |q| == 21 then 1 else 0) && |q[Overflow(q)..]| <= 20
  {
  }

  lemma CutAndJoined(queue: seq<Item>, x: Item, cut: nat, evicted: seq<Item>, waits: seq<Item>, rest: seq<Item>)
    requires cut <= |queue| + 1 && evicted + waits == (queue + [x])[cut..] + rest
    ensures (queue + [x])[..cut] + evicted + waits == queue + ([x] + rest)
  {
    var q := queue + [x];
    assert q[..cut] + evicted + waits == q[..cut] + (evicted + waits);
    assert q[..cut] + (q[cut..] + rest) == q + rest;
  }

  lemma {:induction false} QueueStaysFull(queue: seq<Item>, items: seq<Item>, t: Tick, k: nat)
    requires |queue| <= 20
    ensures |queue| <= |Send(queue, items, t, k).queue| <= 20
    decreases |items|
  {
    if items != [] {
      var q := queue + [items[0]];
      QueueStaysFull(if Delivered(t, k) then queue else q[Overflow(q)..], items[1..], t, k + 1);
    }
  }

  /** The mail of a run: old messages are tried first, then the new ones; what
      was delivered is what is sent, what was not waits in the same order, and
      only a full queue loses its oldest. */
  lemma MailIs(s: Memory, h: Host, t: Tick)
    requires |s.pending| <= 20
    ensures var r := RunOnce(s, h, t);
            && r.sent == Picked(s.pending + r.passed, t, 0, true)
            && r.evicted + r.state.pending == Picked(s.pending + r.passed, t, 0, false)
            && |r.state.pending| <= 20 && (r.evicted != [] ==> |r.state.pending| == 20)
  {
    hide Decide, Picked, Retry, Send, Passed, Numbered, Stamped, Pruned, Accounts, BlindNotes, RestartOrDefer;
    var r, q := RunOnce(s, h, t), Retry(s.pending, t, 0).queue;
    RetryPicks(s.pending, t, 0);
    SendPicks(q, r.passed, t, |s.pending|);
    PickedConcat(s.pending, r.passed, t, 0, true);
    PickedConcat(s.pending, r.passed, t, 0, false);
  }

  /** What a run answers: 1 if and only if it planned something critical or a
      restart it owed failed, even when nobody is told again; else 2 if and only
      if it could not read the usage, the configuration or the catalogue. And
      what it adds to the plan's news: that it is blind, from the third such run
      in a row, and that an owed restart was done or failed. */
  lemma RunAnswers(s: Memory, h: Host, t: Tick)
    ensures var r := RunOnce(s, h, t);
            var blind := t.usage == None || !t.readable || t.index == None;
            var paid := r.plan.newConfig == None && r.attempted;
            && r.plan == Decide(h.disk, if t.readable then t.index else None, s.lastUsage, t.usage, s.models)
            && (r.code == 1 <==> (exists n | n in r.plan.notes :: n.critical) || (paid && !t.restarted))
            && (r.code == 2 <==> r.code != 1 && blind) && r.code in {0, 1, 2}
            && (forall n :: n in r.extra <==> (n == Note(GuardBlind, false) && blind && s.failures >= 2)
                                              || (paid && n == Note(RestartDone(t.now), !t.restarted)))
  {
    hide Decide, Retry, Send, Passed, Numbered, Stamped, Pruned, RestartOrDefer;
    var r := RunOnce(s, h, t);
    var done := if r.plan.newConfig == None && r.attempted then [Note(RestartDone(t.now), !t.restarted)] else [];
    assert r.extra == BlindNotes(s, t) + done;
    if r.plan.newConfig == None && r.attempted { assert done[0] in r.extra; }
  }

  /** The restart of a run: due after a rewrite that reached the disk, or while
      one is owed and nothing was to be rewritten; put off, at most three times,
      while requests are in flight. Then it is attempted, and with it the
      process takes up what is on disk. */
  lemma RestartWhen(s: Memory, h: Host, t: Tick)
    ensures var r := RunOnce(s, h, t);
            var due := if r.plan.newConfig.Some? then t.written else s.debt.Some?;
            var waits := t.inflight > 0 && (s.debt == None || s.debt.value.deferrals < 3);
            && (r.attempted <==> due && !waits)
            && r.host.disk == (if r.plan.newConfig.Some? && t.written then r.plan.newConfig.value else h.disk)
            && r.host.running == (if r.attempted && t.restarted then r.host.disk else h.running)
            && r.state.debt == (if !due then s.debt
                                else if !waits then None
                                else if s.debt == None then Some(Debt(t.now, 1))
                                else Some(Debt(s.debt.value.since, s.debt.value.deferrals + 1)))
  {
    hide Decide, Retry, Send, Passed, Numbered, Stamped, Pruned, BlindNotes, HasCritical;
  }
}
