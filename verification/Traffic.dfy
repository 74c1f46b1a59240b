/** The hysteria traffic bridge: apply_deltas, find_kickable and the loop of
    main (scripts/hy2_traffic_collector.py). */
module Traffic {
  import opened Wrappers
  import opened Dict

  /** tx: what the server sent, the user's download; rx: the user's upload. */
  datatype Bytes = Bytes(tx: int, rx: int)

  type Deltas = Dict<string, Bytes>

  /** A row of client_traffics. */
  datatype Account = Account(up: int, down: int, enable: bool, total: Option<int>, expiry: Option<int>, lastOnline: int)

  type Accounts = Dict<string, Account>

  datatype Direction = Tx | Rx

  function Amount(b: Bytes, dir: Direction): int {
    if dir == Tx then b.tx else b.rx
  }

  /** What a list of deltas holds for one user in one direction. */
  function For(id: string, dir: Direction): (string, Bytes) -> int {
    (k: string, b: Bytes) => if k == id then Amount(b, dir) else 0
  }

  function Held(d: Deltas, id: string, dir: Direction): int {
    Sum(d, For(id, dir))
  }

  // ---- accumulate ---------------------------------------------------------------------

  function Plus(a: Bytes, b: Bytes): Bytes { Bytes(a.tx + b.tx, a.rx + b.rx) }

  function Merge(pending: Deltas, polled: Deltas): Deltas {
    if polled == [] then pending
    else
      var n := |polled| - 1;
      var p := Merge(pending, polled[..n]);
      Put(p, polled[n].key, Plus(Get(p, polled[n].key, Bytes(0, 0)), polled[n].value))
  }

  // ---- apply ----------------------------------------------------------------------------

  /** UPDATE ... SET up = up + rx, down = down + tx WHERE email = id. */
  function Charged(db: Accounts, id: string, b: Bytes, now: int): Accounts {
    if (b.tx == 0 && b.rx == 0) || !Has(db, id) then db
    else
      var a := db[Find(db, id)].value;
      Put(db, id, a.(up := a.up + b.rx, down := a.down + b.tx, lastOnline := now))
  }

  function ChargedAll(db: Accounts, pending: Deltas, now: int): Accounts {
    if pending == [] then db
    else
      var n := |pending| - 1;
      Charged(ChargedAll(db, pending[..n], now), pending[n].key, pending[n].value, now)
  }

  /** The deltas of ids with a row, or of those without. */
  function Metered(db: Accounts, pending: Deltas, known: bool): Deltas {
    if pending == [] then []
    else (if Has(db, pending[0].key) == known then [pending[0]] else []) + Metered(db, pending[1..], known)
  }

  // ---- rounds ------------------------------------------------------------------------------

  /** Where every fetched byte went. */
  datatype Books = Books(fetched: Deltas, applied: Deltas, lost: Deltas)

  datatype Bridge = Bridge(pending: Deltas, db: Accounts, books: Books)

  /** One turn of the loop, or the panel changing its table. `stored` tells
      whether the transaction committed; any failure undoes it. */
  datatype Event = Round(polled: Option<Deltas>, stored: bool, now: int) | Panel(db: Accounts)

  function Turn(b: Bridge, ev: Event): Bridge {
    match ev
    case Panel(db) => b.(db := db)
    case Round(polled, stored, now) =>
      var pending := if polled.Some? then Merge(b.pending, polled.value) else b.pending;
      var fetched := b.books.fetched + if polled.Some? then polled.value else [];
      if pending == [] || !stored then b.(pending := pending, books := b.books.(fetched := fetched))
      else
        Bridge([], ChargedAll(b.db, pending, now),
               Books(fetched, b.books.applied + Metered(b.db, pending, true), b.books.lost + Metered(b.db, pending, false)))
  }

  function Turns(b: Bridge, evs: seq<Event>): Bridge
    decreases |evs|
  {
    if evs == [] then b else Turns(Turn(b, evs[0]), evs[1..])
  }

  // ---- conservation ----------------------------------------------------------------------------

  predicate Balanced(b: Bridge, id: string, dir: Direction) {
    Held(b.books.fetched, id, dir)
    == Held(b.books.applied, id, dir) + Held(b.pending, id, dir) + Held(b.books.lost, id, dir)
  }

  lemma HeldPlus(d: Deltas, k: string, b: Bytes, id: string, dir: Direction)
    ensures Held(Put(d, k, Plus(Get(d, k, Bytes(0, 0)), b)), id, dir) == Held(d, id, dir) + For(id, dir)(k, b)
  {
    hide Find, Put, Sum;
    SumPut(d, k, Plus(Get(d, k, Bytes(0, 0)), b), For(id, dir));
  }

  lemma {:induction false} MergeHolds(pending: Deltas, polled: Deltas, id: string, dir: Direction)
    ensures Held(Merge(pending, polled), id, dir) == Held(pending, id, dir) + Held(polled, id, dir)
  {
    hide Sum, For, Put, Get, Plus;
    if polled == [] {
      assert Held([], id, dir) == 0 by { NothingHeld(id, dir); }
    } else {
      var n := |polled| - 1;
      MergeHolds(pending, polled[..n], id, dir);
      HeldPlus(Merge(pending, polled[..n]), polled[n].key, polled[n].value, id, dir);
      HeldSnoc(polled, id, dir);
    }
  }

  lemma NothingHeld(id: string, dir: Direction)
    ensures Held([], id, dir) == 0
  {
  }

  lemma HeldSnoc(d: Deltas, id: string, dir: Direction)
    requires d != []
    ensures var n := |d| - 1; Held(d, id, dir) == Held(d[..n], id, dir) + For(id, dir)(d[n].key, d[n].value)
  {
    var n := |d| - 1;
    assert d == d[..n] + ([d[n]] + []);
    SumConcat(d[..n], [d[n]] + [], For(id, dir));
    SumOne(d[n], [], For(id, dir));
  }

  lemma {:induction false} MeteredSplits(db: Accounts, pending: Deltas, id: string, dir: Direction)
    ensures Held(pending, id, dir) == Held(Metered(db, pending, true), id, dir) + Held(Metered(db, pending, false), id, dir)
    ensures Has(db, id) ==> Held(Metered(db, pending, false), id, dir) == 0
    ensures !Has(db, id) ==> Held(Metered(db, pending, true), id, dir) == 0
  {
    hide Find, Has;
    if pending != [] {
      MeteredSplits(db, pending[1..], id, dir);
      assert [] + Metered(db, pending[1..], true) == Metered(db, pending[1..], true);
      assert [] + Metered(db, pending[1..], false) == Metered(db, pending[1..], false);
      SumOne(pending[0], Metered(db, pending[1..], true), For(id, dir));
      SumOne(pending[0], Metered(db, pending[1..], false), For(id, dir));
    }
  }

  lemma TurnBalances(b: Bridge, ev: Event, id: string, dir: Direction)
    requires Balanced(b, id, dir)
    ensures Balanced(Turn(b, ev), id, dir)
  {
    hide Sum, Merge, ChargedAll, Metered, For;
    NothingHeld(id, dir);
    if ev.Round? {
      var polled := if ev.polled.Some? then ev.polled.value else [];
      assert b.books.fetched + [] == b.books.fetched;
      SumConcat(b.books.fetched, polled, For(id, dir));
      MergeHolds(b.pending, polled, id, dir);
      var pending := if ev.polled.Some? then Merge(b.pending, polled) else b.pending;
      MeteredSplits(b.db, pending, id, dir);
      SumConcat(b.books.applied, Metered(b.db, pending, true), For(id, dir));
      SumConcat(b.books.lost, Metered(b.db, pending, false), For(id, dir));
    }
  }

  /** Over any run of polls, failed polls, failed transactions and panel
      writes: per user and per direction, what hysteria handed over is what
      was added to counters, what waits, and what had no row when it was
      applied. */
  lemma {:induction false} BytesAreConserved(b: Bridge, evs: seq<Event>, id: string, dir: Direction)
    requires Balanced(b, id, dir)
    ensures Balanced(Turns(b, evs), id, dir)
    decreases |evs|
  {
    hide Balanced, Turn;
    if evs != [] {
      TurnBalances(b, evs[0], id, dir);
      BytesAreConserved(Turn(b, evs[0]), evs[1..], id, dir);
    }
  }

  // ---- what reaches the table ---------------------------------------------------------------------

  predicate SameRows(a: Accounts, b: Accounts) {
    |a| == |b| && forall i | 0 <= i < |a| :: a[i].key == b[i].key
  }

  lemma {:induction false} ChargedMeters(db: Accounts, pending: Deltas, now: int, i: nat)
    requires Unique(db) && i < |db|
    ensures var db' := ChargedAll(db, pending, now);
            && SameRows(db', db)
            && db'[i].value.up == db[i].value.up + Held(pending, db[i].key, Rx)
            && db'[i].value.down == db[i].value.down + Held(pending, db[i].key, Tx)
            && db'[i].value.enable == db[i].value.enable
            && db'[i].value.total == db[i].value.total && db'[i].value.expiry == db[i].value.expiry
    decreases |pending|
  {
    hide Sum, Unique;
    if pending == [] {
      NothingHeld(db[i].key, Rx);
      NothingHeld(db[i].key, Tx);
    } else {
      var n := |pending| - 1;
      ChargedMeters(db, pending[..n], now, i);
      HeldSnoc(pending, db[i].key, Rx);
      HeldSnoc(pending, db[i].key, Tx);
      var mid := ChargedAll(db, pending[..n], now);
      assert Unique(mid) by { SameUnique(mid, db); }
      ChargedOne(mid, pending[n].key, pending[n].value, now, i);
    }
  }

  lemma SameUnique(a: Accounts, b: Accounts)
    requires SameRows(a, b) && Unique(b)
    ensures Unique(a)
  {
  }

  lemma ChargedOne(db: Accounts, id: string, b: Bytes, now: int, i: nat)
    requires Unique(db) && i < |db|
    ensures var db' := Charged(db, id, b, now);
            && SameRows(db', db)
            && db'[i].value.up == db[i].value.up + (if db[i].key == id then b.rx else 0)
            && db'[i].value.down == db[i].value.down + (if db[i].key == id then b.tx else 0)
            && db'[i].value.enable == db[i].value.enable
            && db'[i].value.total == db[i].value.total && db'[i].value.expiry == db[i].value.expiry
  {
    if db[i].key == id {
      FindIs(db, id, i);
    }
  }

  lemma HasRow(db: Accounts, i: nat)
    requires i < |db|
    ensures Has(db, db[i].key)
  {
  }

  /** What a turn adds to a row's counters is what its books say: uploads in
      `up`, downloads in `down`, nothing else touched; a turn that failed adds
      nothing and keeps all. */
  lemma TurnMeters(b: Bridge, ev: Event, i: nat)
    requires Unique(b.db) && i < |b.db| && ev.Round?
    ensures var b' := Turn(b, ev);
            && SameRows(b'.db, b.db)
            && b'.db[i].value.up - b.db[i].value.up
               == Held(b'.books.applied, b.db[i].key, Rx) - Held(b.books.applied, b.db[i].key, Rx)
            && b'.db[i].value.down - b.db[i].value.down
               == Held(b'.books.applied, b.db[i].key, Tx) - Held(b.books.applied, b.db[i].key, Tx)
            && (!ev.stored ==> b'.db == b.db)
            && b'.db[i].value.enable == b.db[i].value.enable && b'.db[i].value.total == b.db[i].value.total
            && b'.db[i].value.expiry == b.db[i].value.expiry
  {
    hide Sum, Merge, ChargedAll, Metered, Unique, Find, Has;
    var id := b.db[i].key;
    var pending := if ev.polled.Some? then Merge(b.pending, ev.polled.value) else b.pending;
    if pending != [] && ev.stored {
      ChargedMeters(b.db, pending, ev.now, i);
      HasRow(b.db, i);
      MeteredSplits(b.db, pending, id, Rx);
      MeteredSplits(b.db, pending, id, Tx);
      SumConcat(b.books.applied, Metered(b.db, pending, true), For(id, Rx));
      SumConcat(b.books.applied, Metered(b.db, pending, true), For(id, Tx));
    }
  }

  /** What a user's row counts in one direction; a user without a row has
      nothing counted. */
  function Counter(db: Accounts, id: string, dir: Direction): int {
    if !Has(db, id) then 0
    else if dir == Tx then db[Find(db, id)].value.down
    else db[Find(db, id)].value.up
  }

  /** The email column is unique, whatever the panel does. */
  predicate Keyed(evs: seq<Event>) {
    forall e | e in evs && e.Panel? :: Unique(e.db)
  }

  /** What the panel itself added to the user's counter along the way: resets,
      new rows and deleted ones. */
  function PanelShift(b: Bridge, evs: seq<Event>, id: string, dir: Direction): int
    decreases |evs|
  {
    if evs == [] then 0
    else
      (if evs[0].Panel? then Counter(evs[0].db, id, dir) - Counter(b.db, id, dir) else 0)
      + PanelShift(Turn(b, evs[0]), evs[1..], id, dir)
  }

  lemma SameFinds(a: Accounts, b: Accounts, id: string)
    requires SameRows(a, b)
    ensures Find(a, id) == Find(b, id) && (Has(a, id) <==> Has(b, id))
  {
    FindIs(a, id, Find(b, id));
  }

  lemma RoundCounts(b: Bridge, ev: Event, id: string, dir: Direction)
    requires Unique(b.db) && ev.Round?
    ensures var b' := Turn(b, ev);
            && Unique(b'.db)
            && Counter(b'.db, id, dir) - Counter(b.db, id, dir)
               == Held(b'.books.applied, id, dir) - Held(b.books.applied, id, dir)
  {
    hide Sum, Merge, Unique;
    var b' := Turn(b, ev);
    if Has(b.db, id) {
      var i := Find(b.db, id);
      TurnMeters(b, ev, i);
      SameFinds(b'.db, b.db, id);
      SameUnique(b'.db, b.db);
    } else {
      NotCharged(b, ev, id, dir);
    }
  }

  lemma NotCharged(b: Bridge, ev: Event, id: string, dir: Direction)
    requires Unique(b.db) && ev.Round? && !Has(b.db, id)
    ensures var b' := Turn(b, ev);
            && Unique(b'.db) && !Has(b'.db, id)
            && Held(b'.books.applied, id, dir) == Held(b.books.applied, id, dir)
  {
    hide Sum, Merge, ChargedAll, Metered, Unique, Find, Has, For;
    var pending := if ev.polled.Some? then Merge(b.pending, ev.polled.value) else b.pending;
    if pending != [] && ev.stored {
      ChargedRows(b.db, pending, ev.now);
      var db' := ChargedAll(b.db, pending, ev.now);
      SameFinds(db', b.db, id);
      SameUnique(db', b.db);
      MeteredSplits(b.db, pending, id, dir);
      SumConcat(b.books.applied, Metered(b.db, pending, true), For(id, dir));
    }
  }

  lemma {:induction false} ChargedRows(db: Accounts, pending: Deltas, now: int)
    ensures SameRows(ChargedAll(db, pending, now), db)
    decreases |pending|
  {
    if pending != [] { ChargedRows(db, pending[..|pending| - 1], now); }
  }

  /** Over any run of turns and panel writes, a user's counters grow by exactly
      what the books say was applied, uploads in `up` and downloads in `down`,
      on top of what the panel itself changed. */
  lemma {:induction false} TurnsMeter(b: Bridge, evs: seq<Event>, id: string, dir: Direction)
    requires Unique(b.db) && Keyed(evs)
    ensures var b' := Turns(b, evs);
            && Unique(b'.db)
            && Counter(b'.db, id, dir) - Counter(b.db, id, dir)
               == Held(b'.books.applied, id, dir) - Held(b.books.applied, id, dir) + PanelShift(b, evs, id, dir)
    decreases |evs|
  {
    hide Unique, Counter, Held, Turn;
    if evs != [] {
      assert evs[0] in evs && forall e | e in evs[1..] :: e in evs;
      if evs[0].Round? { RoundCounts(b, evs[0], id, dir); } else { PanelTurn(b, evs[0]); }
      TurnsMeter(Turn(b, evs[0]), evs[1..], id, dir);
    }
  }

  lemma PanelTurn(b: Bridge, ev: Event)
    requires ev.Panel?
    ensures Turn(b, ev) == b.(db := ev.db)
  {
  }

  /** End to end: what hysteria handed over for a user is in the user's
      counters, panel changes apart, or waits, or met no row. */
  lemma EveryByteIsCounted(b: Bridge, evs: seq<Event>, id: string, dir: Direction)
    requires Unique(b.db) && Keyed(evs) && Balanced(b, id, dir)
    ensures var b' := Turns(b, evs);
            Held(b'.books.fetched, id, dir) - Held(b.books.fetched, id, dir)
            == (Counter(b'.db, id, dir) - Counter(b.db, id, dir) - PanelShift(b, evs, id, dir))
             + (Held(b'.pending, id, dir) - Held(b.pending, id, dir))
             + (Held(b'.books.lost, id, dir) - Held(b.books.lost, id, dir))
  {
    hide Turns, Counter, Held, Unique, Keyed, PanelShift;
    BytesAreConserved(b, evs, id, dir);
    TurnsMeter(b, evs, id, dir);
  }

  // ---- one turn, completely -----------------------------------------------------------------

  lemma {:induction false} MergeUnique(pending: Deltas, polled: Deltas)
    requires Unique(pending)
    ensures Unique(Merge(pending, polled))
  {
    hide Unique, Put, Get;
    if polled != [] {
      var n := |polled| - 1;
      MergeUnique(pending, polled[..n]);
      var p := Merge(pending, polled[..n]);
      PutUnique(p, polled[n].key, Plus(Get(p, polled[n].key, Bytes(0, 0)), polled[n].value));
    }
  }

  lemma {:induction false} NotHeld(d: Deltas, id: string, dir: Direction)
    requires forall j | 0 <= j < |d| :: d[j].key != id
    ensures Held(d, id, dir) == 0
  {
    if d != [] { NotHeld(d[1..], id, dir); }
  }

  /** With each user named once, what is held for a user is one entry. */
  lemma OneEntry(d: Deltas, j: nat, dir: Direction)
    requires Unique(d) && j < |d|
    ensures Held(d, d[j].key, dir) == Amount(d[j].value, dir)
  {
    var id := d[j].key;
    assert d == d[..j] + ([d[j]] + d[j + 1..]);
    SumConcat(d[..j], [d[j]] + d[j + 1..], For(id, dir));
    SumOne(d[j], d[j + 1..], For(id, dir));
    NotHeld(d[..j], id, dir);
    NotHeld(d[j + 1..], id, dir);
  }

  predicate Moved(b: Bytes) { b.tx != 0 || b.rx != 0 }

  lemma {:induction false} ChargedStamps(db: Accounts, pending: Deltas, now: int, i: nat)
    requires Unique(db) && i < |db|
    ensures var db' := ChargedAll(db, pending, now);
            && SameRows(db', db)
            && db'[i].value.lastOnline
               == if exists j | 0 <= j < |pending| :: pending[j].key == db[i].key && Moved(pending[j].value)
                  then now else db[i].value.lastOnline
    decreases |pending|
  {
    hide Unique, Charged;
    if pending != [] {
      var n := |pending| - 1;
      ChargedStamps(db, pending[..n], now, i);
      var mid := ChargedAll(db, pending[..n], now);
      assert Unique(mid) by { SameUnique(mid, db); }
      StampedOne(mid, pending[n].key, pending[n].value, now, i);
      assert forall j | 0 <= j < n :: pending[..n][j] == pending[j];
    }
  }

  lemma StampedOne(db: Accounts, id: string, b: Bytes, now: int, i: nat)
    requires Unique(db) && i < |db|
    ensures var db' := Charged(db, id, b, now);
            && SameRows(db', db)
            && db'[i].value.lastOnline == if db[i].key == id && Moved(b) then now else db[i].value.lastOnline
  {
    if db[i].key == id {
      FindIs(db, id, i);
    }
  }

  /** What waits for a user once the turn has polled. */
  function Waiting(b: Bridge, ev: Event, id: string, dir: Direction): int
    requires ev.Round?
  {
    Held(b.pending, id, dir) + if ev.polled.Some? then Held(ev.polled.value, id, dir) else 0
  }

  /** A turn whose transaction commits leaves nothing waiting: every row gets
      all that waited for its user, and is stamped if that was anything. A
      failed one touches no row, and everything waits on. */
  lemma TurnStores(b: Bridge, ev: Event, i: nat)
    requires Unique(b.db) && Unique(b.pending) && i < |b.db| && ev.Round?
    ensures var b', id := Turn(b, ev), b.db[i].key;
            var tx, rx := Waiting(b, ev, id, Tx), Waiting(b, ev, id, Rx);
            var a, a' := b.db[i].value, if ev.stored && |b'.db| > i then b'.db[i].value else b.db[i].value;
            && Unique(b'.pending)
            && (ev.stored ==>
                  && b'.pending == [] && SameRows(b'.db, b.db)
                  && a' == a.(up := a.up + rx, down := a.down + tx, lastOnline := if tx != 0 || rx != 0 then ev.now else a.lastOnline))
            && (!ev.stored ==> b'.db == b.db && Held(b'.pending, id, Tx) == tx && Held(b'.pending, id, Rx) == rx)
  {
    hide Sum, Merge, ChargedAll, Unique, Metered;
    var id := b.db[i].key;
    var polled := if ev.polled.Some? then ev.polled.value else [];
    var merged := if ev.polled.Some? then Merge(b.pending, polled) else b.pending;
    MergeUnique(b.pending, polled);
    MergeHolds(b.pending, polled, id, Tx);
    MergeHolds(b.pending, polled, id, Rx);
    NoneWaits(id);
    if ev.stored {
      ChargedMeters(b.db, merged, ev.now, i);
      ChargedStamps(b.db, merged, ev.now, i);
      MovedIff(merged, id);
      if merged == [] { NothingCharged(b.db, ev.now); }
    }
  }

  lemma NoneWaits(id: string)
    ensures Held([], id, Tx) == 0 && Held([], id, Rx) == 0 && Unique<string, Bytes>([])
  {
  }

  lemma NothingCharged(db: Accounts, now: int)
    ensures ChargedAll(db, [], now) == db
  {
  }

  lemma MovedIff(d: Deltas, id: string)
    requires Unique(d)
    ensures (exists j | 0 <= j < |d| :: d[j].key == id && Moved(d[j].value)) <==> Held(d, id, Tx) != 0 || Held(d, id, Rx) != 0
  {
    hide Unique, Held;
    if j :| 0 <= j < |d| && d[j].key == id {
      OneEntry(d, j, Tx);
      OneEntry(d, j, Rx);
      forall k | 0 <= k < |d| && d[k].key == id ensures d[k] == d[j] { SameEntry(d, j, k); }
    } else {
      NotHeld(d, id, Tx);
      NotHeld(d, id, Rx);
    }
  }

  lemma SameEntry(d: Deltas, j: nat, k: nat)
    requires Unique(d) && j < |d| && k < |d| && d[j].key == d[k].key
    ensures j == k
  {
  }

  // ---- kicks -------------------------------------------------------------------------------------------

  /** Disabled, over quota or expired. */
  predicate Blocked(a: Account, now: int) {
    || !a.enable
    || (a.total.Some? && a.total.value > 0 && a.up + a.down >= a.total.value)
    || (a.expiry.Some? && a.expiry.value > 0 && a.expiry.value < now)
  }

  function Unmetered(online: seq<string>, db: Accounts): seq<string> {
    if online == [] then []
    else (if Has(db, online[0]) then [] else [online[0]]) + Unmetered(online[1..], db)
  }

  function BlockedAmong(online: seq<string>, db: Accounts, now: int): seq<string> {
    if db == [] then []
    else (if db[0].key in online && Blocked(db[0].value, now) then [db[0].key] else []) + BlockedAmong(online, db[1..], now)
  }

  /** `read` tells whether the table could be read: blind, nobody is kicked. */
  function Kickable(online: seq<string>, db: Accounts, read: bool, now: int): seq<string> {
    if online == [] || !read then [] else Unmetered(online, db) + BlockedAmong(online, db, now)
  }

  lemma {:induction false} UnmeteredIs(online: seq<string>, db: Accounts, id: string)
    ensures id in Unmetered(online, db) <==> id in online && !Has(db, id)
  {
    hide Has;
    if online != [] { UnmeteredIs(online[1..], db, id); }
  }

  lemma {:induction false} BlockedIs(online: seq<string>, db: Accounts, now: int, id: string)
    ensures id in BlockedAmong(online, db, now)
            <==> id in online && exists i :: 0 <= i < |db| && db[i].key == id && Blocked(db[i].value, now)
  {
    hide Blocked;
    if db != [] {
      BlockedIs(online, db[1..], now, id);
      if i :| 0 <= i < |db| && db[i].key == id && Blocked(db[i].value, now) {
        if i > 0 { assert db[1..][i - 1] == db[i]; }
      }
      if id in online && (exists i :: 0 <= i < |db[1..]| && db[1..][i].key == id && Blocked(db[1..][i].value, now)) {
        var i :| 0 <= i < |db[1..]| && db[1..][i].key == id && Blocked(db[1..][i].value, now);
        assert db[i + 1] == db[1..][i];
      }
    }
  }

  /** May this row use the service? It must be enabled, below its limit if it
      has one, and not past its date if it has one; zero stands for none. */
  predicate Entitled(a: Account, now: int) {
    a.enable && (a.total in {None, Some(0)} || a.total.value < 0 || a.up + a.down < a.total.value)
             && (a.expiry in {None, Some(0)} || a.expiry.value < 0 || now <= a.expiry.value)
  }

  /** Kicked, exactly: online, and without a row or with one that is not
      entitled. */
  lemma KickedWhen(online: seq<string>, db: Accounts, now: int, id: string)
    ensures id in Kickable(online, db, true, now) <==>
              id in online && ((forall i | 0 <= i < |db| :: db[i].key != id)
                               || exists i | 0 <= i < |db| :: db[i].key == id && !Entitled(db[i].value, now))
    ensures id !in Kickable(online, db, false, now)
  {
    hide Blocked, Entitled, Unmetered, BlockedAmong, Find;
    UnmeteredIs(online, db, id);
    BlockedIs(online, db, now, id);
    forall i | 0 <= i < |db| ensures Blocked(db[i].value, now) <==> !Entitled(db[i].value, now) { NotEntitled(db[i].value, now); }
    if Has(db, id) { assert db[Find(db, id)].key == id; }
  }

  lemma NotEntitled(a: Account, now: int)
    ensures Blocked(a, now) <==> !Entitled(a, now)
  {
  }

  /** The quota bites in the turn that uses it up: with the bytes of this turn
      counted, a user at or over the limit is kicked. */
  lemma QuotaBites(b: Bridge, ev: Event, i: nat, online: seq<string>)
    requires Unique(b.db) && i < |b.db| && ev.Round? && b.db[i].key in online
    requires b.db[i].value.total.Some? && b.db[i].value.total.value > 0
    requires var b', id := Turn(b, ev), b.db[i].key;
             b.db[i].value.up + b.db[i].value.down
             + Held(b'.books.applied, id, Rx) - Held(b.books.applied, id, Rx)
             + Held(b'.books.applied, id, Tx) - Held(b.books.applied, id, Tx) >= b.db[i].value.total.value
    ensures b.db[i].key in Kickable(online, Turn(b, ev).db, true, ev.now)
  {
    hide Turn, Held, Unique, Has, Kickable;
    TurnMeters(b, ev, i);
    var db' := Turn(b, ev).db;
    assert !Entitled(db'[i].value, ev.now);
    KickedWhen(online, db', ev.now, b.db[i].key);
  }

  // ---- the loops of the original ---------------------------------------------------------------------------

  lemma MetredLast(db: Accounts, pending: Deltas, now: int, i: nat)
    requires i < |pending|
    ensures ChargedAll(db, pending[..i + 1], now) == Charged(ChargedAll(db, pending[..i], now), pending[i].key, pending[i].value, now)
  {
    hide Charged;
    assert pending[..i + 1][..i] == pending[..i] && pending[..i + 1][i] == pending[i];
  }

  lemma Regroup(a: seq<string>, b: seq<string>, c: seq<string>)
    ensures a + b + c == a + (b + c)
  {
  }

  lemma UnmeteredStep(online: seq<string>, i: nat, db: Accounts)
    requires i < |online|
    ensures Unmetered(online[i..], db) == (if Has(db, online[i]) then [] else [online[i]]) + Unmetered(online[i + 1..], db)
  {
    hide Has;
    assert online[i..][0] == online[i] && online[i..][1..] == online[i + 1..];
  }

  lemma BlockedStep(online: seq<string>, db: Accounts, i: nat, now: int)
    requires i < |db|
    ensures BlockedAmong(online, db[i..], now)
            == (if db[i].key in online && Blocked(db[i].value, now) then [db[i].key] else []) + BlockedAmong(online, db[i + 1..], now)
  {
    hide Blocked;
    assert db[i..][0] == db[i] && db[i..][1..] == db[i + 1..];
  }

  lemma NoOne(db: Accounts)
    ensures Unmetered([], db) == []
  {
  }

  lemma NoRow(online: seq<string>, now: int)
    ensures BlockedAmong(online, [], now) == []
  {
  }

  class Collector {
    var pending: Deltas
    var db: Accounts

    constructor (table: Accounts)
      ensures pending == [] && db == table
    {
      pending, db := [], table;
    }

    /** The accumulator of main: polled counters are added to what waits. */
    method Accumulate(polled: Deltas)
      modifies this`pending
      ensures pending == Merge(old(pending), polled)
    {
      hide Put, Get, Plus;
      for i := 0 to |polled|
        invariant pending == Merge(old(pending), polled[..i])
      {
        assert polled[..i + 1][..i] == polled[..i] && polled[..i + 1][i] == polled[i];
        pending := Put(pending, polled[i].key, Plus(Get(pending, polled[i].key, Bytes(0, 0)), polled[i].value));
      }
      assert polled[..|polled|] == polled;
    }

    /** One transaction: the table is changed row by row; an error at any
        statement, or at the commit, undoes all of it and keeps the deltas. */
    method ApplyDeltas(errorAt: Option<nat>, now: int)
      modifies this
      ensures errorAt.Some? && errorAt.value <= |old(pending)| && old(pending) != [] ==> db == old(db) && pending == old(pending)
      ensures errorAt.None? || errorAt.value > |old(pending)| || old(pending) == [] ==>
                db == ChargedAll(old(db), old(pending), now) && pending == []
    {
      hide Charged;
      if pending == [] {
        return;
      }
      var before := db;
      assert pending[..0] == [];
      for i := 0 to |pending|
        invariant pending == old(pending)
        invariant errorAt.Some? ==> errorAt.value >= i
        invariant db == ChargedAll(before, pending[..i], now)
      {
        if errorAt == Some(i) {
          db := before;
          return;
        }
        MetredLast(before, pending, now, i);
        db := Charged(db, pending[i].key, pending[i].value, now);
      }
      if errorAt == Some(|pending|) {
        db := before;
        return;
      }
      assert pending[..|pending|] == pending;
      pending := [];
    }

    /** Who must go, as the table stands. */
    method FindKickable(online: seq<string>, read: bool, now: int) returns (kick: seq<string>)
      ensures kick == Kickable(online, db, read, now)
    {
      hide Blocked, Has, Unmetered, BlockedAmong;
      kick := [];
      if online == [] || !read {
        return;
      }
      assert online[0..] == online && db[0..] == db;
      for i := 0 to |online|
        invariant kick + Unmetered(online[i..], db) == Unmetered(online, db)
      {
        UnmeteredStep(online, i, db);
        var known := Has(db, online[i]);
        if !known {
          Regroup(kick, [online[i]], Unmetered(online[i + 1..], db));
          kick := kick + [online[i]];
        }
      }
      assert online[|online|..] == [] && kick + [] == kick;
      NoOne(db);
      assert kick == Unmetered(online, db);
      ghost var first := kick;
      for i := 0 to |db|
        invariant kick + BlockedAmong(online, db[i..], now) == first + BlockedAmong(online, db, now)
      {
        BlockedStep(online, db, i, now);
        var blocked := Blocked(db[i].value, now);
        if db[i].key in online && blocked {
          Regroup(kick, [db[i].key], BlockedAmong(online, db[i + 1..], now));
          kick := kick + [db[i].key];
        }
      }
      NoRow(online, now);
      assert db[|db|..] == [] && kick + [] == kick;
    }

    /** One turn of the endless loop. */
    method Poll(polled: Option<Deltas>, errorAt: Option<nat>, online: seq<string>, read: bool, now: int, ghost books: Books)
      returns (kick: seq<string>)
      modifies this
      ensures var merged := if polled.Some? then Merge(old(pending), polled.value) else old(pending);
              var stored := errorAt.None? || errorAt.value > |merged|;
              var b := Turn(Bridge(old(pending), old(db), books), Round(polled, stored, now));
              pending == b.pending && db == b.db && kick == Kickable(online, b.db, read, now)
    {
      hide ChargedAll, Metered, Kickable, Merge;
      if polled.Some? {
        Accumulate(polled.value);
      }
      if pending != [] {
        ApplyDeltas(errorAt, now);
      }
      kick := FindKickable(online, read, now);
    }
  }
}
