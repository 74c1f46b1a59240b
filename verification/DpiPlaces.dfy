/** Where the rows of a report lie: for every place and protocol, what the
    receiver stores is what the addresses located there brought in. */
module DpiPlaces {
  import opened Wrappers
  import opened Dict
  import opened DpiParse
  import opened DpiRows

  /** Our own nodes are one place, other addresses are where the geo database
      puts them, and the rest is nowhere. */
  predicate LocatedIn(net: Net, ip: string, place: Geo) {
    if ip != "" && ip in net.nodes then place == Geo(Some("*TUNNEL*"), None, "entry-forward")
    else if ip != "" && ip in net.places then place == net.places[ip]
    else place == Geo(None, None, "")
  }

  lemma GeoKeyLocates(net: Net, ip: string, place: Geo)
    ensures GeoKey(net, ip) == place <==> LocatedIn(net, ip, place)
  {
  }

  /** What can be asked of a row. */
  datatype Facet = Accepts | Refusals | Because(reason: string) | From(ip: string)

  predicate Asked(net: Net, f: Facet) {
    && (f.Because? ==> f.reason != "")
    && (f.From? ==> f.ip != "" && f.ip !in net.nodes)
  }

  function Value(b: RowBucket, f: Facet): int {
    match f
    case Accepts => b.conns
    case Refusals => b.fails
    case Because(reason) => Get(b.reasons, reason, 0)
    case From(ip) => Get(b.ips, ip, 0)
  }

  predicate Bears(f: Facet, what: What, ip: string) {
    match f
    case Accepts => what.Conns?
    case Refusals => what.Fails?
    case Because(reason) => what.Fails? && what.reason == reason
    case From(x) => ip == x
  }

  /** What n from this address add to a place. */
  function At(net: Net, f: Facet, what: What, place: Geo): (string, int) -> int {
    (ip: string, n: int) => if LocatedIn(net, ip, place) && Bears(f, what, ip) then n else 0
  }

  /** What an entry adds to a row: its addresses located there; and what it
      claims beyond them has no address. */
  function EntryAt(net: Net, key: RowKey, f: Facet, tag: string, what: What, count: int, ips: Dict<string, int>): int {
    if tag == "" || tag != key.tag then 0
    else
      var here, listed := At(net, f, what, key.geo), Sum(ips, All());
      Sum(ips, here) + here("", if count > listed then count - listed else 0)
  }

  /** The first 120 characters of a reason. */
  function Shortened(reason: string): string {
    reason[..if |reason| <= 120 then |reason| else 120]
  }

  function AccessAt(net: Net, es: seq<AccessEntry>, key: RowKey, f: Facet): int {
    if es == [] then 0
    else
      var n := |es| - 1;
      AccessAt(net, es[..n], key, f) + EntryAt(net, key, f, TagName(es[n].tag), Conns, es[n].conns, es[n].ips)
  }

  function RejectsAt(net: Net, es: seq<RejectEntry>, key: RowKey, f: Facet): int {
    if es == [] then 0
    else
      var n := |es| - 1;
      RejectsAt(net, es[..n], key, f)
      + EntryAt(net, key, f, KindName(es[n].kind), Fails(Shortened(es[n].reason)), es[n].count, es[n].ips)
  }

  /** Which inbounds and reject kinds are known by another name. */
  lemma OtherNames(raw: string)
    ensures TagName("inbound-443") == "reality" && TagName("inbound-2053") == "cf-ws"
    ensures TagName("inbound-8444") == "ss2022" && TagName("inbound-2054") == "xhttp"
    ensures raw !in ["inbound-443", "inbound-2053", "inbound-8444", "inbound-2054"] ==> TagName(raw) == raw
    ensures KindName("ws-upgrade") == "cf-ws" && (raw != "ws-upgrade" ==> KindName(raw) == raw)
  {
  }

  // ---- one bucket, one address, one entry ----------------------------------------------------

  function ValueAt(d: Buckets, key: RowKey, f: Facet): int { Value(Get(d, key, NO_ROW), f) }

  lemma CountedValue(net: Net, b: RowBucket, what: What, n: int, ip: string, f: Facet)
    requires Asked(net, f)
    ensures Value(DpiRows.Counted(b, what, n).(ips := NoteIp(net, b.ips, ip, n)), f) == Value(b, f) + if Bears(f, what, ip) then n else 0
  {
    hide Find;
    if what.Fails? && f.Because? && what.reason != "" {
      GetPut(b.reasons, what.reason, Get(b.reasons, what.reason, 0) + n, f.reason, 0);
    }
    if f.From? && ip != "" && ip !in net.nodes {
      GetPut(b.ips, ip, Get(b.ips, ip, 0) + n, f.ip, 0);
    }
  }

  lemma AddIpAt(d: Buckets, net: Net, tag: string, what: What, ip: string, n: int, key: RowKey, f: Facet)
    requires Asked(net, f)
    ensures ValueAt(AddIp(d, net, tag, what, ip, n), key, f)
            == ValueAt(d, key, f) + if tag == key.tag then At(net, f, what, key.geo)(ip, n) else 0
  {
    hide Get, Put, Value, NoteIp, GeoKey, LocatedIn, Bears, DpiRows.Counted, Asked;
    GeoKeyLocates(net, ip, key.geo);
    var at := RowKey(GeoKey(net, ip), tag);
    var b := Get(d, at, NO_ROW);
    GetPut(d, at, DpiRows.Counted(b, what, n).(ips := NoteIp(net, b.ips, ip, n)), key, NO_ROW);
    CountedValue(net, b, what, n, ip, f);
    assert at == key <==> tag == key.tag && GeoKey(net, ip) == key.geo;
  }

  lemma {:induction false} AddIpsAt(d: Buckets, net: Net, tag: string, what: What, ips: Dict<string, int>, key: RowKey, f: Facet)
    requires Asked(net, f)
    ensures ValueAt(AddIps(d, net, tag, what, ips), key, f)
            == ValueAt(d, key, f) + if tag == key.tag then Sum(ips, At(net, f, what, key.geo)) else 0
  {
    hide AddIp, ValueAt, At, Sum, Asked;
    if ips == [] {
      NothingAt(At(net, f, what, key.geo));
    } else {
      var n := |ips| - 1;
      AddIpsAt(d, net, tag, what, ips[..n], key, f);
      AddIpAt(AddIps(d, net, tag, what, ips[..n]), net, tag, what, ips[n].key, ips[n].value, key, f);
      assert ips == ips[..n + 1];
      SumSnoc(ips, n, At(net, f, what, key.geo));
    }
  }

  lemma NothingAt(f: (string, int) -> int)
    ensures Sum<string, int>([], f) == 0
  {
  }

  lemma AddExtraAt(d: Buckets, net: Net, tag: string, what: What, extra: int, key: RowKey, f: Facet)
    requires Asked(net, f)
    ensures ValueAt(AddExtra(d, tag, what, extra), key, f)
            == ValueAt(d, key, f) + if tag == key.tag then At(net, f, what, key.geo)("", extra) else 0
  {
    hide Get, Put, Value, LocatedIn, Bears, DpiRows.Counted, Asked;
    if extra != 0 {
      var at := RowKey(NOWHERE, tag);
      var b := Get(d, at, NO_ROW);
      GetPut(d, at, DpiRows.Counted(b, what, extra), key, NO_ROW);
      CountedValue(net, b, what, extra, "", f);
      CountedKeepsIps(net, b, what, extra);
      GeoKeyLocates(net, "", key.geo);
    }
  }

  lemma CountedKeepsIps(net: Net, b: RowBucket, what: What, n: int)
    ensures DpiRows.Counted(b, what, n).(ips := NoteIp(net, b.ips, "", n)) == DpiRows.Counted(b, what, n)
    ensures GeoKey(net, "") == NOWHERE
  {
  }

  lemma AddEntryAt(d: Buckets, net: Net, tag: string, what: What, count: int, ips: Dict<string, int>, key: RowKey, f: Facet)
    requires Asked(net, f)
    ensures ValueAt(AddEntry(d, net, tag, what, count, ips), key, f) == ValueAt(d, key, f) + EntryAt(net, key, f, tag, what, count, ips)
  {
    hide AddIps, AddExtra, ValueAt, At, Sum, Asked;
    if tag != "" {
      AddIpsAt(d, net, tag, what, ips, key, f);
      AddExtraAt(AddIps(d, net, tag, what, ips), net, tag, what, Max(0, count - Sum(ips, All())), key, f);
    }
  }

  lemma {:induction false} AddAccessAt(d: Buckets, net: Net, es: seq<AccessEntry>, key: RowKey, f: Facet)
    requires Asked(net, f)
    ensures ValueAt(AddAccess(d, net, es), key, f) == ValueAt(d, key, f) + AccessAt(net, es, key, f)
  {
    hide AddEntry, EntryAt, ValueAt, TagName, Asked;
    if es != [] {
      var n := |es| - 1;
      AddAccessAt(d, net, es[..n], key, f);
      AddEntryAt(AddAccess(d, net, es[..n]), net, TagName(es[n].tag), Conns, es[n].conns, es[n].ips, key, f);
    }
  }

  lemma ClipShortens(reason: string)
    ensures Clip(reason) == Shortened(reason)
  {
    assert reason[..|reason|] == reason;
  }

  lemma {:induction false} AddRejectsAt(d: Buckets, net: Net, es: seq<RejectEntry>, key: RowKey, f: Facet)
    requires Asked(net, f)
    ensures ValueAt(AddRejects(d, net, es), key, f) == ValueAt(d, key, f) + RejectsAt(net, es, key, f)
  {
    hide AddEntry, EntryAt, ValueAt, KindName, Clip, Shortened, Asked;
    if es != [] {
      var n := |es| - 1;
      AddRejectsAt(d, net, es[..n], key, f);
      ClipShortens(es[n].reason);
      AddEntryAt(AddRejects(d, net, es[..n]), net, KindName(es[n].kind), Fails(Clip(es[n].reason)), es[n].count, es[n].ips, key, f);
    }
  }

  // ---- one bucket a place and protocol --------------------------------------------------------------

  /** No key twice, and in no bucket an address twice. */
  predicate Neat(d: Buckets) {
    Unique(d) && forall i | 0 <= i < |d| :: Unique(d[i].value.ips)
  }

  lemma {:induction false} AddIpsKeep(d: Buckets, net: Net, tag: string, what: What, ips: Dict<string, int>)
    requires Neat(d)
    ensures Neat(AddIps(d, net, tag, what, ips))
  {
    hide Unique, Neat, NoteIp, Get, Put, GeoKey;
    if ips != [] {
      var n := |ips| - 1;
      AddIpsKeep(d, net, tag, what, ips[..n]);
      var d1, ip := AddIps(d, net, tag, what, ips[..n]), ips[n].key;
      var key := RowKey(GeoKey(net, ip), tag);
      GetKeeps(d1, key);
      NoteIpKeeps(net, Get(d1, key, NO_ROW).ips, ip, ips[n].value);
      var b := Get(d1, key, NO_ROW);
      PutKeeps(d1, key, DpiRows.Counted(b, what, ips[n].value).(ips := NoteIp(net, b.ips, ip, ips[n].value)));
    }
  }

  lemma GetKeeps(d: Buckets, key: RowKey)
    requires Neat(d)
    ensures Unique(Get(d, key, NO_ROW).ips)
  {
    hide Unique;
    assert Unique<string, int>([]) by { NoIps(); }
  }

  lemma NoIps()
    ensures Unique<string, int>([])
  {
  }

  lemma NoteIpKeeps(net: Net, ips: Dict<string, int>, ip: string, n: int)
    requires Unique(ips)
    ensures Unique(NoteIp(net, ips, ip, n))
  {
    hide Unique, Get, Put;
    PutUnique(ips, ip, Get(ips, ip, 0) + n);
  }

  lemma PutKeeps(d: Buckets, key: RowKey, b: RowBucket)
    requires Neat(d) && Unique(b.ips)
    ensures Neat(Put(d, key, b))
  {
    PutUnique(d, key, b);
    hide Unique;
  }

  lemma AddEntryKeeps(d: Buckets, net: Net, tag: string, what: What, count: int, ips: Dict<string, int>)
    requires Neat(d)
    ensures Neat(AddEntry(d, net, tag, what, count, ips))
  {
    hide Unique, Neat, AddIps, Get, Put, Sum;
    AddIpsKeep(d, net, tag, what, ips);
    var d1, key, extra := AddIps(d, net, tag, what, ips), RowKey(NOWHERE, tag), Max(0, count - Sum(ips, All()));
    GetKeeps(d1, key);
    PutKeeps(d1, key, DpiRows.Counted(Get(d1, key, NO_ROW), what, extra));
  }

  lemma {:induction false} AddAccessKeeps(d: Buckets, net: Net, es: seq<AccessEntry>)
    requires Neat(d)
    ensures Neat(AddAccess(d, net, es))
  {
    hide Neat, AddEntry, TagName;
    if es != [] {
      var n := |es| - 1;
      AddAccessKeeps(d, net, es[..n]);
      AddEntryKeeps(AddAccess(d, net, es[..n]), net, TagName(es[n].tag), Conns, es[n].conns, es[n].ips);
    }
  }

  lemma {:induction false} AddRejectsKeeps(d: Buckets, net: Net, es: seq<RejectEntry>)
    requires Neat(d)
    ensures Neat(AddRejects(d, net, es))
  {
    hide Neat, AddEntry, KindName, Clip;
    if es != [] {
      var n := |es| - 1;
      AddRejectsKeeps(d, net, es[..n]);
      AddEntryKeeps(AddRejects(d, net, es[..n]), net, KindName(es[n].kind), Fails(Clip(es[n].reason)), es[n].count, es[n].ips);
    }
  }

  lemma {:induction false} AsRowsIs(d: Buckets)
    ensures |AsRows(d)| == |d|
    ensures forall i | 0 <= i < |d| ::
              AsRows(d)[i] == Row(d[i].key, d[i].value.conns, d[i].value.fails, Top(d[i].value.ips, ROW_IPS), d[i].value.reasons)
  {
    hide Top;
    if d != [] { AsRowsIs(d[1..]); }
  }

  /** The buckets behind the rows of a report. */
  lemma Behind(net: Net, access: seq<AccessEntry>, rejects: seq<RejectEntry>) returns (d: Buckets)
    ensures Rows(net, access, rejects) == AsRows(d) && Neat(d)
    ensures forall key, f | Asked(net, f) :: ValueAt(d, key, f) == AccessAt(net, access, key, f) + RejectsAt(net, rejects, key, f)
  {
    hide AddAccess, AddRejects, AsRows, Neat, ValueAt, AccessAt, RejectsAt, Asked;
    var d0 := AddAccess([], net, access);
    d := AddRejects(d0, net, rejects);
    NoBuckets();
    AddAccessKeeps([], net, access);
    AddRejectsKeeps(d0, net, rejects);
    forall key, f | Asked(net, f) ensures ValueAt(d, key, f) == AccessAt(net, access, key, f) + RejectsAt(net, rejects, key, f) {
      AddAccessAt([], net, access, key, f);
      AddRejectsAt(d0, net, rejects, key, f);
      NoValue(key, f);
    }
  }

  lemma NoBuckets()
    ensures Neat([])
  {
  }

  lemma NoValue(key: RowKey, f: Facet)
    ensures ValueAt([], key, f) == 0
  {
  }

  function RowValue(r: Row, f: Facet): int
    requires !f.From?
  {
    match f
    case Accepts => r.conns
    case Refusals => r.fails
    case Because(reason) => Get(r.reasons, reason, 0)
  }

  /** Every place and protocol has at most one row. Its connections, rejects
      and rejects for any one reason are those of the addresses located there;
      the row without a place also has what the entries claim beyond the
      addresses they list. What has no row brought in nothing. */
  lemma RowsByPlace(net: Net, access: seq<AccessEntry>, rejects: seq<RejectEntry>, f: Facet)
    requires Asked(net, f) && !f.From?
    ensures var rows := Rows(net, access, rejects);
            && (forall i, j | 0 <= i < j < |rows| :: rows[i].key != rows[j].key)
            && (forall i | 0 <= i < |rows| ::
                  RowValue(rows[i], f) == AccessAt(net, access, rows[i].key, f) + RejectsAt(net, rejects, rows[i].key, f))
            && (forall key | (forall i | 0 <= i < |rows| :: rows[i].key != key) ::
                  AccessAt(net, access, key, f) + RejectsAt(net, rejects, key, f) == 0)
  {
    hide AccessAt, RejectsAt, Find, Asked, Rows, AsRows, Top;
    var d := Behind(net, access, rejects);
    AsRowsIs(d);
    var rows := Rows(net, access, rejects);
    forall i | 0 <= i < |rows|
      ensures RowValue(rows[i], f) == AccessAt(net, access, rows[i].key, f) + RejectsAt(net, rejects, rows[i].key, f)
    {
      FindFirst(d, i);
      assert ValueAt(d, rows[i].key, f) == RowValue(rows[i], f);
    }
    forall key | forall i | 0 <= i < |rows| :: rows[i].key != key
      ensures AccessAt(net, access, key, f) + RejectsAt(net, rejects, key, f) == 0
    {
      forall i | 0 <= i < |d| ensures d[i].key != key { assert rows[i].key != key; }
      FindIs(d, key, |d|);
      assert ValueAt(d, key, f) == 0 by { NoValue(key, f); }
    }
  }

  // ---- the addresses a row lists -------------------------------------------------------------------

  /** The addresses a row lists are the ten that brought in most, each with
      what it did. */
  lemma RowsListAddresses(net: Net, access: seq<AccessEntry>, rejects: seq<RejectEntry>, ip: string)
    requires Asked(net, From(ip))
    ensures var rows := Rows(net, access, rejects);
            forall i | 0 <= i < |rows| ::
              Lists(rows[i].topIps, 10, ip, AccessAt(net, access, rows[i].key, From(ip)) + RejectsAt(net, rejects, rows[i].key, From(ip)))
  {
    hide AccessAt, RejectsAt, Find, Asked, Rows, AsRows, Top, Lists, Unique;
    var d := Behind(net, access, rejects);
    AsRowsIs(d);
    var rows := Rows(net, access, rejects);
    forall i | 0 <= i < |rows|
      ensures Lists(rows[i].topIps, 10, ip, AccessAt(net, access, rows[i].key, From(ip)) + RejectsAt(net, rejects, rows[i].key, From(ip)))
    {
      FindFirst(d, i);
      TopLists(d[i].value.ips, ROW_IPS, ip);
      assert ValueAt(d, rows[i].key, From(ip)) == Get(d[i].value.ips, ip, 0);
    }
  }

  lemma FindFirst(d: Buckets, i: nat)
    requires i < |d| && Unique(d)
    ensures Get(d, d[i].key, NO_ROW) == d[i].value
  {
    FindIs(d, d[i].key, i);
  }

  // ---- from log lines to places -------------------------------------------------------------------

  /** A line of a real user: neither the panel's polling nor localhost nor one
      of our own probes. */
  predicate RealUser(l: AccessLine) {
    && l.Accepted? && l.tag != "api"
    && !(|l.ip| >= 4 && l.ip[..4] == "127.")
    && !(|l.email| >= 5 && l.email[..5] == "probe")
  }

  lemma RealUsersCount(l: AccessLine)
    ensures DpiParse.Counted(l) <==> RealUser(l)
  {
  }

  /** How many accept lines there are of a protocol from a place. */
  function AcceptsFrom(net: Net, lines: seq<AccessLine>, key: RowKey, f: Facet): nat {
    if lines == [] then 0
    else
      var n := |lines| - 1;
      var l := lines[n];
      AcceptsFrom(net, lines[..n], key, f)
      + if RealUser(l) && TagName(l.tag) == key.tag && LocatedIn(net, l.ip, key.geo) && Bears(f, Conns, l.ip) then 1 else 0
  }

  /** How many reject lines there are of a protocol from a place. */
  function RefusalsFrom(net: Net, lines: seq<RejectLine>, key: RowKey, f: Facet): nat {
    if lines == [] then 0
    else
      var n := |lines| - 1;
      var l := lines[n];
      RefusalsFrom(net, lines[..n], key, f)
      + if l.Rejected? && KindName(l.kind) == key.tag && LocatedIn(net, l.ip, key.geo) && Bears(f, Fails(Shortened(l.reason)), l.ip)
        then 1 else 0
  }

  /** What the lines of a key become in the receiver. */
  datatype Naming<!K> = Naming(tag: K -> string, what: K -> What)

  function AccessNaming(): Naming<string> { Naming((raw: string) => TagName(raw), (raw: string) => Conns) }

  function RejectNaming(): Naming<(string, string)> {
    Naming((k: (string, string)) => KindName(k.0), (k: (string, string)) => Fails(Shortened(k.1)))
  }

  function OneAt<K>(net: Net, e: Event<K>, key: RowKey, f: Facet, names: Naming<K>): int {
    if names.tag(e.key) == "" || names.tag(e.key) != key.tag then 0 else At(net, f, names.what(e.key), key.geo)(e.ip, 1)
  }

  function EventsAt<K>(net: Net, events: seq<Event<K>>, key: RowKey, f: Facet, names: Naming<K>): int {
    if events == [] then 0
    else
      var n := |events| - 1;
      EventsAt(net, events[..n], key, f, names) + OneAt(net, events[n], key, f, names)
  }

  function BucketAt<K>(net: Net, key: RowKey, f: Facet, names: Naming<K>): (K, Bucket) -> int {
    (k: K, b: Bucket) => EntryAt(net, key, f, names.tag(k), names.what(k), b.count, b.ips)
  }

  lemma BumpAt(ips: Dict<string, int>, ip: string, net: Net, f: Facet, what: What, place: Geo)
    ensures Sum(Bump(ips, ip, 1), At(net, f, what, place)) == Sum(ips, At(net, f, what, place)) + At(net, f, what, place)(ip, 1)
  {
    hide Sum, Find, Put, LocatedIn, Bears;
    SumPut(ips, ip, Get(ips, ip, 0) + 1, At(net, f, what, place));
  }

  lemma SeenAt(net: Net, key: RowKey, f: Facet, tag: string, what: What, b: Bucket, ip: string, email: string)
    requires Balanced(b)
    ensures var b' := Seen(b, ip, email);
            EntryAt(net, key, f, tag, what, b'.count, b'.ips)
            == EntryAt(net, key, f, tag, what, b.count, b.ips)
               + if tag == "" || tag != key.tag then 0 else At(net, f, what, key.geo)(ip, 1)
  {
    hide Sum, Bump, LocatedIn, Bears, Unique;
    if ip != "" {
      SumBump(b.ips, ip, 1);
      BumpAt(b.ips, ip, net, f, what, key.geo);
    }
  }

  lemma NothingSeenAt(net: Net, key: RowKey, f: Facet, tag: string, what: What)
    ensures EntryAt(net, key, f, tag, what, EMPTY.count, EMPTY.ips) == 0 && Balanced(EMPTY)
  {
    hide LocatedIn, Bears;
  }

  /** Aggregation keeps what came from where. */
  lemma {:induction false} AggregateAt<K>(net: Net, events: seq<Event<K>>, key: RowKey, f: Facet, names: Naming<K>)
    ensures Sum(Aggregate(events), BucketAt(net, key, f, names)) == EventsAt(net, events, key, f, names)
  {
    hide Balanced, Seen, Unique, EntryAt, At, Find;
    if events != [] {
      var n := |events| - 1;
      AggregateAt(net, events[..n], key, f, names);
      AggregateCounts(events[..n], (k: K) => true);
      var d, e := Aggregate(events[..n]), events[n];
      var b := Get(d, e.key, EMPTY);
      NothingSeenAt(net, key, f, names.tag(e.key), names.what(e.key));
      SeenAt(net, key, f, names.tag(e.key), names.what(e.key), b, e.ip, e.email);
      SumPut(d, e.key, Seen(b, e.ip, e.email), BucketAt(net, key, f, names));
    }
  }

  /** The addresses that the events of a key came from. */
  function AddressesOf<K(==)>(events: seq<Event<K>>, k: K): set<string> {
    set i | 0 <= i < |events| && events[i].key == k && events[i].ip != "" :: events[i].ip
  }

  /** No key with more addresses than a report lists. */
  ghost predicate FewAddresses<K(!new)>(events: seq<Event<K>>) {
    forall k: K :: |AddressesOf(events, k)| <= 20
  }

  predicate Within<K(==)>(d: Dict<K, Bucket>, events: seq<Event<K>>) {
    forall i | 0 <= i < |d| :: InSet(d[i].value.ips, AddressesOf(events, d[i].key))
  }

  lemma MoreAddresses<K>(events: seq<Event<K>>, n: nat, k: K)
    requires n < |events|
    ensures AddressesOf(events[..n], k) <= AddressesOf(events, k)
    ensures events[n].ip != "" ==> events[n].ip in AddressesOf(events, events[n].key)
  {
    forall ip | ip in AddressesOf(events[..n], k) ensures ip in AddressesOf(events, k) {
      var i :| 0 <= i < n && events[..n][i].key == k && events[..n][i].ip == ip && ip != "";
      assert events[i].ip == ip && events[i].key == k;
    }
  }

  predicate InSet(ips: Dict<string, int>, s: set<string>) { forall j | 0 <= j < |ips| :: ips[j].key in s }

  lemma SeenWithin(b: Bucket, ip: string, email: string, s: set<string>)
    requires InSet(b.ips, s) && (ip != "" ==> ip in s)
    ensures InSet(Seen(b, ip, email).ips, s)
  {
  }

  lemma {:induction false} AggregateWithin<K>(events: seq<Event<K>>)
    ensures Within(Aggregate(events), events)
  {
    hide Find, Seen, AddressesOf, InSet;
    if events != [] {
      var n := |events| - 1;
      AggregateWithin(events[..n]);
      var d, e := Aggregate(events[..n]), events[n];
      forall i | 0 <= i < |d| ensures InSet(d[i].value.ips, AddressesOf(events, d[i].key)) {
        MoreAddresses(events, n, d[i].key);
        Larger(d[i].value.ips, AddressesOf(events[..n], d[i].key), AddressesOf(events, d[i].key));
      }
      MoreAddresses(events, n, e.key);
      NoAddresses(AddressesOf(events, e.key));
      SeenWithin(Get(d, e.key, EMPTY), e.ip, e.email, AddressesOf(events, e.key));
    }
  }

  lemma Larger(ips: Dict<string, int>, s: set<string>, t: set<string>)
    requires InSet(ips, s) && s <= t
    ensures InSet(ips, t)
  {
  }

  lemma NoAddresses(s: set<string>)
    ensures InSet([], s)
  {
  }

  lemma {:induction false} NoMoreThan(ips: Dict<string, int>, s: set<string>)
    requires Unique(ips) && forall i | 0 <= i < |ips| :: ips[i].key in s
    ensures |ips| <= |s|
  {
    if ips != [] {
      NoMoreThan(ips[1..], s - {ips[0].key});
    }
  }

  predicate Short<K>(d: Dict<K, Bucket>) { forall i | 0 <= i < |d| :: |d[i].value.ips| <= TOP_IPS }

  lemma FewIsShort<K(!new)>(events: seq<Event<K>>)
    requires FewAddresses(events)
    ensures Short(Aggregate(events))
  {
    hide Aggregate, AddressesOf;
    var d := Aggregate(events);
    AggregateWithin(events);
    AggregateCounts(events, (k: K) => true);
    forall i | 0 <= i < |d| ensures |d[i].value.ips| <= TOP_IPS {
      assert Balanced(d[i].value);
      NoMoreThan(d[i].value.ips, AddressesOf(events, d[i].key));
    }
  }

  lemma TopKeeps(ips: Dict<string, int>, f: (string, int) -> int)
    requires |ips| <= TOP_IPS
    ensures Sum(Top(ips, TOP_IPS), f) == Sum(ips, f)
  {
    SortedKeeps(ips, f);
  }

  lemma TopKeepsEntry(net: Net, key: RowKey, f: Facet, tag: string, what: What, count: int, ips: Dict<string, int>)
    requires |ips| <= TOP_IPS
    ensures EntryAt(net, key, f, tag, what, count, Top(ips, TOP_IPS)) == EntryAt(net, key, f, tag, what, count, ips)
  {
    hide Top, Sum, At;
    TopKeeps(ips, All());
    TopKeeps(ips, At(net, f, what, key.geo));
  }

  lemma {:induction false} AccessReportAt(net: Net, d: Dict<string, Bucket>, key: RowKey, f: Facet)
    requires Short(d)
    ensures AccessAt(net, AccessReport(d), key, f) == Sum(d, BucketAt(net, key, f, AccessNaming()))
  {
    hide Top, Sum, EntryAt, TagName, AccessReport;
    AccessReportIs(d);
    if d == [] {
      NothingIn<string>(BucketAt(net, key, f, AccessNaming()));
    } else {
      var n := |d| - 1;
      AccessReportAt(net, d[..n], key, f);
      AccessReportIs(d[..n]);
      assert AccessReport(d)[..n] == AccessReport(d[..n]);
      assert d == d[..n + 1];
      SumSnoc(d, n, BucketAt(net, key, f, AccessNaming()));
      TopKeepsEntry(net, key, f, TagName(d[n].key), Conns, d[n].value.count, d[n].value.ips);
    }
  }

  lemma {:induction false} RejectReportAt(net: Net, d: Dict<(string, string), Bucket>, key: RowKey, f: Facet)
    requires Short(d)
    ensures RejectsAt(net, RejectReport(d), key, f) == Sum(d, BucketAt(net, key, f, RejectNaming()))
  {
    hide Top, Sum, EntryAt, KindName, Shortened, RejectReport;
    RejectReportIs(d);
    if d == [] {
      NothingIn<(string, string)>(BucketAt(net, key, f, RejectNaming()));
    } else {
      var n := |d| - 1;
      RejectReportAt(net, d[..n], key, f);
      RejectReportIs(d[..n]);
      assert RejectReport(d)[..n] == RejectReport(d[..n]);
      assert d == d[..n + 1];
      SumSnoc(d, n, BucketAt(net, key, f, RejectNaming()));
      TopKeepsEntry(net, key, f, KindName(d[n].key.0), Fails(Shortened(d[n].key.1)), d[n].value.count, d[n].value.ips);
    }
  }

  lemma NothingIn<K>(f: (K, Bucket) -> int)
    ensures Sum<K, Bucket>([], f) == 0
  {
  }

  lemma EventsAtSnoc<K>(net: Net, events: seq<Event<K>>, e: Event<K>, key: RowKey, f: Facet, names: Naming<K>)
    ensures EventsAt(net, events + [e], key, f, names) == EventsAt(net, events, key, f, names) + OneAt(net, e, key, f, names)
  {
    hide OneAt;
    assert (events + [e])[..|events|] == events;
  }

  lemma {:induction false} AccessEventsAt(net: Net, lines: seq<AccessLine>, key: RowKey, f: Facet)
    requires Matched(lines, [])
    ensures EventsAt(net, AccessEvents(lines), key, f, AccessNaming()) == AcceptsFrom(net, lines, key, f)
  {
    hide EventsAt, RealUser, LocatedIn, Bears, TagName, DpiParse.Counted;
    if lines == [] {
      NoEventsAt(net, key, f, AccessNaming());
    } else {
      var n := |lines| - 1;
      var l := lines[n];
      AccessEventsAt(net, lines[..n], key, f);
      RealUsersCount(l);
      var before := AccessEvents(lines[..n]);
      assert before + [] == before;
      if RealUser(l) {
        RealIsAccepted(l);
        EventsAtSnoc(net, before, Event(l.tag, l.ip, l.email), key, f, AccessNaming());
        OtherNames(l.tag);
      }
    }
  }

  lemma NoEventsAt<K>(net: Net, key: RowKey, f: Facet, names: Naming<K>)
    ensures EventsAt(net, [], key, f, names) == 0
  {
  }

  lemma RealIsAccepted(l: AccessLine)
    ensures RealUser(l) ==> l.Accepted?
  {
  }

  lemma {:induction false} RejectEventsAt(net: Net, lines: seq<RejectLine>, key: RowKey, f: Facet)
    requires Matched([], lines)
    ensures EventsAt(net, RejectEvents(lines), key, f, RejectNaming()) == RefusalsFrom(net, lines, key, f)
  {
    hide EventsAt, LocatedIn, Bears, Shortened, KindName;
    if lines == [] {
      NoEventsAt(net, key, f, RejectNaming());
    } else {
      var n := |lines| - 1;
      var l := lines[n];
      RejectEventsAt(net, lines[..n], key, f);
      var before := RejectEvents(lines[..n]);
      assert before + [] == before;
      if l.Rejected? {
        EventsAtSnoc(net, before, Event((l.kind, l.reason), l.ip, ""), key, f, RejectNaming());
        OtherNames(l.kind);
      }
    }
  }

  /** From log lines to the table, place by place: while at most twenty
      addresses use an inbound or meet with one reason, every row holds exactly
      the lines of its protocol from its place. */
  lemma LinesByPlace(net: Net, access: seq<AccessLine>, rejects: seq<RejectLine>, f: Facet)
    requires Matched(access, rejects) && Asked(net, f) && !f.From?
    requires FewAddresses(AccessEvents(access)) && FewAddresses(RejectEvents(rejects))
    ensures var rows := Rows(net, ParseAccess(access), ParseRejects(rejects));
            && (forall i | 0 <= i < |rows| ::
                  RowValue(rows[i], f) == AcceptsFrom(net, access, rows[i].key, f) + RefusalsFrom(net, rejects, rows[i].key, f))
            && (forall key | (forall i | 0 <= i < |rows| :: rows[i].key != key) ::
                  AcceptsFrom(net, access, key, f) + RefusalsFrom(net, rejects, key, f) == 0)
  {
    hide Rows, RowValue, AccessAt, RejectsAt, AcceptsFrom, RefusalsFrom, Asked, FewAddresses, AccessReport, RejectReport;
    RowsByPlace(net, ParseAccess(access), ParseRejects(rejects), f);
    FewIsShort(AccessEvents(access));
    FewIsShort(RejectEvents(rejects));
    forall key
      ensures AccessAt(net, ParseAccess(access), key, f) == AcceptsFrom(net, access, key, f)
      ensures RejectsAt(net, ParseRejects(rejects), key, f) == RefusalsFrom(net, rejects, key, f)
    {
      AccessReportAt(net, Aggregate(AccessEvents(access)), key, f);
      RejectReportAt(net, Aggregate(RejectEvents(rejects)), key, f);
      AggregateAt(net, AccessEvents(access), key, f, AccessNaming());
      AggregateAt(net, RejectEvents(rejects), key, f, RejectNaming());
      AccessEventsAt(net, access, key, f);
      RejectEventsAt(net, rejects, key, f);
    }
  }
}
