/** The receiving half: WebAppServer._dpi_exit_rows (bot/core/web_server.py)
    buckets a report by country, network and protocol. */
module DpiRows {
  import opened Wrappers
  import opened Dict
  import opened DpiParse

  datatype Geo = Geo(cc: Option<string>, asn: Option<int>, org: string)

  const NOWHERE := Geo(None, None, "")
  const TUNNEL := Geo(Some("*TUNNEL*"), None, "entry-forward")

  /** Our own nodes, and what the geo database says of other addresses. */
  datatype Net = Net(nodes: set<string>, places: map<string, Geo>)

  function GeoKey(net: Net, ip: string): Geo {
    if ip == "" then NOWHERE
    else if ip in net.nodes then TUNNEL
    else if ip in net.places then net.places[ip] else NOWHERE
  }

  /** Known inbounds get the protocol's name, others pass through. */
  function TagName(raw: string): string {
    match raw
    case "inbound-443" => "reality"
    case "inbound-2053" => "cf-ws"
    case "inbound-8444" => "ss2022"
    case "inbound-2054" => "xhttp"
    case _ => raw
  }

  function KindName(raw: string): string {
    match raw
    case "ws-upgrade" => "cf-ws"
    case _ => raw
  }

  datatype RowKey = RowKey(geo: Geo, tag: string)

  datatype RowBucket = RowBucket(conns: int, fails: int, ips: Dict<string, int>, reasons: Dict<string, int>)

  const NO_ROW := RowBucket(0, 0, [], [])

  type Buckets = Dict<RowKey, RowBucket>

  /** Addresses of our own nodes are not listed. */
  function NoteIp(net: Net, ips: Dict<string, int>, ip: string, n: int): Dict<string, int> {
    if ip != "" && ip !in net.nodes then Bump(ips, ip, n) else ips
  }

  function NoteReason(reasons: Dict<string, int>, reason: string, n: int): Dict<string, int> {
    if reason != "" then Bump(reasons, reason, n) else reasons
  }

  /** One address of an entry: n connections or n rejects. */
  datatype What = Conns | Fails(reason: string)

  function Counted(b: RowBucket, what: What, n: int): RowBucket {
    match what
    case Conns => b.(conns := b.conns + n)
    case Fails(reason) => b.(fails := b.fails + n, reasons := NoteReason(b.reasons, reason, n))
  }

  function AddIp(d: Buckets, net: Net, tag: string, what: What, ip: string, n: int): Buckets {
    var key := RowKey(GeoKey(net, ip), tag);
    var b := Get(d, key, NO_ROW);
    Put(d, key, Counted(b, what, n).(ips := NoteIp(net, b.ips, ip, n)))
  }

  function AddIps(d: Buckets, net: Net, tag: string, what: What, ips: Dict<string, int>): Buckets {
    if ips == [] then d
    else
      var n := |ips| - 1;
      AddIp(AddIps(d, net, tag, what, ips[..n]), net, tag, what, ips[n].key, ips[n].value)
  }

  /** What the reporter cut off still counts, without a place. */
  function AddExtra(d: Buckets, tag: string, what: What, extra: int): Buckets {
    if extra == 0 then d
    else
      var key := RowKey(NOWHERE, tag);
      Put(d, key, Counted(Get(d, key, NO_ROW), what, extra))
  }

  function Max(a: int, b: int): int { if a >= b then a else b }

  function AddEntry(d: Buckets, net: Net, tag: string, what: What, count: int, ips: Dict<string, int>): Buckets {
    if tag == "" then d
    else AddExtra(AddIps(d, net, tag, what, ips), tag, what, Max(0, count - Sum(ips, All())))
  }

  const REASON_MAX: nat := 120

  function Clip(reason: string): string {
    if |reason| > REASON_MAX then reason[..REASON_MAX] else reason
  }

  function AddAccess(d: Buckets, net: Net, es: seq<AccessEntry>): Buckets {
    if es == [] then d
    else
      var n := |es| - 1;
      AddEntry(AddAccess(d, net, es[..n]), net, TagName(es[n].tag), Conns, es[n].conns, es[n].ips)
  }

  function AddRejects(d: Buckets, net: Net, es: seq<RejectEntry>): Buckets {
    if es == [] then d
    else
      var n := |es| - 1;
      AddEntry(AddRejects(d, net, es[..n]), net, KindName(es[n].kind), Fails(Clip(es[n].reason)), es[n].count, es[n].ips)
  }

  datatype Row = Row(key: RowKey, conns: int, fails: int, topIps: Dict<string, int>, reasons: Dict<string, int>)

  const ROW_IPS: nat := 10

  function AsRows(d: Buckets): seq<Row> {
    if d == [] then []
    else [Row(d[0].key, d[0].value.conns, d[0].value.fails, Top(d[0].value.ips, ROW_IPS), d[0].value.reasons)] + AsRows(d[1..])
  }

  function Rows(net: Net, access: seq<AccessEntry>, rejects: seq<RejectEntry>): seq<Row> {
    AsRows(AddRejects(AddAccess([], net, access), net, rejects))
  }

  // ---- what rows add up to -----------------------------------------------------------------

  /** A measure of buckets that an operation can be followed through: the
      connections, the rejects or one reason, of some protocols. */
  datatype Measure = ConnsOf(p: string -> bool) | FailsOf(p: string -> bool) | ReasonOf(p: string -> bool, reason: string)

  function Weigh(m: Measure, tag: string, b: RowBucket): int {
    if !m.p(tag) then 0
    else match m
      case ConnsOf(_) => b.conns
      case FailsOf(_) => b.fails
      case ReasonOf(_, reason) => Get(b.reasons, reason, 0)
  }

  function Weight(m: Measure): (RowKey, RowBucket) -> int {
    (k: RowKey, b: RowBucket) => Weigh(m, k.tag, b)
  }

  /** What n of this kind weigh. */
  function Share(m: Measure, tag: string, what: What, n: int): int {
    if !m.p(tag) then 0
    else match m
      case ConnsOf(_) => if what.Conns? then n else 0
      case FailsOf(_) => if what.Fails? then n else 0
      case ReasonOf(_, reason) => if what.Fails? && what.reason == reason then n else 0
  }

  predicate Real(m: Measure) { m.ReasonOf? ==> m.reason != "" }

  lemma CountedWeighs(m: Measure, tag: string, b: RowBucket, what: What, n: int)
    requires Real(m)
    ensures Weigh(m, tag, Counted(b, what, n)) == Weigh(m, tag, b) + Share(m, tag, what, n)
  {
    hide Find;
    if what.Fails? && m.ReasonOf? && what.reason != "" {
      GetPut(b.reasons, what.reason, Get(b.reasons, what.reason, 0) + n, m.reason, 0);
    }
  }

  lemma IpsDoNotWeigh(m: Measure, tag: string, b: RowBucket, ips: Dict<string, int>)
    ensures Weigh(m, tag, b.(ips := ips)) == Weigh(m, tag, b)
  {
    hide Get;
  }

  lemma EmptyWeighsNothing(m: Measure, tag: string)
    ensures Weigh(m, tag, NO_ROW) == 0
  {
  }

  lemma PutWeighs(d: Buckets, k: RowKey, b: RowBucket, m: Measure)
    ensures Sum(Put(d, k, b), Weight(m)) == Sum(d, Weight(m)) + Weigh(m, k.tag, b) - Weigh(m, k.tag, Get(d, k, NO_ROW))
  {
    hide Weigh, Find, Put, Sum;
    SumPut(d, k, b, Weight(m));
    EmptyWeighsNothing(m, k.tag);
    assert Weight(m)(k, b) == Weigh(m, k.tag, b);
    if Has(d, k) { assert Weight(m)(k, d[Find(d, k)].value) == Weigh(m, k.tag, d[Find(d, k)].value); }
  }

  lemma AddIpWeighs(d: Buckets, net: Net, tag: string, what: What, ip: string, n: int, m: Measure)
    requires Real(m)
    ensures Sum(AddIp(d, net, tag, what, ip, n), Weight(m)) == Sum(d, Weight(m)) + Share(m, tag, what, n)
  {
    hide Weigh, Share, Counted, Get, Put, Sum, NoteIp, GeoKey;
    var key := RowKey(GeoKey(net, ip), tag);
    var b := Get(d, key, NO_ROW);
    var b' := Counted(b, what, n);
    PutWeighs(d, key, b'.(ips := NoteIp(net, b.ips, ip, n)), m);
    IpsDoNotWeigh(m, tag, b', NoteIp(net, b.ips, ip, n));
    CountedWeighs(m, tag, b, what, n);
  }

  lemma ShareAdds(m: Measure, tag: string, what: What, a: int, b: int)
    ensures Share(m, tag, what, a + b) == Share(m, tag, what, a) + Share(m, tag, what, b)
    ensures Share(m, tag, what, 0) == 0
  {
  }

  lemma {:induction false} AddIpsWeighs(d: Buckets, net: Net, tag: string, what: What, ips: Dict<string, int>, m: Measure)
    requires Real(m)
    ensures Sum(AddIps(d, net, tag, what, ips), Weight(m)) == Sum(d, Weight(m)) + Share(m, tag, what, Sum(ips, All()))
  {
    hide AddIp, Share;
    if ips == [] {
      ShareAdds(m, tag, what, 0, 0);
    } else {
      var n := |ips| - 1;
      AddIpsWeighs(d, net, tag, what, ips[..n], m);
      AddIpWeighs(AddIps(d, net, tag, what, ips[..n]), net, tag, what, ips[n].key, ips[n].value, m);
      assert ips == ips[..n + 1];
      SumSnoc(ips, n, All());
      ShareAdds(m, tag, what, Sum(ips[..n], All()), ips[n].value);
    }
  }

  /** An entry adds what it claims, or what its addresses add up to if that is
      more, to its protocol and to nothing else. */
  lemma AddEntryWeighs(d: Buckets, net: Net, tag: string, what: What, count: int, ips: Dict<string, int>, m: Measure)
    requires Real(m)
    ensures Sum(AddEntry(d, net, tag, what, count, ips), Weight(m))
            == Sum(d, Weight(m)) + if tag == "" then 0 else Share(m, tag, what, Max(count, Sum(ips, All())))
  {
    hide AddIps, Share, Weigh, Counted, Get, Put, Sum;
    if tag != "" {
      AddIpsWeighs(d, net, tag, what, ips, m);
      var d1, seen := AddIps(d, net, tag, what, ips), Sum(ips, All());
      var extra := Max(0, count - seen);
      ShareAdds(m, tag, what, seen, extra);
      ShareAdds(m, tag, what, 0, 0);
      if extra != 0 {
        var key := RowKey(NOWHERE, tag);
        var b := Get(d1, key, NO_ROW);
        PutWeighs(d1, key, Counted(b, what, extra), m);
        CountedWeighs(m, tag, b, what, extra);
      }
    }
  }

  /** What the entries of a report weigh, entry by entry. */
  function AccessShare(es: seq<AccessEntry>, m: Measure): int {
    if es == [] then 0
    else
      var n := |es| - 1;
      AccessShare(es[..n], m)
      + if TagName(es[n].tag) == "" then 0 else Share(m, TagName(es[n].tag), Conns, Max(es[n].conns, Sum(es[n].ips, All())))
  }

  function RejectShare(es: seq<RejectEntry>, m: Measure): int {
    if es == [] then 0
    else
      var n := |es| - 1;
      RejectShare(es[..n], m)
      + if KindName(es[n].kind) == "" then 0
        else Share(m, KindName(es[n].kind), Fails(Clip(es[n].reason)), Max(es[n].count, Sum(es[n].ips, All())))
  }

  lemma {:induction false} AddAccessWeighs(d: Buckets, net: Net, es: seq<AccessEntry>, m: Measure)
    requires Real(m)
    ensures Sum(AddAccess(d, net, es), Weight(m)) == Sum(d, Weight(m)) + AccessShare(es, m)
  {
    hide AddEntry, Share, TagName, Sum;
    if es != [] {
      var n := |es| - 1;
      AddAccessWeighs(d, net, es[..n], m);
      AddEntryWeighs(AddAccess(d, net, es[..n]), net, TagName(es[n].tag), Conns, es[n].conns, es[n].ips, m);
    }
  }

  lemma {:induction false} AddRejectsWeighs(d: Buckets, net: Net, es: seq<RejectEntry>, m: Measure)
    requires Real(m)
    ensures Sum(AddRejects(d, net, es), Weight(m)) == Sum(d, Weight(m)) + RejectShare(es, m)
  {
    hide AddEntry, Share, KindName, Clip, Sum;
    if es != [] {
      var n := |es| - 1;
      AddRejectsWeighs(d, net, es[..n], m);
      AddEntryWeighs(AddRejects(d, net, es[..n]), net, KindName(es[n].kind), Fails(Clip(es[n].reason)), es[n].count, es[n].ips, m);
    }
  }

  /** What the rows weigh. */
  function RowsWeigh(rows: seq<Row>, m: Measure): int {
    if rows == [] then 0
    else Weigh(m, rows[0].key.tag, RowBucket(rows[0].conns, rows[0].fails, [], rows[0].reasons)) + RowsWeigh(rows[1..], m)
  }

  lemma {:induction false} AsRowsWeigh(d: Buckets, m: Measure)
    ensures RowsWeigh(AsRows(d), m) == Sum(d, Weight(m))
  {
    hide Top, Weigh;
    if d != [] {
      AsRowsWeigh(d[1..], m);
      var b := d[0].value;
      IpsDoNotWeigh(m, d[0].key.tag, b, []);
      assert RowBucket(b.conns, b.fails, [], b.reasons) == b.(ips := []);
      assert Weight(m)(d[0].key, b) == Weigh(m, d[0].key.tag, b);
    }
  }

  /** Conservation in the receiver: connections, rejects and every reason, per
      protocol, whatever was merged or cut. */
  lemma RowsConserve(net: Net, access: seq<AccessEntry>, rejects: seq<RejectEntry>, m: Measure)
    requires Real(m)
    ensures RowsWeigh(Rows(net, access, rejects), m) == AccessShare(access, m) + RejectShare(rejects, m)
  {
    hide Weigh, AccessShare, RejectShare, AddAccess, AddRejects, AsRows;
    var d := AddAccess([], net, access);
    AddAccessWeighs([], net, access, m);
    AddRejectsWeighs(d, net, rejects, m);
    AsRowsWeigh(AddRejects(d, net, rejects), m);
    assert Sum<RowKey, RowBucket>([], Weight(m)) == 0;
  }

  // ---- end to end ------------------------------------------------------------------------------

  function ByProtocol(p: string -> bool): string -> bool {
    (raw: string) => p(TagName(raw))
  }

  function ByKind(p: string -> bool): ((string, string)) -> bool {
    (k: (string, string)) => p(KindName(k.0))
  }

  function ByReason(p: string -> bool, reason: string): ((string, string)) -> bool {
    (k: (string, string)) => p(KindName(k.0)) && Clip(k.1) == reason
  }

  predicate NamedTags(es: seq<AccessEntry>) {
    forall i | 0 <= i < |es| :: es[i].tag != ""
  }

  predicate NamedKinds(es: seq<RejectEntry>) {
    forall i | 0 <= i < |es| :: es[i].kind != ""
  }

  lemma {:induction false} ConnsInSnoc(es: seq<AccessEntry>, p: string -> bool)
    requires es != []
    ensures var n := |es| - 1; ConnsIn(es, p) == ConnsIn(es[..n], p) + if p(es[n].tag) then es[n].conns else 0
  {
    if |es| > 1 {
      ConnsInSnoc(es[1..], p);
      assert es[1..][..|es| - 2] == es[..|es| - 1][1..];
    }
  }

  lemma {:induction false} CountsInSnoc(es: seq<RejectEntry>, p: ((string, string)) -> bool)
    requires es != []
    ensures var n := |es| - 1; CountsIn(es, p) == CountsIn(es[..n], p) + if p((es[n].kind, es[n].reason)) then es[n].count else 0
  {
    if |es| > 1 {
      CountsInSnoc(es[1..], p);
      assert es[1..][..|es| - 2] == es[..|es| - 1][1..];
    }
  }

  /** A report cut by its sender weighs exactly what it claims. */
  lemma {:induction false} AccessShareIs(es: seq<AccessEntry>, p: string -> bool, m: Measure)
    requires AccessTruncated(es) && NamedTags(es) && m.p == p
    ensures AccessShare(es, m) == if m.ConnsOf? then ConnsIn(es, ByProtocol(p)) else 0
  {
    hide Truncated;
    if es != [] {
      var n := |es| - 1;
      AccessShareIs(es[..n], p, m);
      ConnsInSnoc(es, ByProtocol(p));
      assert Truncated(es[n].ips, es[n].conns);
      CutWeighsAll(es[n].ips, es[n].conns);
      assert TagName(es[n].tag) != "";
    }
  }

  lemma CutWeighsAll(ips: Dict<string, int>, total: int)
    requires Truncated(ips, total)
    ensures Max(total, Sum(ips, All())) == total
  {
  }

  function RejectQuestion(m: Measure): ((string, string)) -> bool {
    if m.ReasonOf? then ByReason(m.p, m.reason) else ByKind(m.p)
  }

  lemma {:induction false} RejectShareIs(es: seq<RejectEntry>, m: Measure)
    requires RejectsTruncated(es) && NamedKinds(es)
    ensures RejectShare(es, m) == if m.ConnsOf? then 0 else CountsIn(es, RejectQuestion(m))
  {
    hide Truncated, Clip;
    if es != [] {
      var n := |es| - 1;
      RejectShareIs(es[..n], m);
      CountsInSnoc(es, RejectQuestion(m));
      assert Truncated(es[n].ips, es[n].count);
      CutWeighsAll(es[n].ips, es[n].count);
      assert KindName(es[n].kind) != "";
    }
  }

  /** What the patterns guarantee of what they capture. */
  predicate Matched(access: seq<AccessLine>, rejects: seq<RejectLine>) {
    && (forall i | 0 <= i < |access| && access[i].Accepted? :: access[i].tag != "")
    && (forall i | 0 <= i < |rejects| && rejects[i].Rejected? :: rejects[i].kind != "")
  }

  lemma {:induction false} EventsNamed(lines: seq<AccessLine>)
    requires Matched(lines, [])
    ensures forall i | 0 <= i < |AccessEvents(lines)| :: AccessEvents(lines)[i].key != ""
  {
    if lines != [] { EventsNamed(lines[..|lines| - 1]); }
  }

  lemma {:induction false} RejectsNamed(lines: seq<RejectLine>)
    requires Matched([], lines)
    ensures forall i | 0 <= i < |RejectEvents(lines)| :: RejectEvents(lines)[i].key.0 != ""
  {
    if lines != [] { RejectsNamed(lines[..|lines| - 1]); }
  }

  lemma {:induction false} AggregateKeys<K>(events: seq<Event<K>>, ok: K -> bool)
    requires forall i | 0 <= i < |events| :: ok(events[i].key)
    ensures forall i | 0 <= i < |Aggregate(events)| :: ok(Aggregate(events)[i].key)
  {
    hide Find, Seen;
    if events != [] { AggregateKeys(events[..|events| - 1], ok); }
  }

  lemma {:induction false} ReportNamed(d: Dict<string, Bucket>)
    requires forall i | 0 <= i < |d| :: d[i].key != ""
    ensures NamedTags(AccessReport(d))
  {
    hide Top;
    if d != [] { ReportNamed(d[1..]); }
  }

  lemma {:induction false} RejectReportNamed(d: Dict<(string, string), Bucket>)
    requires forall i | 0 <= i < |d| :: d[i].key.0 != ""
    ensures NamedKinds(RejectReport(d))
  {
    hide Top;
    if d != [] { RejectReportNamed(d[1..]); }
  }

  lemma ParsedNamed(access: seq<AccessLine>, rejects: seq<RejectLine>)
    requires Matched(access, rejects)
    ensures NamedTags(ParseAccess(access)) && NamedKinds(ParseRejects(rejects))
  {
    EventsNamed(access);
    RejectsNamed(rejects);
    AggregateKeys(AccessEvents(access), (k: string) => k != "");
    AggregateKeys(RejectEvents(rejects), (k: (string, string)) => k.0 != "");
    ReportNamed(Aggregate(AccessEvents(access)));
    RejectReportNamed(Aggregate(RejectEvents(rejects)));
  }

  /** What the log lines weigh: counted accept lines, reject lines, or reject
      lines with one reason, of some protocols. */
  function LinesWeigh(access: seq<AccessLine>, rejects: seq<RejectLine>, m: Measure): int {
    if m.ConnsOf? then Among(AccessEvents(access), ByProtocol(m.p)) else Among(RejectEvents(rejects), RejectQuestion(m))
  }

  /** End to end: for any batch of lines the rows add up to the lines, for
      every set of protocols and every reason, despite truncation, renaming
      and merging by place. */
  lemma EndToEnd(net: Net, access: seq<AccessLine>, rejects: seq<RejectLine>, m: Measure)
    requires Matched(access, rejects) && Real(m)
    ensures RowsWeigh(Rows(net, ParseAccess(access), ParseRejects(rejects)), m) == LinesWeigh(access, rejects, m)
  {
    hide ParseAccess, ParseRejects, Rows, RowsWeigh, AccessShare, RejectShare, Matched;
    RowsConserve(net, ParseAccess(access), ParseRejects(rejects), m);
    ParsedNamed(access, rejects);
    ReportCounts(access, rejects, ByProtocol(m.p), RejectQuestion(m));
    AccessShareIs(ParseAccess(access), m.p, m);
    RejectShareIs(ParseRejects(rejects), m);
  }

  // ---- whose addresses are listed -----------------------------------------------------------

  predicate Strangers(net: Net, ips: Dict<string, int>) {
    forall i | 0 <= i < |ips| :: ips[i].key != "" && ips[i].key !in net.nodes
  }

  predicate AllStrangers(net: Net, d: Buckets) {
    forall i | 0 <= i < |d| :: Strangers(net, d[i].value.ips)
  }

  lemma NoteIpStrange(net: Net, ips: Dict<string, int>, ip: string, n: int)
    requires Strangers(net, ips)
    ensures Strangers(net, NoteIp(net, ips, ip, n))
  {
  }

  lemma GetStrange(net: Net, d: Buckets, k: RowKey)
    requires AllStrangers(net, d)
    ensures Strangers(net, Get(d, k, NO_ROW).ips)
  {
    hide Strangers;
    assert Strangers(net, []) by { NoneStrange(net); }
  }

  lemma NoneStrange(net: Net)
    ensures Strangers(net, [])
  {
  }

  lemma PutStrange(net: Net, d: Buckets, k: RowKey, b: RowBucket)
    requires AllStrangers(net, d) && Strangers(net, b.ips)
    ensures AllStrangers(net, Put(d, k, b))
  {
    hide Strangers;
  }

  lemma {:induction false} AddIpsStrange(d: Buckets, net: Net, tag: string, what: What, ips: Dict<string, int>)
    requires AllStrangers(net, d)
    ensures AllStrangers(net, AddIps(d, net, tag, what, ips))
  {
    hide Strangers, AllStrangers, NoteIp, Get, Put, GeoKey;
    if ips != [] {
      var n := |ips| - 1;
      AddIpsStrange(d, net, tag, what, ips[..n]);
      var d1, ip := AddIps(d, net, tag, what, ips[..n]), ips[n].key;
      var key := RowKey(GeoKey(net, ip), tag);
      var b := Get(d1, key, NO_ROW);
      GetStrange(net, d1, key);
      NoteIpStrange(net, b.ips, ip, ips[n].value);
      PutStrange(net, d1, key, Counted(b, what, ips[n].value).(ips := NoteIp(net, b.ips, ip, ips[n].value)));
    }
  }

  lemma AddEntryStrange(d: Buckets, net: Net, tag: string, what: What, count: int, ips: Dict<string, int>)
    requires AllStrangers(net, d)
    ensures AllStrangers(net, AddEntry(d, net, tag, what, count, ips))
  {
    hide Strangers, AllStrangers, AddIps, Get, Put, Sum;
    AddIpsStrange(d, net, tag, what, ips);
    var d1, key := AddIps(d, net, tag, what, ips), RowKey(NOWHERE, tag);
    var extra := Max(0, count - Sum(ips, All()));
    GetStrange(net, d1, key);
    PutStrange(net, d1, key, Counted(Get(d1, key, NO_ROW), what, extra));
  }

  lemma {:induction false} AddAccessStrange(d: Buckets, net: Net, es: seq<AccessEntry>)
    requires AllStrangers(net, d)
    ensures AllStrangers(net, AddAccess(d, net, es))
  {
    hide AllStrangers, AddEntry, TagName;
    if es != [] {
      var n := |es| - 1;
      AddAccessStrange(d, net, es[..n]);
      AddEntryStrange(AddAccess(d, net, es[..n]), net, TagName(es[n].tag), Conns, es[n].conns, es[n].ips);
    }
  }

  lemma {:induction false} AddRejectsStrange(d: Buckets, net: Net, es: seq<RejectEntry>)
    requires AllStrangers(net, d)
    ensures AllStrangers(net, AddRejects(d, net, es))
  {
    hide AllStrangers, AddEntry, KindName, Clip;
    if es != [] {
      var n := |es| - 1;
      AddRejectsStrange(d, net, es[..n]);
      AddEntryStrange(AddRejects(d, net, es[..n]), net, KindName(es[n].kind), Fails(Clip(es[n].reason)), es[n].count, es[n].ips);
    }
  }

  lemma TopStrange(net: Net, ips: Dict<string, int>, n: nat)
    requires Strangers(net, ips)
    ensures Strangers(net, Top(ips, n))
  {
    hide Sorted;
    SortedKeeps(ips, All());
    var s := Sorted(ips);
    forall i | 0 <= i < |s| ensures s[i].key != "" && s[i].key !in net.nodes {
      assert s[i] in multiset(s);
      assert s[i] in ips;
    }
  }

  predicate ListsStrangers(net: Net, rows: seq<Row>) {
    forall i | 0 <= i < |rows| :: Strangers(net, rows[i].topIps)
  }

  lemma {:induction false} AsRowsStrange(net: Net, d: Buckets)
    requires AllStrangers(net, d)
    ensures ListsStrangers(net, AsRows(d))
  {
    hide Strangers, Top;
    if d != [] {
      TopStrange(net, d[0].value.ips, ROW_IPS);
      assert forall i | 0 <= i < |d[1..]| :: d[1..][i] == d[i + 1];
      AsRowsStrange(net, d[1..]);
    }
  }

  /** No row lists an address of one of our own nodes, whatever was reported. */
  lemma NoNodeIsListed(net: Net, access: seq<AccessEntry>, rejects: seq<RejectEntry>)
    ensures ListsStrangers(net, Rows(net, access, rejects))
  {
    hide AddAccess, AddRejects, AsRows;
    AddAccessStrange([], net, access);
    AddRejectsStrange(AddAccess([], net, access), net, rejects);
    AsRowsStrange(net, AddRejects(AddAccess([], net, access), net, rejects));
  }

  // ---- the loops of the original ------------------------------------------------------------------

  /** The inner loop, with its running counter. */
  method FillIps(from: Buckets, net: Net, tag: string, what: What, ips: Dict<string, int>) returns (d: Buckets, seen: int)
    ensures d == AddIps(from, net, tag, what, ips) && seen == Sum(ips, All())
  {
    hide AddIp, Sum;
    d, seen := from, 0;
    assert Sum<string, int>([], All()) == 0 by { SumNothing(); }
    for i := 0 to |ips|
      invariant d == AddIps(from, net, tag, what, ips[..i]) && seen == Sum(ips[..i], All())
    {
      SumSnoc(ips, i, All());
      assert ips[..i + 1][..i] == ips[..i] && ips[..i + 1][i] == ips[i];
      seen := seen + ips[i].value;
      d := AddIp(d, net, tag, what, ips[i].key, ips[i].value);
    }
    assert ips[..|ips|] == ips;
  }

  lemma SumNothing()
    ensures Sum<string, int>([], All()) == 0
  {
  }

  /** One entry of either list. */
  method FillEntry(from: Buckets, net: Net, tag: string, what: What, count: int, ips: Dict<string, int>) returns (d: Buckets)
    ensures d == AddEntry(from, net, tag, what, count, ips)
  {
    hide AddIps, AddExtra, Sum;
    d := from;
    if tag == "" {
      return;
    }
    var seen;
    d, seen := FillIps(d, net, tag, what, ips);
    var extra := Max(0, count - seen);
    d := AddExtra(d, tag, what, extra);
  }

  method ExitRows(net: Net, access: seq<AccessEntry>, rejects: seq<RejectEntry>) returns (rows: seq<Row>)
    ensures rows == Rows(net, access, rejects)
  {
    hide AddEntry, AsRows, TagName, KindName, Clip;
    var buckets: Buckets := [];
    for i := 0 to |access|
      invariant buckets == AddAccess([], net, access[..i])
    {
      assert access[..i + 1][..i] == access[..i] && access[..i + 1][i] == access[i];
      buckets := FillEntry(buckets, net, TagName(access[i].tag), Conns, access[i].conns, access[i].ips);
    }
    assert access[..|access|] == access;
    for i := 0 to |rejects|
      invariant buckets == AddRejects(AddAccess([], net, access), net, rejects[..i])
    {
      assert rejects[..i + 1][..i] == rejects[..i] && rejects[..i + 1][i] == rejects[i];
      buckets := FillEntry(buckets, net, KindName(rejects[i].kind), Fails(Clip(rejects[i].reason)), rejects[i].count, rejects[i].ips);
    }
    assert rejects[..|rejects|] == rejects;
    rows := AsRows(buckets);
  }
}
