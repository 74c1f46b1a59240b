/** What the exit reporter makes of log lines: parse_access, parse_presence and
    parse_rejects (scripts/exit_dpi_reporter.py). A line is what the pattern
    that matched it captured. */
module DpiParse {
  import opened Dict

  datatype AccessLine = Accepted(ip: string, tag: string, email: string) | OtherAccess

  /** `reason` is already normalised; a peer address is not always known. */
  datatype RejectLine = Rejected(kind: string, reason: string, ip: string) | OtherReject

  const TOP_IPS: nat := 20

  /** Real users only: not the panel's polling, not our own probes. */
  predicate Counted(l: AccessLine) {
    l.Accepted? && l.tag != "api" && !("127." <= l.ip) && !("probe" <= l.email)
  }

  // ---- aggregation ---------------------------------------------------------------------

  datatype Event<K> = Event(key: K, ip: string, email: string)

  datatype Bucket = Bucket(count: int, ips: Dict<string, int>, emails: set<string>)

  const EMPTY := Bucket(0, [], {})

  function AccessEvents(lines: seq<AccessLine>): seq<Event<string>> {
    if lines == [] then []
    else
      var n := |lines| - 1;
      AccessEvents(lines[..n]) + if Counted(lines[n]) then [Event(lines[n].tag, lines[n].ip, lines[n].email)] else []
  }

  function RejectEvents(lines: seq<RejectLine>): seq<Event<(string, string)>> {
    if lines == [] then []
    else
      var n := |lines| - 1;
      RejectEvents(lines[..n]) + if lines[n].Rejected? then [Event((lines[n].kind, lines[n].reason), lines[n].ip, "")] else []
  }

  function Seen(b: Bucket, ip: string, email: string): Bucket {
    Bucket(b.count + 1,
           if ip != "" then Bump(b.ips, ip, 1) else b.ips,
           if email != "" then b.emails + {email} else b.emails)
  }

  function AddEvent<K(==)>(d: Dict<K, Bucket>, e: Event<K>): Dict<K, Bucket> {
    Put(d, e.key, Seen(Get(d, e.key, EMPTY), e.ip, e.email))
  }

  function Aggregate<K(==)>(events: seq<Event<K>>): Dict<K, Bucket> {
    if events == [] then [] else AddEvent(Aggregate(events[..|events| - 1]), events[|events| - 1])
  }

  datatype AccessEntry = AccessEntry(tag: string, conns: int, uniqEmails: nat, ips: Dict<string, int>)

  datatype RejectEntry = RejectEntry(kind: string, reason: string, count: int, ips: Dict<string, int>)

  function AccessReport(d: Dict<string, Bucket>): seq<AccessEntry> {
    if d == [] then []
    else [AccessEntry(d[0].key, d[0].value.count, |d[0].value.emails|, Top(d[0].value.ips, TOP_IPS))] + AccessReport(d[1..])
  }

  function RejectReport(d: Dict<(string, string), Bucket>): seq<RejectEntry> {
    if d == [] then []
    else [RejectEntry(d[0].key.0, d[0].key.1, d[0].value.count, Top(d[0].value.ips, TOP_IPS))] + RejectReport(d[1..])
  }

  function ParseAccess(lines: seq<AccessLine>): seq<AccessEntry> {
    AccessReport(Aggregate(AccessEvents(lines)))
  }

  function ParseRejects(lines: seq<RejectLine>): seq<RejectEntry> {
    RejectReport(Aggregate(RejectEvents(lines)))
  }

  // ---- counting, independently ------------------------------------------------------------

  /** How many events have a key with this property. */
  function Among<K>(events: seq<Event<K>>, p: K -> bool): nat {
    if events == [] then 0
    else Among(events[..|events| - 1], p) + if p(events[|events| - 1].key) then 1 else 0
  }

  /** How many events with this key came from this address. */
  function FromIp<K(==)>(events: seq<Event<K>>, key: K, ip: string): nat {
    if events == [] then 0
    else
      var n := |events| - 1;
      FromIp(events[..n], key, ip) + if events[n].key == key && events[n].ip == ip then 1 else 0
  }

  function CountIf<K>(p: K -> bool): (K, Bucket) -> int {
    (k: K, b: Bucket) => if p(k) then b.count else 0
  }

  predicate Balanced(b: Bucket) {
    Counters(b.ips) && 0 <= Sum(b.ips, All()) <= b.count && Unique(b.ips)
  }

  lemma SeenBalanced(b: Bucket, ip: string, email: string)
    requires Balanced(b)
    ensures Balanced(Seen(b, ip, email))
  {
    if ip != "" {
      SumBump(b.ips, ip, 1);
      PutUnique(b.ips, ip, Get(b.ips, ip, 0) + 1);
      CountersBump(b.ips, ip, 1);
    }
  }

  lemma CountersBump(d: Dict<string, int>, k: string, n: nat)
    requires Counters(d)
    ensures Counters(Bump(d, k, n))
  {
  }

  predicate AllBalanced<K>(d: Dict<K, Bucket>) {
    forall i | 0 <= i < |d| :: Balanced(d[i].value)
  }

  /** No event is lost or counted twice, whatever property of keys is asked
      for; and no bucket has more from its addresses than it has. */
  lemma {:induction false} AggregateCounts<K>(events: seq<Event<K>>, p: K -> bool)
    ensures Sum(Aggregate(events), CountIf(p)) == Among(events, p)
    ensures AllBalanced(Aggregate(events)) && Unique(Aggregate(events))
  {
    hide Balanced, Seen, Unique;
    if events == [] {
      NoneUnique<K>();
    } else {
      var n := |events| - 1;
      AggregateCounts(events[..n], p);
      var d, e := Aggregate(events[..n]), events[n];
      var b := Get(d, e.key, EMPTY);
      assert Balanced(EMPTY) by { EmptyBalanced(); }
      SeenBalanced(b, e.ip, e.email);
      SumPut(d, e.key, Seen(b, e.ip, e.email), CountIf(p));
      OneMore(b, e.ip, e.email);
      PutUnique(d, e.key, Seen(b, e.ip, e.email));
      PutBalanced(d, e.key, Seen(b, e.ip, e.email));
    }
  }

  lemma OneMore(b: Bucket, ip: string, email: string)
    ensures Seen(b, ip, email).count == b.count + 1 && EMPTY.count == 0
  {
  }

  lemma NoneUnique<K>()
    ensures Unique<K, Bucket>([])
  {
  }

  lemma EmptyBalanced()
    ensures Balanced(EMPTY)
  {
  }

  lemma PutBalanced<K>(d: Dict<K, Bucket>, k: K, b: Bucket)
    requires AllBalanced(d) && Balanced(b)
    ensures AllBalanced(Put(d, k, b))
  {
    hide Balanced;
  }

  /** Per key and address, too. */
  lemma {:induction false} AggregateByIp<K>(events: seq<Event<K>>, key: K, ip: string)
    requires ip != ""
    ensures Get(Get(Aggregate(events), key, EMPTY).ips, ip, 0) == FromIp(events, key, ip)
  {
    hide Find, Put, Get;
    if events == [] {
      assert Get<K, Bucket>([], key, EMPTY) == EMPTY && Get<string, int>([], ip, 0) == 0 by { GetNothing(key, ip); }
    } else {
      var n := |events| - 1;
      AggregateByIp(events[..n], key, ip);
      var d, e := Aggregate(events[..n]), events[n];
      var b := Get(d, e.key, EMPTY);
      GetPut(d, e.key, Seen(b, e.ip, e.email), key, EMPTY);
      GetPut(b.ips, e.ip, Get(b.ips, e.ip, 0) + 1, ip, 0);
    }
  }

  lemma GetNothing<K>(key: K, ip: string)
    ensures Get<K, Bucket>([], key, EMPTY) == EMPTY && Get<string, int>([], ip, 0) == 0
  {
  }

  // ---- what is reported ----------------------------------------------------------------------

  function ConnsIn(es: seq<AccessEntry>, p: string -> bool): int {
    if es == [] then 0 else (if p(es[0].tag) then es[0].conns else 0) + ConnsIn(es[1..], p)
  }

  function CountsIn(es: seq<RejectEntry>, p: ((string, string)) -> bool): int {
    if es == [] then 0 else (if p((es[0].kind, es[0].reason)) then es[0].count else 0) + CountsIn(es[1..], p)
  }

  predicate Truncated(ips: Dict<string, int>, total: int) {
    |ips| <= TOP_IPS && Counters(ips) && 0 <= Sum(ips, All()) <= total
  }

  predicate AccessTruncated(es: seq<AccessEntry>) {
    forall i | 0 <= i < |es| :: Truncated(es[i].ips, es[i].conns)
  }

  predicate RejectsTruncated(es: seq<RejectEntry>) {
    forall i | 0 <= i < |es| :: Truncated(es[i].ips, es[i].count)
  }

  lemma {:induction false} AccessReportCounts(d: Dict<string, Bucket>, p: string -> bool)
    requires AllBalanced(d)
    ensures ConnsIn(AccessReport(d), p) == Sum(d, CountIf(p)) && AccessTruncated(AccessReport(d))
  {
    hide Top;
    if d != [] {
      assert forall i | 0 <= i < |d[1..]| :: d[1..][i] == d[i + 1];
      AccessReportCounts(d[1..], p);
      TopPart(d[0].value.ips, TOP_IPS);
    }
  }

  lemma {:induction false} RejectReportCounts(d: Dict<(string, string), Bucket>, p: ((string, string)) -> bool)
    requires AllBalanced(d)
    ensures CountsIn(RejectReport(d), p) == Sum(d, CountIf(p)) && RejectsTruncated(RejectReport(d))
  {
    hide Top;
    if d != [] {
      assert forall i | 0 <= i < |d[1..]| :: d[1..][i] == d[i + 1];
      RejectReportCounts(d[1..], p);
      TopPart(d[0].value.ips, TOP_IPS);
    }
  }

  /** The report counts every line once; the addresses it lists are at most
      twenty a bucket and never add up to more than the bucket. */
  lemma ReportCounts(access: seq<AccessLine>, rejects: seq<RejectLine>, p: string -> bool, q: ((string, string)) -> bool)
    ensures ConnsIn(ParseAccess(access), p) == Among(AccessEvents(access), p) && AccessTruncated(ParseAccess(access))
    ensures CountsIn(ParseRejects(rejects), q) == Among(RejectEvents(rejects), q) && RejectsTruncated(ParseRejects(rejects))
  {
    AggregateCounts(AccessEvents(access), p);
    AggregateCounts(RejectEvents(rejects), q);
    AccessReportCounts(Aggregate(AccessEvents(access)), p);
    RejectReportCounts(Aggregate(RejectEvents(rejects)), q);
  }

  /** The users that events of a key came from. */
  function EmailsOf<K(==)>(events: seq<Event<K>>, key: K): set<string> {
    set i | 0 <= i < |events| && events[i].key == key && events[i].email != "" :: events[i].email
  }

  lemma EmailsSnoc<K>(events: seq<Event<K>>, key: K)
    requires events != []
    ensures var n := |events| - 1;
            EmailsOf(events, key)
            == EmailsOf(events[..n], key) + if events[n].key == key && events[n].email != "" then {events[n].email} else {}
  {
    var n := |events| - 1;
    var some := EmailsOf(events[..n], key) + if events[n].key == key && events[n].email != "" then {events[n].email} else {};
    forall e ensures e in EmailsOf(events, key) <==> e in some {
      if e in EmailsOf(events, key) {
        var i :| 0 <= i < |events| && events[i].key == key && events[i].email != "" && events[i].email == e;
        if i < n { assert events[..n][i] == events[i]; }
      }
      if e in EmailsOf(events[..n], key) {
        var i :| 0 <= i < n && events[..n][i].key == key && events[..n][i].email != "" && events[..n][i].email == e;
        assert events[i].email == e;
      }
      if e in some && e !in EmailsOf(events[..n], key) { assert events[n].email == e; }
    }
  }

  function CountOf<K(==)>(events: seq<Event<K>>, key: K): nat { Among(events, (k: K) => k == key) }

  /** What is known of one key: how many events, from how many users. */
  lemma {:induction false} AggregateOf<K>(events: seq<Event<K>>, key: K)
    ensures var b := Get(Aggregate(events), key, EMPTY);
            b.emails == EmailsOf(events, key) && b.count == CountOf(events, key)
    ensures Has(Aggregate(events), key) <==> CountOf(events, key) > 0
  {
    hide Find, Put, Get, Has, Bump, EmailsOf;
    if events == [] {
      NothingOf(key);
    } else {
      var n := |events| - 1;
      AggregateOf(events[..n], key);
      EmailsSnoc(events, key);
      var d, e := Aggregate(events[..n]), events[n];
      GetPut(d, e.key, Seen(Get(d, e.key, EMPTY), e.ip, e.email), key, EMPTY);
    }
  }

  lemma NothingOf<K>(key: K)
    ensures Get<K, Bucket>([], key, EMPTY) == EMPTY && !Has<K, Bucket>([], key) && EmailsOf<K>([], key) == {}
  {
  }

  lemma {:induction false} AccessReportIs(d: Dict<string, Bucket>)
    ensures |AccessReport(d)| == |d|
    ensures forall i | 0 <= i < |d| ::
              AccessReport(d)[i] == AccessEntry(d[i].key, d[i].value.count, |d[i].value.emails|, Top(d[i].value.ips, TOP_IPS))
  {
    hide Top;
    if d != [] { AccessReportIs(d[1..]); }
  }

  lemma {:induction false} RejectReportIs(d: Dict<(string, string), Bucket>)
    ensures |RejectReport(d)| == |d|
    ensures forall i | 0 <= i < |d| ::
              RejectReport(d)[i] == RejectEntry(d[i].key.0, d[i].key.1, d[i].value.count, Top(d[i].value.ips, TOP_IPS))
  {
    hide Top;
    if d != [] { RejectReportIs(d[1..]); }
  }

  lemma BucketAt<K>(events: seq<Event<K>>, i: nat, ip: string)
    requires i < |Aggregate(events)| && ip != ""
    ensures var e := Aggregate(events)[i];
            && e.value.count == CountOf(events, e.key) && e.value.emails == EmailsOf(events, e.key)
            && Lists(Top(e.value.ips, TOP_IPS), 20, ip, FromIp(events, e.key, ip))
  {
    hide Aggregate, Top, EmailsOf, Lists;
    var d := Aggregate(events);
    AggregateCounts(events, (k: K) => true);
    AggregateOf(events, d[i].key);
    AggregateByIp(events, d[i].key, ip);
    FindIs(d, d[i].key, i);
    assert Balanced(d[i].value);
    TopLists(d[i].value.ips, TOP_IPS, ip);
  }

  /** An inbound that was used has one entry, with its accepted lines, its users
      and its twenty busiest addresses, each with the lines from it. */
  ghost predicate Faithful(es: seq<AccessEntry>, events: seq<Event<string>>, ip: string) {
    && (forall i, j | 0 <= i < j < |es| :: es[i].tag != es[j].tag)
    && (forall i | 0 <= i < |es| ::
          && es[i].conns == CountOf(events, es[i].tag) && es[i].uniqEmails == |EmailsOf(events, es[i].tag)|
          && Lists(es[i].ips, 20, ip, FromIp(events, es[i].tag, ip)))
    && (forall tag | CountOf(events, tag) > 0 :: exists i :: 0 <= i < |es| && es[i].tag == tag)
  }

  function KeyOf(e: RejectEntry): (string, string) { (e.kind, e.reason) }

  /** The same for each kind and reason of rejects. */
  ghost predicate FaithfulRejects(es: seq<RejectEntry>, events: seq<Event<(string, string)>>, ip: string) {
    && (forall i, j | 0 <= i < j < |es| :: KeyOf(es[i]) != KeyOf(es[j]))
    && (forall i | 0 <= i < |es| ::
          es[i].count == CountOf(events, KeyOf(es[i])) && Lists(es[i].ips, 20, ip, FromIp(events, KeyOf(es[i]), ip)))
    && (forall key | CountOf(events, key) > 0 :: exists i :: 0 <= i < |es| && KeyOf(es[i]) == key)
  }

  lemma ReportHolds(access: seq<AccessLine>, rejects: seq<RejectLine>, ip: string)
    requires ip != ""
    ensures Faithful(ParseAccess(access), AccessEvents(access), ip)
    ensures FaithfulRejects(ParseRejects(rejects), RejectEvents(rejects), ip)
  {
    hide Faithful, FaithfulRejects;
    AccessHolds(AccessEvents(access), ip);
    RejectsHold(RejectEvents(rejects), ip);
  }

  lemma AccessHolds(events: seq<Event<string>>, ip: string)
    requires ip != ""
    ensures Faithful(AccessReport(Aggregate(events)), events, ip)
  {
    hide Aggregate, AccessReport, Top, Lists, EmailsOf, CountOf, FromIp, Among;
    var d := Aggregate(events);
    AccessReportIs(d);
    AggregateCounts(events, (k: string) => true);
    forall i | 0 <= i < |d|
      ensures d[i].value.count == CountOf(events, d[i].key) && d[i].value.emails == EmailsOf(events, d[i].key)
              && Lists(Top(d[i].value.ips, TOP_IPS), 20, ip, FromIp(events, d[i].key, ip))
    {
      BucketAt(events, i, ip);
    }
    forall tag | CountOf(events, tag) > 0 ensures exists i :: 0 <= i < |d| && AccessReport(d)[i].tag == tag {
      AggregateOf(events, tag);
      assert AccessReport(d)[Find(d, tag)].tag == tag;
    }
  }

  lemma RejectsHold(events: seq<Event<(string, string)>>, ip: string)
    requires ip != ""
    ensures FaithfulRejects(RejectReport(Aggregate(events)), events, ip)
  {
    hide Aggregate, RejectReport, Top, Lists, EmailsOf, CountOf, FromIp, Among;
    var d := Aggregate(events);
    RejectReportIs(d);
    AggregateCounts(events, (k: (string, string)) => true);
    forall i | 0 <= i < |d|
      ensures d[i].value.count == CountOf(events, d[i].key) && Lists(Top(d[i].value.ips, TOP_IPS), 20, ip, FromIp(events, d[i].key, ip))
    {
      BucketAt(events, i, ip);
    }
    assert forall i | 0 <= i < |d| :: KeyOf(RejectReport(d)[i]) == d[i].key;
    forall key | CountOf(events, key) > 0 ensures exists i :: 0 <= i < |d| && KeyOf(RejectReport(d)[i]) == key {
      AggregateOf(events, key);
      assert KeyOf(RejectReport(d)[Find(d, key)]) == key;
    }
  }

  // ---- presence ------------------------------------------------------------------------------------

  datatype Rec = Rec(tag: string, conns: nat)

  predicate Present(l: AccessLine) { Counted(l) && l.email != "" }

  function Meet(d: Dict<string, Rec>, l: AccessLine): Dict<string, Rec>
    requires l.Accepted?
  {
    var rec := Get(d, l.email, Rec(l.tag, 0));
    Put(d, l.email, if !Has(d, l.email) || rec.tag != l.tag then Rec(l.tag, 1) else Rec(rec.tag, rec.conns + 1))
  }

  function Presence(lines: seq<AccessLine>): Dict<string, Rec> {
    if lines == [] then []
    else
      var n := |lines| - 1;
      if Present(lines[n]) then Meet(Presence(lines[..n]), lines[n]) else Presence(lines[..n])
  }

  /** The inbounds a user came in through, in order. */
  function TagsOf(lines: seq<AccessLine>, email: string): seq<string> {
    if lines == [] then []
    else
      var n := |lines| - 1;
      TagsOf(lines[..n], email) + if Present(lines[n]) && lines[n].email == email then [lines[n].tag] else []
  }

  /** The last run of equal tags. */
  predicate LastStreak(tags: seq<string>, rec: Rec) {
    && 0 < rec.conns <= |tags|
    && (forall i | |tags| - rec.conns <= i < |tags| :: tags[i] == rec.tag)
    && (rec.conns < |tags| ==> tags[|tags| - rec.conns - 1] != rec.tag)
  }

  /** A user is present on the inbound of the last line, with as many
      connections as came in there since the last move. */
  lemma {:induction false} PresenceIsLastStreak(lines: seq<AccessLine>, email: string)
    requires email != ""
    ensures Has(Presence(lines), email) <==> TagsOf(lines, email) != []
    ensures Has(Presence(lines), email) ==> LastStreak(TagsOf(lines, email), Get(Presence(lines), email, Rec("", 0)))
  {
    hide Has, Get, Put, LastStreak, Present;
    if lines == [] {
      HasNothing(email);
    } else {
      var n := |lines| - 1;
      PresenceIsLastStreak(lines[..n], email);
      var l, d, tags := lines[n], Presence(lines[..n]), TagsOf(lines[..n], email);
      var present := IsPresent(l);
      assert tags + [] == tags;
      if present {
        var rec := Get(d, l.email, Rec(l.tag, 0));
        var now := if !Has(d, l.email) || rec.tag != l.tag then Rec(l.tag, 1) else Rec(rec.tag, rec.conns + 1);
        assert Presence(lines) == Put(d, l.email, now);
        GetPut(d, l.email, now, email, Rec("", 0));
        if l.email == email {
          SameGet(d, email, Rec(l.tag, 0), Rec("", 0));
          if Has(d, email) { StreakGrows(tags, rec, l.tag); } else { StreakBegins(l.tag); }
        }
      }
    }
  }

  lemma SameGet(d: Dict<string, Rec>, k: string, a: Rec, b: Rec)
    ensures Has(d, k) ==> Get(d, k, a) == Get(d, k, b)
  {
    hide Find;
  }

  lemma StreakBegins(tag: string)
    ensures LastStreak([] + [tag], Rec(tag, 1))
  {
  }

  lemma StreakGrows(tags: seq<string>, rec: Rec, tag: string)
    requires LastStreak(tags, rec)
    ensures LastStreak(tags + [tag], if rec.tag != tag then Rec(tag, 1) else Rec(rec.tag, rec.conns + 1))
  {
  }

  lemma HasNothing(email: string)
    ensures !Has<string, Rec>([], email)
  {
  }

  // ---- the loops of the original ----------------------------------------------------------------------

  method ParseAccessLines(lines: seq<AccessLine>) returns (report: seq<AccessEntry>)
    ensures report == ParseAccess(lines)
  {
    hide AddEvent;
    var buckets: Dict<string, Bucket> := [];
    for i := 0 to |lines|
      invariant buckets == Aggregate(AccessEvents(lines[..i]))
    {
      assert lines[..i + 1][..i] == lines[..i] && lines[..i + 1][i] == lines[i];
      var l := lines[i];
      ghost var before := AccessEvents(lines[..i]);
      if !Counted(l) {
        assert before + [] == before;
        continue;
      }
      var e := Event(l.tag, l.ip, l.email);
      assert (before + [e])[..|before|] == before;
      buckets := AddEvent(buckets, e);
    }
    assert lines[..|lines|] == lines;
    report := AccessReport(buckets);
  }

  method ParseRejectLines(lines: seq<RejectLine>) returns (report: seq<RejectEntry>)
    ensures report == ParseRejects(lines)
  {
    hide AddEvent;
    var buckets: Dict<(string, string), Bucket> := [];
    for i := 0 to |lines|
      invariant buckets == Aggregate(RejectEvents(lines[..i]))
    {
      assert lines[..i + 1][..i] == lines[..i] && lines[..i + 1][i] == lines[i];
      var l := lines[i];
      ghost var before := RejectEvents(lines[..i]);
      if l.OtherReject? {
        assert before + [] == before;
        continue;
      }
      var e := Event((l.kind, l.reason), l.ip, "");
      assert (before + [e])[..|before|] == before;
      buckets := AddEvent(buckets, e);
    }
    assert lines[..|lines|] == lines;
    report := RejectReport(buckets);
  }

  method ParsePresence(lines: seq<AccessLine>) returns (users: Dict<string, Rec>)
    ensures users == Presence(lines)
  {
    hide Meet, Present;
    users := [];
    for i := 0 to |lines|
      invariant users == Presence(lines[..i])
    {
      assert lines[..i + 1][..i] == lines[..i] && lines[..i + 1][i] == lines[i];
      var present := IsPresent(lines[i]);
      if present {
        users := Meet(users, lines[i]);
      }
    }
    assert lines[..|lines|] == lines;
  }

  function IsPresent(l: AccessLine): (r: bool)
    ensures r <==> Present(l)
    ensures r ==> l.Accepted?
  {
    Present(l)
  }
}
