/** The --verify verdict (scripts/rotate_reality_dest.py, verify_checks and
    verify_code). Rows that can only be WARN, about client counts, are not
    part of this model. */
module Verification {
  import opened Wrappers
  import opened Names
  import opened Planning
  import opened World

  datatype Verdict = OK | FAIL | WARN | BLIND
  datatype Check = PanelCheck | XrayCheck | HaproxyCheck | EnvCheck | BotCheck | ProbeCheck | TlsCheck
  datatype Row = Row(verdict: Verdict, check: Check)

  /** Lists compared as sorted lists of folded names. */
  predicate SameSorted(a: seq<string>, b: seq<string>) {
    multiset(LowerNames(a)) == multiset(LowerNames(b))
  }

  predicate SameSortedLines(a: AclLines, b: AclLines) {
    |a| == |b| && forall i | 0 <= i < |a| :: SameSorted(a[i], b[i])
  }

  function Pass(good: bool): Verdict { if good then OK else FAIL }

  function PanelRow(panel: Option<PanelValues>, t: Layers): Verdict {
    match panel
    case None => BLIND
    case Some(p) => Pass(p.dest == t.panel.dest && SameSorted(p.names, t.panel.names))
  }

  function XrayRow(panel: Option<PanelValues>, xray: XrayRead, strict: bool): seq<Row> {
    match panel
    case None => []
    case Some(p) =>
      [Row(match xray
           case NotRead => BLIND
           case NoConfig => WARN
           case Runtime(v) =>
             if v.dest.Values == p.dest.Values && SameSorted(v.names, p.names) then OK
             else if strict then FAIL else WARN,
           XrayCheck)]
  }

  function HaproxyRow(entry: Option<EntryRead>, t: Layers): Verdict {
    if entry == None || entry.value.acl == None then BLIND
    else Pass(SameSortedLines(entry.value.acl.value, t.acl) && entry.value.haproxyActive)
  }

  function EnvRow(entry: Option<EntryRead>, t: Layers): Verdict {
    if entry == None || entry.value.env == None then BLIND
    else Pass(entry.value.env.value == t.env)
  }

  function BotRow(entry: Option<EntryRead>, t: Layers): Verdict {
    if entry == None || entry.value.bot == None then BLIND
    else
      var b := entry.value.bot.value;
      Pass(b.Running? && b.healthy && SniMatches(b.sni, t.env))
  }

  function ProbeRow(entry: Option<EntryRead>, t: Layers): Verdict {
    if entry == None || entry.value.probe == None then BLIND
    else
      var p := entry.value.probe.value;
      if !p.present then if t.probe.present then FAIL else WARN
      else Pass(SniMatches(p.serverName, t.env) && p.up)
  }

  function TlsRow(tls: TlsRead, t: Layers): Verdict {
    if t.env == None || t.env == Some("") then WARN
    else match tls
      case Unreachable => BLIND
      case Sample(tls13, verified) => Pass(tls13 && verified)
  }

  function VerifyChecks(entry: Option<EntryRead>, panel: Option<PanelValues>, xray: XrayRead, tls: TlsRead,
                        t: Layers, strict: bool): seq<Row> {
    [Row(PanelRow(panel, t), PanelCheck)] + XrayRow(panel, xray, strict)
    + [Row(HaproxyRow(entry, t), HaproxyCheck), Row(EnvRow(entry, t), EnvCheck), Row(BotRow(entry, t), BotCheck),
       Row(ProbeRow(entry, t), ProbeCheck), Row(TlsRow(tls, t), TlsCheck)]
  }

  const EXIT_OK := 0
  const EXIT_FAIL := 1
  const EXIT_BLIND := 2

  predicate Shows(rows: seq<Row>, v: Verdict) {
    exists i | 0 <= i < |rows| :: rows[i].verdict == v
  }

  /** "Could not look" never reads as a pass, and a definite failure wins. */
  function VerifyCode(rows: seq<Row>): (code: nat)
    ensures code == EXIT_OK <==> !Shows(rows, FAIL) && !Shows(rows, BLIND)
    ensures code == EXIT_FAIL <==> Shows(rows, FAIL)
    ensures code == EXIT_BLIND <==> !Shows(rows, FAIL) && Shows(rows, BLIND)
  {
    if exists i | 0 <= i < |rows| :: rows[i].verdict == FAIL then EXIT_FAIL
    else if exists i | 0 <= i < |rows| :: rows[i].verdict == BLIND then EXIT_BLIND
    else EXIT_OK
  }

  /** What a passing verify means, exactly: every layer was seen and holds its
      target, the services answer, exit answered about its configuration (which
      agrees with the panel if xray was restarted) and a handshake through entry
      reached the dest. */
  lemma PassMeans(entry: Option<EntryRead>, panel: Option<PanelValues>, xray: XrayRead, tls: TlsRead,
                  t: Layers, strict: bool)
    ensures VerifyCode(VerifyChecks(entry, panel, xray, tls, t, strict)) == EXIT_OK <==>
              && entry.Some? && panel.Some? && xray != NotRead
              && panel.value.dest == t.panel.dest && SameSorted(panel.value.names, t.panel.names)
              && (strict && xray.Runtime? ==>
                    xray.view.dest.Values == t.panel.dest.Values && SameSorted(xray.view.names, t.panel.names))
              && entry.value.acl.Some? && SameSortedLines(entry.value.acl.value, t.acl) && entry.value.haproxyActive
              && entry.value.env == Some(t.env)
              && entry.value.bot.Some? && entry.value.bot.value.Running? && entry.value.bot.value.healthy
              && SniMatches(entry.value.bot.value.sni, t.env)
              && entry.value.probe.Some?
              && (if entry.value.probe.value.present
                  then entry.value.probe.value.up && SniMatches(entry.value.probe.value.serverName, t.env)
                  else !t.probe.present)
              && (IsSet(t.env) ==> tls == Sample(true, true))
  {
    hide SameSorted, SameSortedLines, SniMatches;
    RowsListed(entry, panel, xray, tls, t, strict);
    SameSortedTransitive(panel, xray, t);
  }

  /** What a failing one means: something was seen and is not as it should be. */
  lemma FailMeans(entry: Option<EntryRead>, panel: Option<PanelValues>, xray: XrayRead, tls: TlsRead,
                  t: Layers, strict: bool)
    ensures VerifyCode(VerifyChecks(entry, panel, xray, tls, t, strict)) == EXIT_FAIL <==>
              || (panel.Some? && !(panel.value.dest == t.panel.dest && SameSorted(panel.value.names, t.panel.names)))
              || (panel.Some? && strict && xray.Runtime?
                  && !(xray.view.dest.Values == panel.value.dest.Values && SameSorted(xray.view.names, panel.value.names)))
              || (entry.Some? && entry.value.acl.Some?
                  && !(SameSortedLines(entry.value.acl.value, t.acl) && entry.value.haproxyActive))
              || (entry.Some? && entry.value.env.Some? && entry.value.env.value != t.env)
              || (entry.Some? && entry.value.bot.Some?
                  && !(entry.value.bot.value.Running? && entry.value.bot.value.healthy
                       && SniMatches(entry.value.bot.value.sni, t.env)))
              || (entry.Some? && entry.value.probe.Some?
                  && if entry.value.probe.value.present
                     then !(entry.value.probe.value.up && SniMatches(entry.value.probe.value.serverName, t.env))
                     else t.probe.present)
              || (IsSet(t.env) && tls.Sample? && !(tls.tls13 && tls.verified))
  {
    hide SameSorted, SameSortedLines, SniMatches;
    RowsListed(entry, panel, xray, tls, t, strict);
  }

  lemma SameSortedTransitive(panel: Option<PanelValues>, xray: XrayRead, t: Layers)
    ensures panel.Some? && xray.Runtime? && SameSorted(panel.value.names, t.panel.names) ==>
              (SameSorted(xray.view.names, panel.value.names) <==> SameSorted(xray.view.names, t.panel.names))
  {
  }

  /** Which verdicts the rows show. */
  lemma RowsListed(entry: Option<EntryRead>, panel: Option<PanelValues>, xray: XrayRead, tls: TlsRead,
                   t: Layers, strict: bool)
    ensures var rows := VerifyChecks(entry, panel, xray, tls, t, strict);
            forall v :: Shows(rows, v) <==>
              || PanelRow(panel, t) == v || (panel.Some? && XrayRow(panel, xray, strict)[0].verdict == v)
              || HaproxyRow(entry, t) == v || EnvRow(entry, t) == v || BotRow(entry, t) == v || ProbeRow(entry, t) == v
              || TlsRow(tls, t) == v
  {
    hide PanelRow, HaproxyRow, EnvRow, BotRow, ProbeRow, TlsRow, SameSorted;
    var rows := VerifyChecks(entry, panel, xray, tls, t, strict);
    var k := |XrayRow(panel, xray, strict)|;
    assert rows[0] == Row(PanelRow(panel, t), PanelCheck);
    assert k == 1 ==> rows[1] == XrayRow(panel, xray, strict)[0];
    assert rows[k + 1] == Row(HaproxyRow(entry, t), HaproxyCheck);
    assert rows[k + 2] == Row(EnvRow(entry, t), EnvCheck);
    assert rows[k + 3] == Row(BotRow(entry, t), BotCheck);
    assert rows[k + 4] == Row(ProbeRow(entry, t), ProbeCheck);
    assert rows[k + 5] == Row(TlsRow(tls, t), TlsCheck);
    assert |rows| == k + 6;
  }
}
