/** The ACL a rotation plans, as text: on a host whose names are plain words,
    what the HAProxy step writes is what is read back, in both directions. */
module PlannedText {
  import opened Wrappers
  import opened Names
  import opened Text
  import opened Planning
  import A = AclText
  import H = HostFiles

  /** A name that can be told from flags, comments and its neighbours. */
  predicate Plain(n: string) { CleanName(n) && !A.Dash(n) }

  predicate AllPlain(xs: seq<string>) {
    forall i | 0 <= i < |xs| :: Plain(xs[i])
  }

  predicate PlainLayers(l: Layers) {
    AllPlain(l.panel.names) && forall i | 0 <= i < |l.acl| :: AllPlain(l.acl[i])
  }

  // ---- planned names are plain --------------------------------------------------------------------

  lemma LowerCharPlain(c: char)
    ensures IsSpace(LowerChar(c)) <==> IsSpace(c)
    ensures LowerChar(c) == '#' <==> c == '#'
    ensures LowerChar(c) == '-' <==> c == '-'
    ensures LowerChar(c) == '\n' <==> c == '\n'
  {
  }

  lemma LowerPlain(n: string)
    requires Plain(n)
    ensures Plain(Lower(n))
  {
    hide IsSpace, LowerChar;
    var l := Lower(n);
    forall i | 0 <= i < |l| ensures !IsSpace(l[i]) && l[i] != '#' && l[i] != '\n' && (l[i] == '-' <==> n[i] == '-') {
      LowerCharPlain(n[i]);
    }
  }

  lemma {:induction false} PendingFrom(have: set<string>, added: seq<string>)
    ensures forall x | x in Pending(have, added) :: x in added
  {
    hide Lower;
    if added != [] { PendingFrom(have, added[1..]); }
  }

  lemma {:induction false} ReplacedFrom(names: seq<string>, rm: set<string>, pending: seq<string>)
    ensures forall x | x in Replaced(names, rm, pending) :: x in names || x in pending
  {
    hide Lower;
    if names != [] {
      ReplacedFrom(names[1..], rm, pending);
      ReplacedFrom(names[1..], rm, []);
      if pending != [] { ReplacedFrom(names[1..], rm, pending[1..]); }
    }
  }

  lemma {:induction false} DedupFrom(xs: seq<string>, seen: set<string>)
    ensures forall x | x in Dedup(xs, seen) :: x in xs
  {
    hide Lower;
    if xs != [] {
      DedupFrom(xs[1..], seen);
      DedupFrom(xs[1..], seen + {Lower(xs[0])});
    }
  }

  /** A rewritten line holds names it had or was given, in their spelling. */
  lemma TransformedFrom(names: seq<string>, removed: seq<string>, added: seq<string>)
    ensures forall x | x in TransformNames(names, removed, added) :: x in names || x in added
  {
    hide NameSet, Pending, Replaced, Dedup;
    var pending := Pending(NameSet(names), added);
    PendingFrom(NameSet(names), added);
    ReplacedFrom(names, NameSet(removed), pending);
    DedupFrom(Replaced(names, NameSet(removed), pending), {});
  }

  lemma NewNamesPlain(cur: PanelValues, sni: string, keepOld: bool)
    requires Plain(sni) && AllPlain(cur.names)
    ensures AllPlain(NewNames(cur, sni, keepOld))
  {
    hide Plain;
    var low := LowerNames(cur.names);
    WithoutSet(low, sni);
    forall x | x in low ensures Plain(x) {
      var i :| 0 <= i < |low| && low[i] == x;
      LowerPlain(cur.names[i]);
    }
    var nn := NewNames(cur, sni, keepOld);
    forall i | 0 <= i < |nn| ensures Plain(nn[i]) {
      assert nn[i] == sni || nn[i] in Without(low, sni);
    }
  }

  lemma PlannedPlain(cur: Layers, sni: string, dest: string, keepOld: bool)
    requires Plain(sni) && PlainLayers(cur)
    ensures PlainLayers(PlanTarget(cur, sni, dest, keepOld))
  {
    hide Plain, TransformNames, NewNames, RemovedNames;
    NewNamesPlain(cur.panel, sni, keepOld);
    var nn, rm := NewNames(cur.panel, sni, keepOld), RemovedNames(cur.panel, sni, keepOld);
    forall i | 0 <= i < |cur.acl| ensures AllPlain(TransformNames(cur.acl[i], rm, nn)) {
      TransformedFrom(cur.acl[i], rm, nn);
      var line := TransformNames(cur.acl[i], rm, nn);
      forall k | 0 <= k < |line| ensures Plain(line[k]) {
        assert line[k] in line;
      }
    }
  }

  // ---- plain names are read back ---------------------------------------------------------------------

  /** No ACL line ends in a flag that would swallow its first name. */
  predicate Fed(ls: seq<string>, acl: string) {
    forall i | 0 <= i < |ls| :: LineFed(ls[i], acl)
  }

  predicate LineFed(raw: string, acl: string) {
    var e := A.ParseLine(raw, acl);
    e.Some? && e.value.names == [] ==>
      var lead := A.Lead(raw, e.value);
      A.Head(lead, acl).Some? ==> A.After(A.Flags(lead, acl)) != A.Hungry
  }

  lemma FedAccepts(raw: string, acl: string, e: A.AclEntry, names: seq<string>)
    requires A.ParseLine(raw, acl) == Some(e) && LineFed(raw, acl)
    requires names != [] && AllPlain(names)
    ensures A.LineAccepts(raw, acl, e, names)
  {
    hide A.ParseLine, A.Lead, A.Tail, A.Flags, A.Head, A.After, A.HashAt, CleanName;
    if e.names != [] { A.NamedShell(raw, acl, e); } else { A.NamelessShell(raw, acl, e); }
    assert Plain(names[0]);
  }

  lemma {:induction false} FedAllAccept(ls: seq<string>, acl: string, nss: seq<seq<string>>)
    requires Fed(ls, acl) && |nss| == |A.Find(ls, acl)|
    requires forall k | 0 <= k < |nss| :: nss[k] != [] && AllPlain(nss[k])
    ensures A.AllAccepted(ls, acl, nss)
    decreases |ls|
  {
    hide A.ParseLine, A.LineAccepts, AllPlain, LineFed;
    if ls != [] {
      var e := A.ParseLine(ls[0], acl);
      assert LineFed(ls[0], acl);
      assert Fed(ls[1..], acl) by {
        forall i | 0 <= i < |ls[1..]| ensures LineFed(ls[1..][i], acl) { assert ls[1..][i] == ls[i + 1]; }
      }
      if e.Some? {
        FedAccepts(ls[0], acl, e.value, nss[0]);
        forall k | 0 <= k < |nss[1..]| ensures nss[1..][k] != [] && AllPlain(nss[1..][k]) { assert nss[1..][k] == nss[k + 1]; }
        FedAllAccept(ls[1..], acl, nss[1..]);
      } else {
        FedAllAccept(ls[1..], acl, nss);
      }
    }
  }

  /** Plain lists can be written and read back. */
  lemma PlainReadable(text: string, acl: string, target: AclLines)
    requires Fed(Lines(text), acl) && |target| == |A.ParseAcl(text, acl)| && NoEmptyLine(target)
    requires forall i | 0 <= i < |target| :: AllPlain(target[i])
    ensures H.Readable(text, acl, target)
    ensures A.NoErrors(A.ParseAcl(text, acl)) ==> A.RewriteAcl(text, acl, target).Some?
  {
    hide A.AllAccepted, A.Find, Fed, Lines;
    FedAllAccept(Lines(text), acl, target);
    forall k | 0 <= k < |target| ensures target[k] != [] && CleanNames(target[k]) {
      assert forall i | 0 <= i < |target[k]| :: Plain(target[k][i]);
    }
  }

  lemma {:induction false} NamesOfLength(en: seq<A.AclEntry>)
    ensures |A.NamesOf(en)| == |en|
  {
    if en != [] { NamesOfLength(en[1..]); }
  }

  /** The HAProxy step of a rotation and of its rollback, on the text: with plain
      names, a configuration without flagged lines takes the planned lists and
      holds them, and takes the old ones back and holds those; nothing but the
      names changes either way. (An old line without names cannot go back.) */
  lemma StepOnText(text: string, acl: string, cur: Layers, sni: string, dest: string, keepOld: bool)
    requires cur.acl == H.AclOf(text, acl) && PlainLayers(cur) && Plain(sni) && Lower(sni) == sni
    requires Fed(Lines(text), acl) && A.NoErrors(A.ParseAcl(text, acl))
    ensures var goal := PlanTarget(cur, sni, dest, keepOld);
            var there := A.RewriteAcl(text, acl, goal.acl);
            && there.Some? && H.AclOf(there.value, acl) == goal.acl
            && A.Skeleton(Lines(there.value), acl) == A.Skeleton(Lines(text), acl)
            && (NoEmptyLine(cur.acl) ==>
                  var back := A.RewriteAcl(there.value, acl, cur.acl);
                  && back.Some? && H.AclOf(back.value, acl) == cur.acl
                  && A.Skeleton(Lines(back.value), acl) == A.Skeleton(Lines(text), acl))
  {
    hide A.RewriteAcl, A.NamesOf, A.ParseAcl, A.Skeleton, A.AllAccepted, A.NoErrors, H.Readable, Fed, Lines, AllPlain, PlanTarget;
    var goal := PlanTarget(cur, sni, dest, keepOld);
    PlannedPlain(cur, sni, dest, keepOld);
    PlannedAclCoversNames(cur, sni, dest, keepOld);
    NamesOfLength(A.ParseAcl(text, acl));
    PlainReadable(text, acl, goal.acl);
    H.RewriteReads(text, acl, goal.acl);
    if NoEmptyLine(cur.acl) {
      PlainReadable(text, acl, cur.acl);
      H.RewriteReads(text, acl, cur.acl);
      SecondDecides(text, acl, goal.acl, cur.acl);
    }
  }

  lemma SecondDecides(text: string, acl: string, first: AclLines, second: AclLines)
    requires A.RewriteAcl(text, acl, first).Some? && H.Readable(text, acl, first)
    requires |first| == |second| && NoEmptyLine(second)
    ensures A.RewriteAcl(A.RewriteAcl(text, acl, first).value, acl, second) == A.RewriteAcl(text, acl, second)
  {
    hide A.RewriteAcl, A.ParseAcl, A.AllAccepted, Lines;
    A.RewriteLaws(text, acl, first, second);
  }
}
