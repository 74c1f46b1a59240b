/** How a rotation decides what every layer should hold
    (scripts/rotate_reality_dest.py, the local pure helpers). */
module Planning {
  import opened Wrappers
  import opened Names

  // ---- one ACL line -------------------------------------------------------

  /** The added names a line does not have yet. */
  function Pending(have: set<string>, added: seq<string>): seq<string> {
    if added == [] then []
    else if Lower(added[0]) in have then Pending(have, added[1..])
    else [added[0]] + Pending(have, added[1..])
  }

  /** Each removed name gives its place to the next pending one; what is still
      pending at the end is appended. */
  function Replaced(names: seq<string>, rm: set<string>, pending: seq<string>): seq<string> {
    if names == [] then pending
    else if Lower(names[0]) !in rm then [names[0]] + Replaced(names[1..], rm, pending)
    else if pending == [] then Replaced(names[1..], rm, [])
    else [pending[0]] + Replaced(names[1..], rm, pending[1..])
  }

  /** First occurrences only, ignoring names already seen. */
  function Dedup(xs: seq<string>, seen: set<string>): seq<string> {
    if xs == [] then []
    else if Lower(xs[0]) in seen then Dedup(xs[1..], seen)
    else [xs[0]] + Dedup(xs[1..], seen + {Lower(xs[0])})
  }

  function TransformNames(names: seq<string>, removed: seq<string>, added: seq<string>): seq<string> {
    Dedup(Replaced(names, NameSet(removed), Pending(NameSet(names), added)), {})
  }

  /** The loops of transform_names: the pending list is consumed from the
      front while the line is walked, then a second walk drops repetitions. */
  method TransformLine(names: seq<string>, removed: seq<string>, added: seq<string>)
    returns (uniq: seq<string>)
    ensures uniq == TransformNames(names, removed, added)
  {
    var pending := CollectPending(NameSet(names), added);
    var out := ReplaceLoop(names, NameSet(removed), pending);
    uniq := DedupLoop(out);
  }

  method CollectPending(have: set<string>, added: seq<string>) returns (pending: seq<string>)
    ensures pending == Pending(have, added)
  {
    pending := [];
    for i := 0 to |added|
      invariant pending + Pending(have, added[i..]) == Pending(have, added)
    {
      assert added[i..][1..] == added[i + 1..];
      if Lower(added[i]) !in have {
        pending := pending + [added[i]];
      }
    }
  }

  method ReplaceLoop(names: seq<string>, rm: set<string>, all: seq<string>) returns (out: seq<string>)
    ensures out == Replaced(names, rm, all)
  {
    var pending := all;
    out := [];
    for i := 0 to |names|
      invariant out + Replaced(names[i..], rm, pending) == Replaced(names, rm, all)
    {
      ghost var tail := names[i + 1..];
      assert names[i..][1..] == tail && names[i..][0] == names[i];
      if Lower(names[i]) in rm {
        if pending != [] {
          assert out + ([pending[0]] + Replaced(tail, rm, pending[1..]))
              == out + [pending[0]] + Replaced(tail, rm, pending[1..]);
          out := out + [pending[0]];
          pending := pending[1..];
        }
      } else {
        assert out + ([names[i]] + Replaced(tail, rm, pending)) == out + [names[i]] + Replaced(tail, rm, pending);
        out := out + [names[i]];
      }
    }
    out := out + pending;
  }

  method DedupLoop(out: seq<string>) returns (uniq: seq<string>)
    ensures uniq == Dedup(out, {})
  {
    var seen: set<string> := {};
    uniq := [];
    for i := 0 to |out|
      invariant uniq + Dedup(out[i..], seen) == Dedup(out, {})
    {
      ghost var tail := out[i + 1..];
      assert out[i..][1..] == tail && out[i..][0] == out[i];
      if Lower(out[i]) !in seen {
        assert uniq + ([out[i]] + Dedup(tail, seen + {Lower(out[i])}))
            == uniq + [out[i]] + Dedup(tail, seen + {Lower(out[i])});
        seen := seen + {Lower(out[i])};
        uniq := uniq + [out[i]];
      }
    }
  }

  lemma {:induction false} PendingSet(have: set<string>, added: seq<string>)
    ensures NameSet(Pending(have, added)) == NameSet(added) - have
  {
    if added != [] {
      PendingSet(have, added[1..]);
      NameSetCons(added[0], added[1..]);
      assert added == [added[0]] + added[1..];
      NameSetCons(added[0], Pending(have, added[1..]));
    }
  }

  lemma {:induction false} ReplacedSet(names: seq<string>, rm: set<string>, pending: seq<string>)
    ensures NameSet(Replaced(names, rm, pending)) == (NameSet(names) - rm) + NameSet(pending)
  {
    if names != [] {
      var n, rest := names[0], names[1..];
      assert names == [n] + rest;
      NameSetCons(n, rest);
      if Lower(n) !in rm {
        ReplacedSet(rest, rm, pending);
        NameSetCons(n, Replaced(rest, rm, pending));
      } else if pending == [] {
        ReplacedSet(rest, rm, []);
      } else {
        ReplacedSet(rest, rm, pending[1..]);
        assert pending == [pending[0]] + pending[1..];
        NameSetCons(pending[0], pending[1..]);
        NameSetCons(pending[0], Replaced(rest, rm, pending[1..]));
      }
    }
  }

  lemma {:induction false} DedupSet(xs: seq<string>, seen: set<string>)
    ensures NameSet(Dedup(xs, seen)) == NameSet(xs) - seen
    ensures NoDuplicates(Dedup(xs, seen))
  {
    if xs != [] {
      var x, rest := xs[0], xs[1..];
      assert xs == [x] + rest;
      NameSetCons(x, rest);
      if Lower(x) in seen {
        DedupSet(rest, seen);
      } else {
        var tail := Dedup(rest, seen + {Lower(x)});
        DedupSet(rest, seen + {Lower(x)});
        NameSetCons(x, tail);
        forall j | 0 <= j < |tail| ensures Lower(tail[j]) != Lower(x) {
          InNameSet(tail, Lower(x));
        }
      }
    }
  }

  /** The new line holds no name twice, and it is "the old names without the
      removed ones, plus the added ones" exactly when no name of the line is
      removed and added at once (such a name is lost: it is dropped as removed
      and not pending because the line already had it). */
  lemma TransformedNames(names: seq<string>, removed: seq<string>, added: seq<string>)
    ensures NoDuplicates(TransformNames(names, removed, added))
    ensures NameSet(TransformNames(names, removed, added))
         == (NameSet(names) - NameSet(removed)) + (NameSet(added) - NameSet(names))
    ensures NameSet(TransformNames(names, removed, added))
         == (NameSet(names) - NameSet(removed)) + NameSet(added)
        <==> NameSet(names) * NameSet(removed) * NameSet(added) == {}
  {
    var pending := Pending(NameSet(names), added);
    PendingSet(NameSet(names), added);
    ReplacedSet(names, NameSet(removed), pending);
    DedupSet(Replaced(names, NameSet(removed), pending), {});
    var N, R, A := NameSet(names), NameSet(removed), NameSet(added);
    if N * R * A == {} {
      forall x | x in A && x in N ensures x in N - R {
        assert x in R ==> x in N * R * A;
      }
    } else {
      var x :| x in N * R * A;
      assert x in (N - R) + A && x !in (N - R) + (A - N);
    }
  }

  /** The sub-list of names whose folded spelling is in `s`. */
  function Keep(xs: seq<string>, s: set<string>): seq<string> {
    if xs == [] then []
    else if Lower(xs[0]) in s then [xs[0]] + Keep(xs[1..], s)
    else Keep(xs[1..], s)
  }

  lemma {:induction false} KeepNothing(xs: seq<string>, s: set<string>)
    requires NameSet(xs) !! s
    ensures Keep(xs, s) == []
  {
    if xs != [] {
      assert xs == [xs[0]] + xs[1..];
      NameSetCons(xs[0], xs[1..]);
      KeepNothing(xs[1..], s);
    }
  }

  lemma {:induction false} KeepReplaced(names: seq<string>, rm: set<string>, pending: seq<string>, s: set<string>)
    requires s !! rm && NameSet(pending) !! s
    ensures Keep(Replaced(names, rm, pending), s) == Keep(names, s)
  {
    if names == [] {
      KeepNothing(pending, s);
    } else if Lower(names[0]) !in rm {
      KeepReplaced(names[1..], rm, pending, s);
      assert ([names[0]] + Replaced(names[1..], rm, pending))[1..] == Replaced(names[1..], rm, pending);
    } else if pending == [] {
      KeepReplaced(names[1..], rm, [], s);
    } else {
      assert pending == [pending[0]] + pending[1..];
      NameSetCons(pending[0], pending[1..]);
      KeepReplaced(names[1..], rm, pending[1..], s);
      assert ([pending[0]] + Replaced(names[1..], rm, pending[1..]))[1..] == Replaced(names[1..], rm, pending[1..]);
    }
  }

  lemma {:induction false} KeepDedup(xs: seq<string>, seen: set<string>, s: set<string>)
    ensures Keep(Dedup(xs, seen), s) == Dedup(Keep(xs, s), seen)
  {
    if xs != [] {
      var x, rest := xs[0], xs[1..];
      var seen1 := seen + {Lower(x)};
      if Lower(x) in seen {
        KeepDedup(rest, seen, s);
        if Lower(x) in s {
          assert ([x] + Keep(rest, s))[1..] == Keep(rest, s);
        }
      } else {
        KeepDedup(rest, seen1, s);
        assert ([x] + Dedup(rest, seen1))[1..] == Dedup(rest, seen1);
        if Lower(x) in s {
          assert ([x] + Keep(rest, s))[1..] == Keep(rest, s);
        } else {
          KeepInSet(rest, s);
          DedupIgnores(Keep(rest, s), seen, Lower(x), s);
        }
      }
    }
  }

  lemma {:induction false} DedupIgnores(xs: seq<string>, seen: set<string>, y: string, s: set<string>)
    requires y !in s && NameSet(xs) <= s
    ensures Dedup(xs, seen + {y}) == Dedup(xs, seen)
  {
    if xs != [] {
      assert xs == [xs[0]] + xs[1..];
      NameSetCons(xs[0], xs[1..]);
      DedupIgnores(xs[1..], seen, y, s);
      DedupIgnores(xs[1..], seen + {Lower(xs[0])}, y, s);
      assert seen + {Lower(xs[0])} + {y} == seen + {y} + {Lower(xs[0])};
    }
  }

  lemma {:induction false} KeepInSet(xs: seq<string>, s: set<string>)
    ensures NameSet(Keep(xs, s)) <= s
  {
    if xs != [] {
      KeepInSet(xs[1..], s);
      NameSetCons(xs[0], Keep(xs[1..], s));
    }
  }

  /** The names that stay do so with their spelling and in their old order. */
  lemma SurvivorsKeepOrder(names: seq<string>, removed: seq<string>, added: seq<string>)
    ensures var s := NameSet(names) - NameSet(removed);
            Keep(TransformNames(names, removed, added), s) == Dedup(Keep(names, s), {})
  {
    var s := NameSet(names) - NameSet(removed);
    var pending := Pending(NameSet(names), added);
    PendingSet(NameSet(names), added);
    KeepReplaced(names, NameSet(removed), pending, s);
    KeepDedup(Replaced(names, NameSet(removed), pending), {}, s);
  }

  lemma {:induction false} DedupIdentity(xs: seq<string>, seen: set<string>)
    requires NoDuplicates(xs) && NameSet(xs) !! seen
    ensures Dedup(xs, seen) == xs
  {
    if xs != [] {
      var x, rest := xs[0], xs[1..];
      assert xs == [x] + rest;
      NameSetCons(x, rest);
      InNameSet(rest, Lower(x));
      assert Lower(x) !in NameSet(rest);
      DedupIdentity(rest, seen + {Lower(x)});
    }
  }

  /** With nothing removed and nothing missing, a line without repetitions
      stays as it is. */
  lemma TransformIdle(names: seq<string>, added: seq<string>)
    requires NoDuplicates(names) && NameSet(added) <= NameSet(names)
    ensures TransformNames(names, [], added) == names
  {
    PendingSet(NameSet(names), added);
    var pending := Pending(NameSet(names), added);
    if pending != [] {
      assert pending == [pending[0]] + pending[1..];
      NameSetCons(pending[0], pending[1..]);
    }
    ReplacedIdle(names);
    DedupIdentity(names, {});
  }

  lemma {:induction false} ReplacedIdle(names: seq<string>)
    ensures Replaced(names, NameSet([]), []) == names
  {
    if names != [] {
      ReplacedIdle(names[1..]);
    }
  }

  // ---- what a rotation reads and writes ------------------------------------

  /** The three panel values a rotation owns. */
  datatype PanelValues = PanelValues(dest: map<string, string>, names: seq<string>, ssn: Option<string>)

  predicate SamePanel(a: PanelValues, b: PanelValues) {
    a.dest == b.dest && SameNames(a.names, b.names) && a.ssn == b.ssn
  }

  datatype ProbeValue = ProbeValue(present: bool, serverName: Option<string>)

  /** One value per layer: the shape of a snapshot's old and new. */
  datatype Layers = Layers(panel: PanelValues, acl: AclLines, env: Option<string>,
                           container: Option<string>, probe: ProbeValue)

  /** The same with holes: what a run could read. */
  datatype Reading = Reading(panel: Option<PanelValues>, acl: Option<AclLines>, env: Option<Option<string>>,
                             container: Option<Option<string>>, probe: Option<ProbeValue>)

  function AsReading(v: Layers): Reading {
    Reading(Some(v.panel), Some(v.acl), Some(v.env), Some(v.container), Some(v.probe))
  }

  function Without(names: seq<string>, n: string): seq<string> {
    if names == [] then []
    else if names[0] == n then Without(names[1..], n)
    else [names[0]] + Without(names[1..], n)
  }

  function Outside(names: seq<string>, keep: seq<string>): seq<string> {
    if names == [] then []
    else if names[0] in keep then Outside(names[1..], keep)
    else [names[0]] + Outside(names[1..], keep)
  }

  function NewNames(cur: PanelValues, sni: string, keepOld: bool): seq<string> {
    [sni] + if keepOld then Without(LowerNames(cur.names), sni) else []
  }

  function RemovedNames(cur: PanelValues, sni: string, keepOld: bool): seq<string> {
    Outside(LowerNames(cur.names), NewNames(cur, sni, keepOld))
  }

  function SetAll(keys: set<string>, v: string): (m: map<string, string>)
    ensures m.Keys == keys && forall k | k in keys :: m[k] == v
  {
    map k | k in keys :: v
  }

  function PlanTarget(cur: Layers, sni: string, dest: string, keepOld: bool): (t: Layers)
    ensures |t.acl| == |cur.acl|
  {
    var newNames := NewNames(cur.panel, sni, keepOld);
    var removed := RemovedNames(cur.panel, sni, keepOld);
    var ssn := cur.panel.ssn;
    Layers(
      PanelValues(SetAll(if cur.panel.dest == map[] then {"dest"} else cur.panel.dest.Keys, dest),
                  newNames,
                  if ssn.Some? && ssn.value != "" && Lower(ssn.value) in removed then Some(sni) else ssn),
      seq(|cur.acl|, i requires 0 <= i < |cur.acl| => TransformNames(cur.acl[i], removed, newNames)),
      Some(sni),
      Some(sni),
      ProbeValue(cur.probe.present, if cur.probe.present then Some(sni) else None))
  }

  lemma {:induction false} OutsideSet(names: seq<string>, keep: seq<string>)
    ensures forall n :: n in Outside(names, keep) <==> n in names && n !in keep
  {
    if names != [] {
      OutsideSet(names[1..], keep);
    }
  }

  lemma {:induction false} OutsideNothing(names: seq<string>, keep: seq<string>)
    requires forall n :: n in names ==> n in keep
    ensures Outside(names, keep) == []
  {
    if names != [] {
      assert names[0] in names;
      OutsideNothing(names[1..], keep);
    }
  }

  lemma {:induction false} WithoutSet(names: seq<string>, x: string)
    ensures forall n :: n in Without(names, x) <==> n in names && n != x
  {
    if names != [] {
      WithoutSet(names[1..], x);
    }
  }

  predicate AllLower(xs: seq<string>) {
    forall i | 0 <= i < |xs| :: Lower(xs[i]) == xs[i]
  }

  lemma LowerNamesAllLower(xs: seq<string>)
    ensures AllLower(LowerNames(xs))
  {
    forall i | 0 <= i < |xs| ensures Lower(LowerNames(xs)[i]) == LowerNames(xs)[i] {
      LowerIdempotent(xs[i]);
    }
  }

  lemma AllLowerSet(xs: seq<string>)
    requires AllLower(xs)
    ensures LowerNames(xs) == xs
    ensures forall n :: n in NameSet(xs) <==> n in xs
  {
    assert LowerNames(xs) == xs;
  }

  /** Facts about the planned serverNames: all lower case, the new name among
      them, disjoint from the removed ones, which with them cover the old. */
  lemma PlannedNames(cur: PanelValues, sni: string, keepOld: bool)
    requires Lower(sni) == sni
    ensures AllLower(NewNames(cur, sni, keepOld)) && AllLower(RemovedNames(cur, sni, keepOld))
    ensures sni in NameSet(NewNames(cur, sni, keepOld))
    ensures NameSet(NewNames(cur, sni, keepOld)) !! NameSet(RemovedNames(cur, sni, keepOld))
    ensures NameSet(cur.names) <= NameSet(NewNames(cur, sni, keepOld)) + NameSet(RemovedNames(cur, sni, keepOld))
    ensures keepOld ==> NameSet(cur.names) <= NameSet(NewNames(cur, sni, keepOld))
    ensures keepOld ==> RemovedNames(cur, sni, keepOld) == []
  {
    var low := LowerNames(cur.names);
    LowerNamesAllLower(cur.names);
    WithoutSet(low, sni);
    var nn := NewNames(cur, sni, keepOld);
    OutsideSet(low, nn);
    var rm := RemovedNames(cur, sni, keepOld);
    forall i | 0 <= i < |nn| ensures Lower(nn[i]) == nn[i] {
      assert nn[i] == sni || nn[i] in low;
    }
    forall i | 0 <= i < |rm| ensures Lower(rm[i]) == rm[i] {
      assert rm[i] in low;
    }
    AllLowerSet(nn);
    AllLowerSet(rm);
    assert nn[0] == sni;
    if keepOld {
      forall n | n in low ensures n in nn {
        if n != sni {
          assert n in Without(low, sni);
        }
      }
      OutsideNothing(low, nn);
    }
  }

  /** Every planned ACL line lets through every planned serverName, so no
      client that the panel would accept is turned away at the entry. */
  lemma PlannedAclCoversNames(cur: Layers, sni: string, dest: string, keepOld: bool)
    requires Lower(sni) == sni
    ensures var t := PlanTarget(cur, sni, dest, keepOld);
            forall i | 0 <= i < |t.acl| ::
              && NameSet(t.panel.names) <= NameSet(t.acl[i])
              && NoDuplicates(t.acl[i])
              && t.acl[i] != []
              && (keepOld ==> NameSet(cur.acl[i]) <= NameSet(t.acl[i]))
  {
    var nn := NewNames(cur.panel, sni, keepOld);
    var rm := RemovedNames(cur.panel, sni, keepOld);
    PlannedNames(cur.panel, sni, keepOld);
    forall i | 0 <= i < |cur.acl|
      ensures NameSet(nn) <= NameSet(TransformNames(cur.acl[i], rm, nn))
      ensures NoDuplicates(TransformNames(cur.acl[i], rm, nn))
      ensures TransformNames(cur.acl[i], rm, nn) != []
      ensures keepOld ==> NameSet(cur.acl[i]) <= NameSet(TransformNames(cur.acl[i], rm, nn))
    {
      TransformedNames(cur.acl[i], rm, nn);
      assert sni in NameSet(TransformNames(cur.acl[i], rm, nn));
    }
  }

  /** Planning again from the planned values changes nothing. */
  lemma PlanIsFixpoint(cur: Layers, sni: string, dest: string, keepOld: bool)
    requires Lower(sni) == sni
    ensures var t := PlanTarget(cur, sni, dest, keepOld);
            var again := PlanTarget(t, sni, dest, keepOld);
            again == t
  {
    var t := PlanTarget(cur, sni, dest, keepOld);
    var nn := NewNames(cur.panel, sni, keepOld);
    PlannedNames(cur.panel, sni, keepOld);
    AllLowerSet(nn);
    if keepOld {
      var low := LowerNames(cur.panel.names);
      WithoutSet(low, sni);
      WithoutAbsent(Without(low, sni), sni);
      assert nn[1..] == Without(low, sni);
    }
    assert NewNames(t.panel, sni, keepOld) == nn by {
      assert LowerNames(nn) == nn;
      if keepOld {
        assert Without(nn, sni) == Without(nn[1..], sni);
      }
    }
    OutsideNothing(nn, nn);
    PlannedAclCoversNames(cur, sni, dest, keepOld);
    forall i | 0 <= i < |t.acl| ensures TransformNames(t.acl[i], [], nn) == t.acl[i] {
      TransformIdle(t.acl[i], nn);
    }
    assert PlanTarget(t, sni, dest, keepOld).acl == t.acl;
    assert t.panel.dest.Keys != {};
    assert PlanTarget(t, sni, dest, keepOld).panel.dest == t.panel.dest;
  }

  lemma {:induction false} WithoutAbsent(xs: seq<string>, x: string)
    requires x !in xs
    ensures Without(xs, x) == xs
  {
    if xs != [] {
      WithoutAbsent(xs[1..], x);
    }
  }

  // ---- which steps are needed ----------------------------------------------

  datatype Step = PanelStep | HaproxyStep | EnvStep | BotStep | ProbeStep

  const APPLY_ORDER: seq<Step> := [PanelStep, HaproxyStep, EnvStep, BotStep, ProbeStep]
  const ROLLBACK_ORDER: seq<Step> := [EnvStep, BotStep, ProbeStep, HaproxyStep, PanelStep]

  predicate SniMatches(actual: Option<string>, expected: Option<string>) {
    expected == None || actual == expected
  }

  predicate EnvChange(cur: Reading, t: Layers) {
    cur.env == None || cur.env.value != t.env
  }

  predicate BotNeeded(cur: Reading, t: Layers) {
    EnvChange(cur, t) || cur.container == None || !SniMatches(cur.container.value, t.env)
  }

  predicate Needed(step: Step, cur: Reading, t: Layers) {
    match step
    case PanelStep => cur.panel == None || !SamePanel(cur.panel.value, t.panel)
    case HaproxyStep => cur.acl == None || !AclEqual(cur.acl.value, t.acl)
    case EnvStep => EnvChange(cur, t)
    case BotStep => BotNeeded(cur, t)
    case ProbeStep =>
      && t.probe.present
      && (BotNeeded(cur, t) || cur.probe == None || !SniMatches(cur.probe.value.serverName, t.env))
  }

  function StepsNeeded(cur: Reading, t: Layers, order: seq<Step>): (r: seq<Step>)
    ensures forall s :: s in r <==> s in order && Needed(s, cur, t)
  {
    if order == [] then []
    else (if Needed(order[0], cur, t) then [order[0]] else []) + StepsNeeded(cur, t, order[1..])
  }

  /** Do the values read for every layer agree with the target? A container or
      probe only has to match when the target sets SNI_VALUE at all. */
  predicate Agrees(v: Layers, t: Layers) {
    && v.panel.dest == t.panel.dest && SameNames(v.panel.names, t.panel.names) && v.panel.ssn == t.panel.ssn
    && AclEqual(v.acl, t.acl)
    && v.env == t.env
    && SniMatches(v.container, t.env)
    && (t.probe.present ==> SniMatches(v.probe.serverName, t.env))
  }

  /** Nothing is left to do exactly when all layers agree, in either order. */
  lemma NothingNeededIffAgrees(v: Layers, t: Layers, order: seq<Step>)
    requires order == APPLY_ORDER || order == ROLLBACK_ORDER
    ensures StepsNeeded(AsReading(v), t, order) == [] <==> Agrees(v, t)
  {
    hide SameNames, AclEqual, StepsNeeded;
    var cur := AsReading(v);
    var r := StepsNeeded(cur, t, order);
    assert PanelStep in order && HaproxyStep in order && EnvStep in order && BotStep in order && ProbeStep in order;
    if r == [] {
      assert !Needed(PanelStep, cur, t) && !Needed(HaproxyStep, cur, t) && !Needed(EnvStep, cur, t)
          && !Needed(BotStep, cur, t) && !Needed(ProbeStep, cur, t);
    } else {
      assert r[0] in r;
      assert Needed(r[0], cur, t);
    }
  }

  predicate Before(order: seq<Step>, a: Step, b: Step) {
    exists k, m | 0 <= k < m < |order| :: order[k] == a && order[m] == b
  }

  lemma BeforeTail(order: seq<Step>, a: Step, b: Step)
    requires order != []
    ensures Before(order[1..], a, b) ==> Before(order, a, b)
    ensures a == order[0] && b in order[1..] ==> Before(order, a, b)
  {
    if Before(order[1..], a, b) {
      var k, m :| 0 <= k < m < |order[1..]| && order[1..][k] == a && order[1..][m] == b;
      assert order[k + 1] == a && order[m + 1] == b;
    }
    if a == order[0] && b in order[1..] {
      var m :| 0 <= m < |order[1..]| && order[1..][m] == b;
      assert order[m + 1] == b;
    }
  }

  predicate InOrderOf(r: seq<Step>, order: seq<Step>) {
    forall i, j | 0 <= i < j < |r| :: Before(order, r[i], r[j])
  }

  lemma {:induction false} InTheirOrder(cur: Reading, t: Layers, order: seq<Step>)
    ensures InOrderOf(StepsNeeded(cur, t, order), order)
  {
    hide Needed, InOrderOf;
    if order == [] {
      NoOrder(order);
    } else {
      InTheirOrder(cur, t, order[1..]);
      OrderedCons(order, StepsNeeded(cur, t, order[1..]), Needed(order[0], cur, t));
    }
  }

  lemma NoOrder(order: seq<Step>)
    ensures InOrderOf([], order)
  {
  }

  lemma OrderedCons(order: seq<Step>, rest: seq<Step>, first: bool)
    requires order != [] && InOrderOf(rest, order[1..]) && forall s | s in rest :: s in order[1..]
    ensures InOrderOf((if first then [order[0]] else []) + rest, order)
  {
    hide Before;
    var r := (if first then [order[0]] else []) + rest;
    var shift := |r| - |rest|;
    forall i, j | 0 <= i < j < |r| ensures Before(order, r[i], r[j]) {
      BeforeTail(order, r[i], r[j]);
      assert r[j] == rest[j - shift] && rest[j - shift] in rest;
      assert i >= shift ==> r[i] == rest[i - shift];
    }
  }

  /** The bot is recreated whenever .env is written, its probe config is made
      again whenever the bot is recreated, and the steps come in their order. */
  lemma StepsGoTogether(cur: Reading, t: Layers, order: seq<Step>)
    requires order == APPLY_ORDER || order == ROLLBACK_ORDER
    ensures var r := StepsNeeded(cur, t, order);
            && (EnvStep in r ==> BotStep in r)
            && (BotStep in r && t.probe.present ==> ProbeStep in r)
            && (ProbeStep in r ==> t.probe.present)
            && InOrderOf(r, order)
  {
    assert PanelStep in order && HaproxyStep in order && EnvStep in order && BotStep in order && ProbeStep in order;
    hide SamePanel, AclEqual, StepsNeeded, InOrderOf;
    InTheirOrder(cur, t, order);
  }
}
