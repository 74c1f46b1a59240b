/** What a plan holds, said of the values it was made from: where each name of
    an ACL line goes, which serverNames the panel gets, and when its share-link
    hint moves. */
module PlannedValues {
  import opened Wrappers
  import opened Names
  import opened Planning

  // ---- the places of an ACL line ------------------------------------------------------

  function RemovedBefore(names: seq<string>, rm: set<string>, i: nat): nat
    requires i <= |names|
  {
    if i == 0 then 0 else RemovedBefore(names, rm, i - 1) + if Lower(names[i - 1]) in rm then 1 else 0
  }

  predicate At(line: seq<string>, i: int, name: string) { 0 <= i < |line| && line[i] == name }

  /** The old names hold their places as long as there is something new for
      each place that falls free; what is new takes these places in order, and
      what finds none comes last. */
  predicate TakesPlaces(line: seq<string>, names: seq<string>, rm: set<string>, news: seq<string>) {
    var all := RemovedBefore(names, rm, |names|);
    && |line| == |names| - all + |news|
    && (all <= |news| ==> line[|names|..] == news[all..])
    && forall i | 0 <= i < |names| :: HasPlace(line, names, rm, news, i)
  }

  predicate HasPlace(line: seq<string>, names: seq<string>, rm: set<string>, news: seq<string>, i: nat)
    requires i < |names|
  {
    var gone := RemovedBefore(names, rm, i);
    if Lower(names[i]) in rm then gone < |news| ==> At(line, i, news[gone])
    else At(line, if gone <= |news| then i else i - gone + |news|, names[i])
  }

  lemma {:induction false} RemovedTail(names: seq<string>, rm: set<string>, i: nat)
    requires 0 < i <= |names|
    ensures RemovedBefore(names, rm, i) == RemovedBefore(names[1..], rm, i - 1) + if Lower(names[0]) in rm then 1 else 0
  {
    if i > 1 {
      RemovedTail(names, rm, i - 1);
      assert names[1..][i - 2] == names[i - 1];
    }
  }

  lemma {:induction false} ReplacedPlaces(names: seq<string>, rm: set<string>, pending: seq<string>)
    ensures TakesPlaces(Replaced(names, rm, pending), names, rm, pending)
  {
    if names == [] {
      assert pending[0..] == pending;
    } else {
      var rest := names[1..];
      var next := if Lower(names[0]) in rm && pending != [] then pending[1..] else pending;
      ReplacedPlaces(rest, rm, next);
      var tail, line := Replaced(rest, rm, next), Replaced(names, rm, pending);
      RemovedTail(names, rm, |names|);
      forall i | 0 <= i < |names| ensures HasPlace(line, names, rm, pending, i) {
        if i > 0 {
          PlaceBehind(names, rm, pending, i);
        }
      }
      var all := RemovedBefore(names, rm, |names|);
      if all <= |pending| {
        PlacesLast(line, tail, names, rm, pending, next);
      }
    }
  }

  lemma PlaceBehind(names: seq<string>, rm: set<string>, pending: seq<string>, i: nat)
    requires 0 < i < |names|
    requires var next := if Lower(names[0]) in rm && pending != [] then pending[1..] else pending;
             HasPlace(Replaced(names[1..], rm, next), names[1..], rm, next, i - 1)
    ensures HasPlace(Replaced(names, rm, pending), names, rm, pending, i)
  {
    hide RemovedBefore;
    RemovedTail(names, rm, i);
    assert names[1..][i - 1] == names[i];
  }

  lemma PlacesLast(line: seq<string>, tail: seq<string>, names: seq<string>, rm: set<string>, pending: seq<string>, next: seq<string>)
    requires names != [] && RemovedBefore(names, rm, |names|) <= |pending| && |names| <= |line|
    requires next == if Lower(names[0]) in rm && pending != [] then pending[1..] else pending
    requires TakesPlaces(tail, names[1..], rm, next) && line == Replaced(names, rm, pending) && tail == Replaced(names[1..], rm, next)
    ensures line[|names|..] == pending[RemovedBefore(names, rm, |names|)..]
  {
    hide HasPlace;
    RemovedTail(names, rm, |names|);
    assert line[1..] == tail;
    assert line[|names|..] == tail[|names| - 1..];
  }

  // ---- each name once ------------------------------------------------------------------------

  /** Where a name first stands, in any spelling. */
  function FirstAt(line: seq<string>, name: string): nat {
    if line == [] || Lower(line[0]) == Lower(name) then 0 else FirstAt(line[1..], name) + 1
  }

  /** The same names, each once, as first spelled and in the order in which
      they first stand. */
  predicate FirstsOf(r: seq<string>, line: seq<string>) {
    && NoDuplicates(r) && NameSet(r) == NameSet(line)
    && (forall i | 0 <= i < |r| :: At(line, FirstAt(line, r[i]), r[i]))
    && (forall i, j | 0 <= i < j < |r| :: FirstAt(line, r[i]) < FirstAt(line, r[j]))
  }

  predicate InOrder(r: seq<string>, xs: seq<string>, seen: set<string>) {
    && (forall i | 0 <= i < |r| :: Lower(r[i]) !in seen && At(xs, FirstAt(xs, r[i]), r[i]))
    && (forall i, j | 0 <= i < j < |r| :: FirstAt(xs, r[i]) < FirstAt(xs, r[j]))
  }

  lemma {:induction false} DedupFirsts(xs: seq<string>, seen: set<string>)
    ensures InOrder(Dedup(xs, seen), xs, seen)
  {
    hide InOrder;
    if xs == [] {
      NothingInOrder(seen);
    } else {
      var x, rest := xs[0], xs[1..];
      var seen1 := if Lower(x) in seen then seen else seen + {Lower(x)};
      DedupFirsts(rest, seen1);
      OrderBehind(Dedup(rest, seen1), xs, seen1);
      if Lower(x) !in seen { OrderFrom(x, Dedup(rest, seen1), xs, seen); }
    }
  }

  lemma NothingInOrder(seen: set<string>)
    ensures InOrder([], [], seen)
  {
  }

  lemma OrderBehind(r: seq<string>, xs: seq<string>, seen: set<string>)
    requires xs != [] && Lower(xs[0]) in seen && InOrder(r, xs[1..], seen)
    ensures InOrder(r, xs, seen) && forall i | 0 <= i < |r| :: FirstAt(xs, r[i]) > 0
  {
    forall i | 0 <= i < |r| ensures FirstAt(xs, r[i]) == FirstAt(xs[1..], r[i]) + 1 && At(xs, FirstAt(xs, r[i]), r[i]) {
      assert At(xs[1..], FirstAt(xs[1..], r[i]), r[i]);
    }
  }

  lemma OrderFrom(x: string, r: seq<string>, xs: seq<string>, seen: set<string>)
    requires xs != [] && xs[0] == x && Lower(x) !in seen && InOrder(r, xs, seen + {Lower(x)})
    requires forall i | 0 <= i < |r| :: FirstAt(xs, r[i]) > 0
    ensures InOrder([x] + r, xs, seen)
  {
    var all := [x] + r;
    forall i | 0 <= i < |all| ensures Lower(all[i]) !in seen && At(xs, FirstAt(xs, all[i]), all[i]) {
      if i > 0 { assert all[i] == r[i - 1]; }
    }
    forall i, j | 0 <= i < j < |all| ensures FirstAt(xs, all[i]) < FirstAt(xs, all[j]) {
      assert all[j] == r[j - 1];
      if i > 0 { assert all[i] == r[i - 1]; }
    }
  }

  /** Every ACL line: what is new are the added names the line lacks, in order
      and once each per spelling given; they take the places of what is
      removed, and of the result each name stays once, where it first stands. */
  lemma NamesTakePlaces(names: seq<string>, removed: seq<string>, added: seq<string>) returns (line: seq<string>)
    ensures TakesPlaces(line, names, NameSet(removed), Keep(added, NameSet(added) - NameSet(names)))
    ensures FirstsOf(TransformNames(names, removed, added), line)
  {
    var pending := Pending(NameSet(names), added);
    line := Replaced(names, NameSet(removed), pending);
    PendingIsKept(added, NameSet(names), NameSet(added) - NameSet(names));
    ReplacedPlaces(names, NameSet(removed), pending);
    DedupFirsts(line, {});
    DedupSet(line, {});
  }

  lemma {:induction false} PendingIsKept(added: seq<string>, have: set<string>, news: set<string>)
    requires NameSet(added) - have <= news && news !! have
    ensures Pending(have, added) == Keep(added, news)
  {
    if added != [] {
      assert added == [added[0]] + added[1..];
      NameSetCons(added[0], added[1..]);
      PendingIsKept(added[1..], have, news);
    }
  }

  // ---- the other values ------------------------------------------------------------------------

  /** Does this name appear among these, in any spelling? */
  predicate Mentions(names: seq<string>, n: string) { exists i | 0 <= i < |names| :: Lower(names[i]) == n }

  /** The panel's dest, names and hint, and the other layers. */
  lemma PlanHolds(cur: Layers, sni: string, dest: string, keepOld: bool)
    requires Lower(sni) == sni
    ensures var t := PlanTarget(cur, sni, dest, keepOld);
            && t.panel.names != [] && t.panel.names[0] == sni
            && (if keepOld then
                  t.panel.names[1..] == Keep(LowerNames(cur.panel.names), NameSet(cur.panel.names) - {sni})
                else |t.panel.names| == 1)
            && t.panel.dest.Keys == (if cur.panel.dest == map[] then {"dest"} else cur.panel.dest.Keys)
            && (forall k | k in t.panel.dest :: t.panel.dest[k] == dest)
            && t.panel.ssn == (if !keepOld && cur.panel.ssn.Some? && cur.panel.ssn.value != "" && Lower(cur.panel.ssn.value) != sni
                                  && Mentions(cur.panel.names, Lower(cur.panel.ssn.value))
                               then Some(sni) else cur.panel.ssn)
            && t.env == Some(sni) && t.container == Some(sni)
            && t.probe == (if cur.probe.present then ProbeValue(true, Some(sni)) else ProbeValue(false, None))
  {
    hide TransformNames;
    var low := LowerNames(cur.panel.names);
    var nn, rm := NewNames(cur.panel, sni, keepOld), RemovedNames(cur.panel, sni, keepOld);
    WithoutIsKept(low, sni, NameSet(cur.panel.names) - {sni});
    OutsideSet(low, nn);
    PlannedNames(cur.panel, sni, keepOld);
    if cur.panel.ssn.Some? {
      var n := Lower(cur.panel.ssn.value);
      assert Mentions(cur.panel.names, n) <==> n in low by { InLow(cur.panel.names, n); }
    }
  }

  lemma InLow(names: seq<string>, n: string)
    ensures Mentions(names, n) <==> n in LowerNames(names)
  {
    InNameSet(names, n);
  }

  lemma {:induction false} WithoutIsKept(names: seq<string>, x: string, s: set<string>)
    requires AllLower(names) && x !in s && forall n | n in names && n != x :: n in s
    ensures Without(names, x) == Keep(names, s)
  {
    if names != [] { WithoutIsKept(names[1..], x, s); }
  }
}
