/** The loops of decide (scripts/hermes_model_guard.py), proved to compute the
    plan of module Guard. */
module GuardLoops {
  import opened Wrappers
  import opened Guard

  lemma Assoc<T>(a: seq<T>, b: seq<T>, c: seq<T>)
    ensures a + b + c == a + (b + c)
  {
  }

  lemma Tail<T>(xs: seq<T>, i: nat)
    requires i < |xs|
    ensures xs[i..] == [xs[i]] + xs[i + 1..] && xs[i..] != [] && xs[i..][0] == xs[i] && xs[i..][1..] == xs[i + 1..]
  {
  }

  /** The scan of a curated list. */
  method FindCandidate(cat: Catalogue, cands: seq<string>, tools: bool, images: bool, exclude: set<string>) returns (r: Option<string>)
    ensures r == FirstCandidate(cat, cands, tools, images, exclude)
  {
    hide Fit;
    for i := 0 to |cands|
      invariant FirstCandidate(cat, cands, tools, images, exclude) == FirstCandidate(cat, cands[i..], tools, images, exclude)
    {
      Tail(cands, i);
      if cands[i] !in exclude && Fit(cands[i], cat, tools, images) {
        return Some(cands[i]);
      }
    }
    return None;
  }

  lemma DropStep(fbs: seq<Fallback>, i: nat, cat: Catalogue, prev: States)
    requires i < |fbs|
    ensures DropDead(fbs[i..], cat, prev)
            == (if DeadFallback(fbs[i], cat, prev) then [] else [fbs[i]]) + DropDead(fbs[i + 1..], cat, prev)
    ensures Dropped(fbs[i..], cat, prev)
            == (if DeadFallback(fbs[i], cat, prev) then [DropFallback(fbs[i].entry.model)] else []) + Dropped(fbs[i + 1..], cat, prev)
  {
    hide Dead;
    Tail(fbs, i);
  }

  lemma DropEnd(cat: Catalogue, prev: States)
    ensures DropDead([], cat, prev) == [] && Dropped([], cat, prev) == []
  {
  }

  /** Dead fallbacks go; the others are kept in order. */
  method CutChain(fbs: seq<Fallback>, cat: Catalogue, prev: States) returns (kept: seq<Fallback>, actions: seq<Action>)
    ensures kept == DropDead(fbs, cat, prev) && actions == Dropped(fbs, cat, prev)
  {
    hide Dead, DropDead, Dropped;
    kept, actions := [], [];
    assert fbs[0..] == fbs;
    for i := 0 to |fbs|
      invariant kept + DropDead(fbs[i..], cat, prev) == DropDead(fbs, cat, prev)
      invariant actions + Dropped(fbs[i..], cat, prev) == Dropped(fbs, cat, prev)
    {
      var fb := fbs[i];
      DropStep(fbs, i, cat, prev);
      if fb.Usable? && Dead(fb.entry.model, cat, prev) {
        Assoc(actions, [DropFallback(fb.entry.model)], Dropped(fbs[i + 1..], cat, prev));
        actions := actions + [DropFallback(fb.entry.model)];
      } else {
        Assoc(kept, [fb], DropDead(fbs[i + 1..], cat, prev));
        kept := kept + [fb];
      }
    }
    DropEnd(cat, prev);
    assert fbs[|fbs|..] == [] && kept + [] == kept && actions + [] == actions;
  }

  lemma AddStep(inChain: set<string>, freeLeft: nat, barred: set<string>, cat: Catalogue)
    requires freeLeft < MIN_FREE_FALLBACKS
    ensures var cand := FirstCandidate(cat, FALLBACK_CANDIDATES, true, false, inChain + barred);
            var now := Additions(inChain, freeLeft, barred, cat);
            if cand == None then now == []
            else
              var rest := Additions(inChain + {cand.value}, freeLeft + 1, barred, cat);
              && now == [cand.value] + rest
              && AsFallbacks(now) == [Fresh(cand.value)] + AsFallbacks(rest)
              && AddActions(now) == [AddFallback(cand.value)] + AddActions(rest)
  {
    hide FirstCandidate;
    var cand := FirstCandidate(cat, FALLBACK_CANDIDATES, true, false, inChain + barred);
    if cand.Some? {
      var rest := Additions(inChain + {cand.value}, freeLeft + 1, barred, cat);
      assert ([cand.value] + rest)[1..] == rest;
    }
  }

  lemma AddEnd(inChain: set<string>, freeLeft: nat, barred: set<string>, cat: Catalogue)
    requires freeLeft >= MIN_FREE_FALLBACKS || FirstCandidate(cat, FALLBACK_CANDIDATES, true, false, inChain + barred) == None
    ensures var now := Additions(inChain, freeLeft, barred, cat); AsFallbacks(now) == [] && AddActions(now) == []
  {
    hide FirstCandidate;
  }

  /** The top-up loop: one candidate at a time, until two are free or none is
      left. */
  method TopUp(kept: seq<Fallback>, barred: set<string>, cat: Catalogue) returns (chain: seq<Fallback>, actions: seq<Action>)
    ensures var inChain := IdSet(FallbackModels(kept));
            var added := Additions(inChain, |FreeOf(inChain, cat)|, barred, cat);
            chain == kept + AsFallbacks(added) && actions == AddActions(added)
  {
    hide FirstCandidate, Classify, Additions, AsFallbacks, AddActions, IdSet, FreeOf, FallbackModels, Fresh;
    var inChain := IdSet(FallbackModels(kept));
    var freeLeft := |FreeOf(inChain, cat)|;
    ghost var goal := Additions(inChain, freeLeft, barred, cat);
    chain, actions := kept, [];
    while freeLeft < MIN_FREE_FALLBACKS
      invariant chain + AsFallbacks(Additions(inChain, freeLeft, barred, cat)) == kept + AsFallbacks(goal)
      invariant actions + AddActions(Additions(inChain, freeLeft, barred, cat)) == AddActions(goal)
    {
      var cand := FindCandidate(cat, FALLBACK_CANDIDATES, true, false, inChain + barred);
      if cand == None {
        break;
      }
      AddStep(inChain, freeLeft, barred, cat);
      ghost var rest := Additions(inChain + {cand.value}, freeLeft + 1, barred, cat);
      Assoc(chain, [Fresh(cand.value)], AsFallbacks(rest));
      Assoc(actions, [AddFallback(cand.value)], AddActions(rest));
      chain := chain + [Fresh(cand.value)];
      actions := actions + [AddFallback(cand.value)];
      inChain := inChain + {cand.value};
      freeLeft := freeLeft + 1;
    }
    AddEnd(inChain, freeLeft, barred, cat);
  }

  lemma LinkStep(name: string, ls: seq<Link>, i: nat, cat: Catalogue, prev: States)
    requires i < |ls|
    ensures var id := LinkId(ls[i]);
            && KeepLinks(ls[i..], cat, prev) == (if DeadId(id, cat, prev) then [] else [ls[i]]) + KeepLinks(ls[i + 1..], cat, prev)
            && LinkActions(name, ls[i..], cat, prev)
               == (if DeadId(id, cat, prev) then [DropAuxFallback(name, id.value)] else []) + LinkActions(name, ls[i + 1..], cat, prev)
  {
    hide Dead, LinkId;
    Tail(ls, i);
  }

  lemma LinkEnd(name: string, cat: Catalogue, prev: States)
    ensures KeepLinks([], cat, prev) == [] && LinkActions(name, [], cat, prev) == []
  {
  }

  /** The links of one task's own chain. */
  method CutLinks(name: string, ls: seq<Link>, cat: Catalogue, prev: States) returns (kept: seq<Link>, actions: seq<Action>)
    ensures kept == KeepLinks(ls, cat, prev) && actions == LinkActions(name, ls, cat, prev)
  {
    hide Dead, LinkId, KeepLinks, LinkActions;
    kept, actions := [], [];
    assert ls[0..] == ls;
    for i := 0 to |ls|
      invariant kept + KeepLinks(ls[i..], cat, prev) == KeepLinks(ls, cat, prev)
      invariant actions + LinkActions(name, ls[i..], cat, prev) == LinkActions(name, ls, cat, prev)
    {
      LinkStep(name, ls, i, cat, prev);
      var id := LinkId(ls[i]);
      if id.Some? && Dead(id.value, cat, prev) {
        Assoc(actions, [DropAuxFallback(name, id.value)], LinkActions(name, ls[i + 1..], cat, prev));
        actions := actions + [DropAuxFallback(name, id.value)];
      } else {
        Assoc(kept, [ls[i]], KeepLinks(ls[i + 1..], cat, prev));
        kept := kept + [ls[i]];
      }
    }
    LinkEnd(name, cat, prev);
    assert ls[|ls|..] == [] && kept + [] == kept && actions + [] == actions;
  }

  /** One side task: re-pinned if its model is dead, its chain cut. */
  method RepinTask(from: Task, tg: Targets, cat: Catalogue, prev: States) returns (t: Task, actions: seq<Action>)
    ensures t == RepairTask(from, tg, cat, prev) && actions == TaskActions(from, tg, cat, prev)
  {
    hide Dead, AuxModelId, KeepLinks, LinkActions, TargetOf;
    t, actions := from, [];
    if t.NotTask? {
      return;
    }
    RepinnedModel(from.entry);
    var id := AuxModelId(t.entry);
    if id.Some? && Dead(id.value, cat, prev) {
      var target := TargetOf(t.name, tg);
      if target != id.value {
        actions := [Repin(t.name, id.value, target)];
        t := t.(entry := t.entry.(model := target));
      }
    }
    if t.chain.Some? {
      var kept, cut := CutLinks(t.name, t.chain.value, cat, prev);
      t := t.(chain := Some(kept));
      actions := actions + cut;
    }
  }

  lemma RepinnedModel(e: AuxEntry)
    ensures AuxModelId(e).Some? ==> AuxModelId(e).value == e.model
  {
    hide Contains;
  }

  lemma AuxStep(ts: seq<Task>, i: nat, tg: Targets, cat: Catalogue, prev: States)
    requires i < |ts|
    ensures RepairAux(ts[i..], tg, cat, prev) == [RepairTask(ts[i], tg, cat, prev)] + RepairAux(ts[i + 1..], tg, cat, prev)
    ensures AuxActions(ts[i..], tg, cat, prev) == TaskActions(ts[i], tg, cat, prev) + AuxActions(ts[i + 1..], tg, cat, prev)
  {
    hide RepairTask, TaskActions;
    Tail(ts, i);
  }

  lemma AuxEnd(tg: Targets, cat: Catalogue, prev: States)
    ensures RepairAux([], tg, cat, prev) == [] && AuxActions([], tg, cat, prev) == []
  {
  }

  /** The loop over the side tasks, each edited in its place. */
  method RepinTasks(from: seq<Task>, tg: Targets, cat: Catalogue, prev: States) returns (aux: seq<Task>, actions: seq<Action>)
    ensures aux == RepairAux(from, tg, cat, prev) && actions == AuxActions(from, tg, cat, prev)
  {
    hide RepairTask, TaskActions, RepairAux, AuxActions;
    aux, actions := from, [];
    assert from[0..] == from;
    for i := 0 to |from|
      invariant |aux| == |from| && forall k | i <= k < |from| :: aux[k] == from[k]
      invariant aux[..i] + RepairAux(from[i..], tg, cat, prev) == RepairAux(from, tg, cat, prev)
      invariant actions + AuxActions(from[i..], tg, cat, prev) == AuxActions(from, tg, cat, prev)
    {
      AuxStep(from, i, tg, cat, prev);
      var t, acts := RepinTask(aux[i], tg, cat, prev);
      Assoc(aux[..i], [t], RepairAux(from[i + 1..], tg, cat, prev));
      Assoc(actions, acts, AuxActions(from[i + 1..], tg, cat, prev));
      actions := actions + acts;
      aux := aux[i := t];
      assert aux[..i + 1] == aux[..i] + [t];
    }
    AuxEnd(tg, cat, prev);
    assert from[|from|..] == [] && aux[..|from|] + [] == aux && actions + [] == actions;
  }

  /** Cut, and top up only what was cut. */
  method RebuildChain(base: Config, oldPrimary: string, promoted: bool, cat: Catalogue, prev: States) returns (ch: Chain)
    ensures ch == NewChain(base, oldPrimary, promoted, cat, prev)
  {
    hide DropDead, Dropped, Additions, AsFallbacks, AddActions, FreeOf, IdSet, FallbackModels;
    var kept, drops := CutChain(base.fallbacks, cat, prev);
    if !promoted && drops == [] {
      return Chain(kept, []);
    }
    var full, adds := TopUp(kept, {base.primary.model, oldPrimary}, cat);
    ch := Chain(full, drops + adds);
  }

  /** The rewritten configuration and the actions, collected in order. */
  method Rebuild(c: Config, w: Winner, cat: Catalogue, prev: States) returns (r: Repair)
    requires w.FromChain? ==> w.index < |c.fallbacks| && c.fallbacks[w.index].Usable?
    ensures r == Repaired(c, w, cat, prev)
  {
    hide Promoted, NewChain, TargetsFor, RepairAux, AuxActions;
    var base := Promoted(c, w);
    var actions := if w != NoWinner then [Promote(base.primary.model)] else [];
    var ch := RebuildChain(base, c.primary.model, w != NoWinner, cat, prev);
    actions := actions + ch.actions;
    var tg := TargetsFor(base.primary.model, ch.fallbacks, cat);
    var aux := base.aux;
    if tg.Some? {
      var auxActions;
      aux, auxActions := RepinTasks(base.aux, tg.value, cat, prev);
      actions := actions + auxActions;
    }
    r := Repair(Config(base.primary, ch.fallbacks, aux), actions);
  }

  /** Was a model that costs money removed? */
  method PaidTouched(actions: seq<Action>, primary: string, cat: Catalogue) returns (paid: bool)
    ensures paid <==> TouchesPaid(actions, primary, cat)
  {
    hide RemovesPaid;
    paid := false;
    for i := 0 to |actions|
      invariant paid <==> exists k :: 0 <= k < i && RemovesPaid(actions[k], primary, cat)
    {
      paid := paid || RemovesPaid(actions[i], primary, cat);
    }
  }

  /** decide for a catalogue at hand. */
  method DecidePricing(c: Config, cat: Catalogue, prev: States) returns (p: Plan)
    ensures p == Pricing(c, cat, prev)
  {
    hide Classify, WasMissing, Repaired, Successor, Warnings, TouchesPaid, Announced;
    var notes := Warnings(c, cat, prev);
    var w := NoWinner;
    var waits: seq<Note> := [];
    if Classify(c.primary.model, cat) != Free {
      w := Successor(c, cat);
      if w == NoWinner {
        return Plan(notes + [Note(NoFreeModel, true)], [], None);
      }
      if FirstMiss(c.primary.model, cat, prev) {
        waits := [Note(PrimaryMissing(c.primary.model), false)];
        w := NoWinner;
      }
    }
    assert w == Chosen(c, cat, prev);
    assert waits == if FirstMiss(c.primary.model, cat, prev) then [Note(PrimaryMissing(c.primary.model), false)] else [];
    var r := Rebuild(c, w, cat, prev);
    notes := notes + waits;
    if r.actions == [] {
      return Plan(notes, [], None);
    }
    var key := if w != NoWinner then Promotion(c.primary.model, r.config.primary.model) else Rewrite(multiset(r.actions));
    var paid := PaidTouched(r.actions, c.primary.model, cat);
    p := Plan(notes + [Note(key, paid)], Announced(r.actions, c.primary.model), Some(r.config));
  }
}
