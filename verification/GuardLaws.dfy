/** What the guard's policy promises: repairs are sound, stable and minimal,
    and two runs are enough. */
module GuardLaws {
  import opened Wrappers
  import opened Guard

  predicate NoneDead(ids: seq<string>, cat: Catalogue, prev: States) {
    forall id | id in ids :: !Dead(id, cat, prev)
  }

  /** Ids that were there and are not dead, or that are free. */
  predicate Mended(ids: seq<string>, from: seq<string>, cat: Catalogue, prev: States) {
    forall id | id in ids :: (id in from && !Dead(id, cat, prev)) || Classify(id, cat) == Free
  }

  lemma MendedConcat(a: seq<string>, b: seq<string>, fromA: seq<string>, fromB: seq<string>, cat: Catalogue, prev: States)
    requires Mended(a, fromA, cat, prev) && Mended(b, fromB, cat, prev)
    ensures Mended(a + b, fromA + fromB, cat, prev)
  {
    hide Dead, Classify;
  }

  lemma NoneDeadConcat(a: seq<string>, b: seq<string>, cat: Catalogue, prev: States)
    ensures NoneDead(a + b, cat, prev) <==> NoneDead(a, cat, prev) && NoneDead(b, cat, prev)
  {
    hide Dead;
    assert forall id | id in a || id in b :: id in a + b;
  }

  /** At most one model, kept unless it is dead. */
  lemma OneMended(id: Option<string>, cat: Catalogue, prev: States)
    ensures NoneDead(Listed(id), cat, prev) <==> !DeadId(id, cat, prev)
    ensures id == None ==> !DeadId(id, cat, prev)
    ensures Mended(if DeadId(id, cat, prev) then [] else Listed(id), Listed(id), cat, prev)
  {
    hide Dead, Classify;
    assert id.Some? ==> id.value in Listed(id);
  }

  lemma FreeIsAlive(id: string, cat: Catalogue, prev: States)
    ensures Classify(id, cat) == Free ==> !Dead(id, cat, prev)
  {
    hide Classify;
  }

  // ---- pieces ----------------------------------------------------------------------

  lemma {:induction false} LinksKept(name: string, ls: seq<Link>, cat: Catalogue, prev: States)
    ensures Mended(ChainModels(KeepLinks(ls, cat, prev)), ChainModels(ls), cat, prev)
    ensures LinkActions(name, ls, cat, prev) == [] <==> NoneDead(ChainModels(ls), cat, prev)
    ensures LinkActions(name, ls, cat, prev) == [] ==> KeepLinks(ls, cat, prev) == ls
  {
    hide Dead, DeadId, LinkId, Mended, NoneDead, Listed;
    if ls == [] {
      OneMended(None, cat, prev);
      assert Listed(None) == [] by { NobodyListed(); }
    } else {
      var id, tail := LinkId(ls[0]), ls[1..];
      LinksKept(name, tail, cat, prev);
      OneMended(id, cat, prev);
      NoneDeadConcat(Listed(id), ChainModels(tail), cat, prev);
      var rest := KeepLinks(tail, cat, prev);
      assert ls == [ls[0]] + tail && ([ls[0]] + rest)[1..] == rest && [] + rest == rest;
      var here := if DeadId(id, cat, prev) then [] else Listed(id);
      MendedConcat(here, ChainModels(rest), Listed(id), ChainModels(tail), cat, prev);
      assert ChainModels(KeepLinks(ls, cat, prev)) == here + ChainModels(rest);
    }
  }

  lemma NobodyListed()
    ensures Listed(None) == []
  {
  }

  lemma {:induction false} FallbacksKept(fbs: seq<Fallback>, cat: Catalogue, prev: States)
    ensures Mended(FallbackModels(DropDead(fbs, cat, prev)), FallbackModels(fbs), cat, prev)
    ensures Dropped(fbs, cat, prev) == [] <==> NoneDead(FallbackModels(fbs), cat, prev)
    ensures Dropped(fbs, cat, prev) == [] ==> DropDead(fbs, cat, prev) == fbs
  {
    hide Dead, Mended, NoneDead;
    if fbs == [] {
      OneMended(None, cat, prev);
    } else {
      var id, tail := if fbs[0].Usable? then Some(fbs[0].entry.model) else None, fbs[1..];
      FallbacksKept(tail, cat, prev);
      OneMended(id, cat, prev);
      NoneDeadConcat(Listed(id), FallbackModels(tail), cat, prev);
      var rest := DropDead(tail, cat, prev);
      assert fbs == [fbs[0]] + tail && ([fbs[0]] + rest)[1..] == rest && [] + rest == rest;
      var here := if DeadId(id, cat, prev) then [] else Listed(id);
      MendedConcat(here, FallbackModels(rest), Listed(id), FallbackModels(tail), cat, prev);
      assert FallbackModels(DropDead(fbs, cat, prev)) == here + FallbackModels(rest);
    }
  }

  /** A cut never takes a free model away. */
  lemma {:induction false} FreeSurvives(fbs: seq<Fallback>, cat: Catalogue, prev: States, id: string)
    requires id in FallbackModels(fbs) && Classify(id, cat) == Free
    ensures id in FallbackModels(DropDead(fbs, cat, prev))
  {
    hide Classify, Dead;
    FreeIsAlive(id, cat, prev);
    var rest := DropDead(fbs[1..], cat, prev);
    assert ([fbs[0]] + rest)[1..] == rest && [] + rest == rest;
    if id in FallbackModels(fbs[1..]) { FreeSurvives(fbs[1..], cat, prev, id); }
  }

  lemma {:induction false} ModelsConcat(a: seq<Fallback>, b: seq<Fallback>)
    ensures FallbackModels(a + b) == FallbackModels(a) + FallbackModels(b)
  {
    hide FallbackModels;
    ModelsUnfold(a);
    ModelsUnfold(a + b);
    if a == [] {
      assert a + b == b;
    } else {
      assert (a + b)[1..] == a[1..] + b;
      ModelsConcat(a[1..], b);
      var head, x, y := ModelOf(a[0]), FallbackModels(a[1..]), FallbackModels(b);
      assert head + (x + y) == head + x + y;
    }
  }

  /** The model a fallback names, if any. */
  function ModelOf(f: Fallback): seq<string> {
    Listed(if f.Usable? then Some(f.entry.model) else None)
  }

  lemma ModelsUnfold(fbs: seq<Fallback>)
    ensures FallbackModels(fbs) == if fbs == [] then [] else ModelOf(fbs[0]) + FallbackModels(fbs[1..])
  {
  }

  lemma {:induction false} ModelsOfFresh(ids: seq<string>)
    ensures FallbackModels(AsFallbacks(ids)) == ids
  {
    if ids != [] {
      ModelsOfFresh(ids[1..]);
      assert AsFallbacks(ids)[1..] == AsFallbacks(ids[1..]);
      assert ids == [ids[0]] + ids[1..];
    }
  }

  /** Whatever tops up a chain comes from the curated list, is free and was
      neither in the chain nor the primary, old or new. */
  lemma {:induction false} AdditionsFit(inChain: set<string>, freeLeft: nat, barred: set<string>, cat: Catalogue)
    ensures forall id | id in Additions(inChain, freeLeft, barred, cat) ::
              id in FALLBACK_CANDIDATES && Fit(id, cat, true, false) && id !in inChain && id !in barred
    ensures var added := Additions(inChain, freeLeft, barred, cat);
            freeLeft + |added| >= MIN_FREE_FALLBACKS
            || forall id | id in FALLBACK_CANDIDATES && Fit(id, cat, true, false) :: id in inChain || id in barred || id in added
    ensures forall i, j | 0 <= i < j < |Additions(inChain, freeLeft, barred, cat)| ::
              Additions(inChain, freeLeft, barred, cat)[i] != Additions(inChain, freeLeft, barred, cat)[j]
    decreases MIN_FREE_FALLBACKS - freeLeft
  {
    hide Fit;
    if freeLeft < MIN_FREE_FALLBACKS {
      var cand := FirstCandidate(cat, FALLBACK_CANDIDATES, true, false, inChain + barred);
      if cand.Some? {
        AdditionsFit(inChain + {cand.value}, freeLeft + 1, barred, cat);
      }
    }
  }

  /** The new chain: survivors and curated free models, nothing else. */
  lemma ChainMended(base: Config, oldPrimary: string, promoted: bool, cat: Catalogue, prev: States)
    ensures var ch := NewChain(base, oldPrimary, promoted, cat, prev);
            && Mended(FallbackModels(ch.fallbacks), FallbackModels(base.fallbacks), cat, prev)
            && (!promoted ==> (ch.actions == [] <==> NoneDead(FallbackModels(base.fallbacks), cat, prev)))
            && (!promoted && ch.actions == [] ==> ch.fallbacks == base.fallbacks)
            && (forall id | id in FallbackModels(base.fallbacks) :: Classify(id, cat) == Free ==> id in FallbackModels(ch.fallbacks))
            && (forall id | id in FallbackModels(ch.fallbacks) :: id in FallbackModels(base.fallbacks) || id in FALLBACK_CANDIDATES)
  {
    hide Dead, Classify, Additions, FirstCandidate, DropDead, Dropped;
    FallbacksKept(base.fallbacks, cat, prev);
    forall id | id in FallbackModels(base.fallbacks) && Classify(id, cat) == Free
      ensures id in FallbackModels(DropDead(base.fallbacks, cat, prev)) {
      FreeSurvives(base.fallbacks, cat, prev, id);
    }
    var kept := DropDead(base.fallbacks, cat, prev);
    KeptAreOld(base.fallbacks, cat, prev);
    var inChain := IdSet(FallbackModels(kept));
    var barred := {base.primary.model, oldPrimary};
    var added := Additions(inChain, |FreeOf(inChain, cat)|, barred, cat);
    AdditionsFit(inChain, |FreeOf(inChain, cat)|, barred, cat);
    ModelsConcat(kept, AsFallbacks(added));
    ModelsOfFresh(added);
  }

  lemma {:induction false} KeptAreOld(fbs: seq<Fallback>, cat: Catalogue, prev: States)
    ensures forall id | id in FallbackModels(DropDead(fbs, cat, prev)) :: id in FallbackModels(fbs)
  {
    hide Dead;
    if fbs != [] {
      KeptAreOld(fbs[1..], cat, prev);
      var rest := DropDead(fbs[1..], cat, prev);
      assert ([fbs[0]] + rest)[1..] == rest && [] + rest == rest;
    }
  }

  /** Targets are free. */
  predicate FreeTargets(tg: Targets, cat: Catalogue) {
    Classify(tg.text, cat) == Free && (tg.vision.Some? ==> Classify(tg.vision.value, cat) == Free)
  }

  lemma TargetsAreFree(primary: string, chain: seq<Fallback>, cat: Catalogue)
    ensures var tg := TargetsFor(primary, chain, cat);
            && (tg.Some? ==> FreeTargets(tg.value, cat))
            && (tg.Some? ==> tg.value.text == primary || tg.value.text in FallbackModels(chain))
            && (tg.Some? && tg.value.vision.Some? ==>
                  (tg.value.vision.value == primary || tg.value.vision.value in FallbackModels(chain)
                   || tg.value.vision.value in VISION_CANDIDATES)
                  && tg.value.vision.value in cat && cat[tg.value.vision.value].images)
            && (tg.None? <==> Classify(primary, cat) != Free && forall id | id in FallbackModels(chain) :: Classify(id, cat) != Free)
  {
    hide FirstCandidate, FirstWithImages, FreeModels;
    var ids := [primary] + FallbackModels(chain);
    var frees := FreeModels(ids, cat);
    assert primary in ids && forall id | id in FallbackModels(chain) :: id in ids;
    if frees != [] { assert frees[0] in frees; }
  }

  lemma Repinned(e: AuxEntry, target: string)
    ensures AuxModelId(e).Some? ==> AuxModelId(e).value == e.model
    ensures AuxModelId(e.(model := target)).Some? ==> AuxModelId(e.(model := target)).value == target
  {
    hide Contains;
  }

  lemma TaskMended(t: Task, tg: Targets, cat: Catalogue, prev: States)
    requires FreeTargets(tg, cat)
    ensures Mended(TaskModels(RepairTask(t, tg, cat, prev)), TaskModels(t), cat, prev)
    ensures TaskActions(t, tg, cat, prev) == [] <==> NoneDead(TaskModels(t), cat, prev)
    ensures TaskActions(t, tg, cat, prev) == [] ==> RepairTask(t, tg, cat, prev) == t
    ensures forall id | id in TaskModels(RepairTask(t, tg, cat, prev)) :: id in TaskModels(t) || id == TargetOf(t.name, tg)
  {
    hide AuxModelId, Classify, Dead, ChainModels, Mended, NoneDead, Listed, LinkActions, KeepLinks, TargetOf;
    if t.Task? {
      var target := TargetOf(t.name, tg);
      assert Classify(target, cat) == Free by { TargetIsFree(t.name, tg, cat); }
      var t' := RepairTask(t, tg, cat, prev);
      var id, id' := AuxModelId(t.entry), AuxModelId(t'.entry);
      EntryMended(t, tg, cat, prev);
      var ls := if t.chain.Some? then t.chain.value else [];
      LinksKept(t.name, ls, cat, prev);
      LinksAreOld(ls, cat, prev);
      NoModels();
      NoneDeadConcat(Listed(id), ChainModels(ls), cat, prev);
      MendedConcat(Listed(id'), ChainModels(KeepLinks(ls, cat, prev)), Listed(id), ChainModels(ls), cat, prev);
      assert TaskModels(t') == Listed(id') + ChainModels(KeepLinks(ls, cat, prev)) by { NoLinksKept(cat, prev); }
      assert TaskModels(t) == Listed(id) + ChainModels(ls);
      assert TaskActions(t, tg, cat, prev) == [] <==> !Repins(t, tg, cat, prev) && LinkActions(t.name, ls, cat, prev) == [] by { NoLinksKept(cat, prev); NoLinkActions(t.name, cat, prev); }
    } else {
      OneMended(None, cat, prev);
      NobodyListed();
    }
  }

  lemma NoModels()
    ensures ChainModels([]) == []
  {
  }

  lemma NoLinksKept(cat: Catalogue, prev: States)
    ensures KeepLinks([], cat, prev) == []
  {
  }

  lemma NoLinkActions(name: string, cat: Catalogue, prev: States)
    ensures LinkActions(name, [], cat, prev) == []
  {
  }

  lemma TargetIsFree(name: string, tg: Targets, cat: Catalogue)
    requires FreeTargets(tg, cat)
    ensures Classify(TargetOf(name, tg), cat) == Free
  {
    hide Classify;
  }

  lemma EntryMended(t: Task, tg: Targets, cat: Catalogue, prev: States)
    requires t.Task? && FreeTargets(tg, cat)
    ensures var id, id' := AuxModelId(t.entry), AuxModelId(RepairTask(t, tg, cat, prev).entry);
            && Mended(Listed(id'), Listed(id), cat, prev)
            && (!Repins(t, tg, cat, prev) <==> NoneDead(Listed(id), cat, prev))
            && (forall x | x in Listed(id') :: x in Listed(id) || x == TargetOf(t.name, tg))
  {
    hide AuxModelId, Classify, Dead, FreeTargets, TargetOf, KeepLinks;
    var id, target := AuxModelId(t.entry), TargetOf(t.name, tg);
    TargetIsFree(t.name, tg, cat);
    FreeIsAlive(target, cat, prev);
    Repinned(t.entry, target);
    OneMended(id, cat, prev);
  }

  lemma {:induction false} LinksAreOld(ls: seq<Link>, cat: Catalogue, prev: States)
    ensures forall id | id in ChainModels(KeepLinks(ls, cat, prev)) :: id in ChainModels(ls)
  {
    hide Dead, AuxModelId;
    if ls != [] {
      LinksAreOld(ls[1..], cat, prev);
      var rest := KeepLinks(ls[1..], cat, prev);
      assert ([ls[0]] + rest)[1..] == rest && [] + rest == rest;
    }
  }

  lemma {:induction false} AuxMended(ts: seq<Task>, tg: Targets, cat: Catalogue, prev: States)
    requires FreeTargets(tg, cat)
    ensures Mended(AuxModels(RepairAux(ts, tg, cat, prev)), AuxModels(ts), cat, prev)
    ensures AuxActions(ts, tg, cat, prev) == [] <==> NoneDead(AuxModels(ts), cat, prev)
    ensures AuxActions(ts, tg, cat, prev) == [] ==> RepairAux(ts, tg, cat, prev) == ts
    ensures forall id | id in AuxModels(RepairAux(ts, tg, cat, prev)) ::
              id in AuxModels(ts) || id == tg.text || tg.vision == Some(id)
  {
    hide Dead, Classify, TaskModels, TaskActions, RepairTask, FreeTargets;
    if ts != [] {
      TaskMended(ts[0], tg, cat, prev);
      AuxMended(ts[1..], tg, cat, prev);
      var rest := RepairAux(ts[1..], tg, cat, prev);
      assert ([RepairTask(ts[0], tg, cat, prev)] + rest)[1..] == rest;
      assert ts == [ts[0]] + ts[1..];
    }
  }

  // ---- nothing more is taken away than has to be ------------------------------------

  function Alive(ids: seq<string>, cat: Catalogue, prev: States): seq<string> {
    if ids == [] then []
    else (if Dead(ids[0], cat, prev) then [] else [ids[0]]) + Alive(ids[1..], cat, prev)
  }

  lemma {:induction false} AliveConcat(a: seq<string>, b: seq<string>, cat: Catalogue, prev: States)
    ensures Alive(a + b, cat, prev) == Alive(a, cat, prev) + Alive(b, cat, prev)
  {
    hide Dead;
    if a == [] {
      assert a + b == b;
    } else {
      assert (a + b)[1..] == a[1..] + b;
      AliveConcat(a[1..], b, cat, prev);
    }
  }

  lemma {:induction false} AliveStays(ids: seq<string>, cat: Catalogue, prev: States, id: string)
    requires id in ids && !Dead(id, cat, prev)
    ensures id in Alive(ids, cat, prev)
  {
    hide Dead;
    if id in ids[1..] { AliveStays(ids[1..], cat, prev, id); }
  }

  lemma OneAlive(id: Option<string>, cat: Catalogue, prev: States)
    ensures Alive(Listed(id), cat, prev) == if DeadId(id, cat, prev) then [] else Listed(id)
  {
    hide Dead;
    if id.Some? {
      assert Listed(id)[1..] == [] && Alive([], cat, prev) == [];
    }
  }

  /** The chain of a task keeps its living links, in order; links that bill
      nothing here are all kept. */
  lemma {:induction false} LinksLive(ls: seq<Link>, cat: Catalogue, prev: States)
    ensures ChainModels(KeepLinks(ls, cat, prev)) == Alive(ChainModels(ls), cat, prev)
    ensures forall l | l in ls && !DeadId(LinkId(l), cat, prev) :: l in KeepLinks(ls, cat, prev)
  {
    hide Dead, DeadId, LinkId, Listed;
    if ls == [] {
      assert Alive([], cat, prev) == [] by { OneAlive(None, cat, prev); NobodyListed(); }
    } else {
      LinksLive(ls[1..], cat, prev);
      OneAlive(LinkId(ls[0]), cat, prev);
      AliveConcat(Listed(LinkId(ls[0])), ChainModels(ls[1..]), cat, prev);
      var rest := KeepLinks(ls[1..], cat, prev);
      assert ([ls[0]] + rest)[1..] == rest && [] + rest == rest;
    }
  }

  /** So does the chain of fallbacks. */
  lemma {:induction false} FallbacksLive(fbs: seq<Fallback>, cat: Catalogue, prev: States)
    ensures FallbackModels(DropDead(fbs, cat, prev)) == Alive(FallbackModels(fbs), cat, prev)
    ensures forall fb | fb in fbs && !DeadFallback(fb, cat, prev) :: fb in DropDead(fbs, cat, prev)
  {
    hide Dead;
    if fbs != [] {
      var id := if fbs[0].Usable? then Some(fbs[0].entry.model) else None;
      FallbacksLive(fbs[1..], cat, prev);
      OneAlive(id, cat, prev);
      AliveConcat(Listed(id), FallbackModels(fbs[1..]), cat, prev);
      var rest := DropDead(fbs[1..], cat, prev);
      assert ([fbs[0]] + rest)[1..] == rest && [] + rest == rest;
    }
  }

  /** Two tasks that differ in nothing but what had to be replaced. */
  predicate SameButDead(t': Task, t: Task, cat: Catalogue, prev: States) {
    if t.NotTask? then t' == t
    else
      && t'.Task? && t'.name == t.name && (t'.chain.Some? <==> t.chain.Some?)
      && t'.entry == t.entry.(model := t'.entry.model)
      && (!DeadId(AuxModelId(t.entry), cat, prev) ==> t'.entry == t.entry)
      && (t.chain.Some? ==>
            && ChainModels(t'.chain.value) == Alive(ChainModels(t.chain.value), cat, prev)
            && forall l | l in t.chain.value && !DeadId(LinkId(l), cat, prev) :: l in t'.chain.value)
  }

  lemma {:induction false} AuxLives(ts: seq<Task>, tg: Targets, cat: Catalogue, prev: States)
    ensures var ts' := RepairAux(ts, tg, cat, prev);
            |ts'| == |ts| && forall i | 0 <= i < |ts| :: SameButDead(ts'[i], ts[i], cat, prev)
  {
    hide Dead, DeadId, LinkId, AuxModelId, Alive, KeepLinks, ChainModels, SameButDead, TargetOf;
    if ts != [] {
      AuxLives(ts[1..], tg, cat, prev);
      if ts[0].Task? && ts[0].chain.Some? { LinksLive(ts[0].chain.value, cat, prev); }
      assert SameButDead(RepairTask(ts[0], tg, cat, prev), ts[0], cat, prev) by { TaskLives(ts[0], tg, cat, prev); }
    }
  }

  lemma TaskLives(t: Task, tg: Targets, cat: Catalogue, prev: States)
    ensures SameButDead(RepairTask(t, tg, cat, prev), t, cat, prev)
  {
    hide Dead, DeadId, LinkId, AuxModelId, Alive, KeepLinks, ChainModels, TargetOf;
    if t.Task? && t.chain.Some? { LinksLive(t.chain.value, cat, prev); }
  }

  /** A repair takes only the dead away: the chain is what was left of the old
      one, in order, with curated models behind it; tasks differ only where a
      model was dead. */
  lemma RepairKeepsTheLiving(c: Config, cat: Catalogue, prev: States)
    ensures var w := Chosen(c, cat, prev);
            var p := Pricing(c, cat, prev);
            p.newConfig.Some? ==>
              var base, c' := Promoted(c, w), p.newConfig.value;
              && Alive(FallbackModels(base.fallbacks), cat, prev) <= FallbackModels(c'.fallbacks)
              && (forall fb | fb in base.fallbacks && !DeadFallback(fb, cat, prev) :: fb in c'.fallbacks)
              && |c'.aux| == |c.aux|
              && (forall i | 0 <= i < |c.aux| :: SameButDead(c'.aux[i], c.aux[i], cat, prev))
              && (forall id | id in FallbackModels(c.fallbacks) && !Dead(id, cat, prev) :: id in Priced(c'))
  {
    hide Classify, Dead, NewChain, TargetsFor, RepairAux, AuxActions, FallbackModels, AuxModels, Chosen, Promoted, SameButDead, Alive;
    var w := Chosen(c, cat, prev);
    var base := Promoted(c, w);
    var ch := NewChain(base, c.primary.model, w != NoWinner, cat, prev);
    if Pricing(c, cat, prev).newConfig.Some? {
      HasTargets(c, cat, prev);
      PromotedParts(c, cat, prev);
      var tg := TargetsFor(base.primary.model, ch.fallbacks, cat).value;
      AuxLives(c.aux, tg, cat, prev);
      ChainLives(base, c.primary.model, w != NoWinner, cat, prev);
      PromotionKeeps(c, w);
      forall id | id in FallbackModels(base.fallbacks) && !Dead(id, cat, prev) ensures id in FallbackModels(ch.fallbacks) {
        AliveStays(FallbackModels(base.fallbacks), cat, prev, id);
      }
    }
  }

  lemma ChainLives(base: Config, oldPrimary: string, promoted: bool, cat: Catalogue, prev: States)
    ensures var ch := NewChain(base, oldPrimary, promoted, cat, prev);
            && Alive(FallbackModels(base.fallbacks), cat, prev) <= FallbackModels(ch.fallbacks)
            && forall fb | fb in base.fallbacks && !DeadFallback(fb, cat, prev) :: fb in ch.fallbacks
  {
    hide Dead, DeadFallback, DropDead, Dropped, Additions, Alive;
    FallbacksLive(base.fallbacks, cat, prev);
    var kept := DropDead(base.fallbacks, cat, prev);
    var ch := NewChain(base, oldPrimary, promoted, cat, prev);
    assert kept <= ch.fallbacks;
    assert ch.fallbacks == kept + ch.fallbacks[|kept|..];
    ModelsConcat(kept, ch.fallbacks[|kept|..]);
  }

  /** A winner leaves the chain for the primary's place. */
  lemma PromotionKeeps(c: Config, w: Winner)
    requires w.FromChain? ==> w.index < |c.fallbacks| && c.fallbacks[w.index].Usable?
    ensures forall id | id in FallbackModels(c.fallbacks) ::
              id in FallbackModels(Promoted(c, w).fallbacks) || id == Promoted(c, w).primary.model
  {
    if w.FromChain? {
      var fbs := c.fallbacks;
      assert fbs == fbs[..w.index] + [fbs[w.index]] + fbs[w.index + 1..];
      ModelsConcat(fbs[..w.index] + [fbs[w.index]], fbs[w.index + 1..]);
      ModelsConcat(fbs[..w.index], [fbs[w.index]]);
      ModelsConcat(fbs[..w.index], fbs[w.index + 1..]);
      assert FallbackModels([fbs[w.index]]) == [fbs[w.index].entry.model];
    }
  }

  // ---- one run -----------------------------------------------------------------------

  /** Is there anything free to bill instead? */
  predicate Hope(c: Config, cat: Catalogue) {
    Classify(c.primary.model, cat) == Free || Successor(c, cat) != NoWinner
  }

  /** A new primary is free, and the chain left to it is part of the old. */
  lemma PromotedParts(c: Config, cat: Catalogue, prev: States)
    ensures var w := Chosen(c, cat, prev);
            var base := Promoted(c, w);
            && base.aux == c.aux
            && (w != NoWinner ==> Classify(base.primary.model, cat) == Free && Dead(c.primary.model, cat, prev))
            && (w == NoWinner ==> base == c && (Hope(c, cat) ==> !Dead(c.primary.model, cat, prev)))
            && (forall id | id in FallbackModels(base.fallbacks) :: id in FallbackModels(c.fallbacks))
            && (w != NoWinner ==> base.primary.model in FallbackModels(c.fallbacks) || base.primary.model in FALLBACK_CANDIDATES)
  {
    hide Classify, Successor, WasMissing;
    var w := Chosen(c, cat, prev);
    if w.FromChain? {
      var fbs := c.fallbacks;
      assert fbs == fbs[..w.index] + [fbs[w.index]] + fbs[w.index + 1..];
      ModelsConcat(fbs[..w.index] + [fbs[w.index]], fbs[w.index + 1..]);
      ModelsConcat(fbs[..w.index], [fbs[w.index]]);
      ModelsConcat(fbs[..w.index], fbs[w.index + 1..]);
      assert FallbackModels([fbs[w.index]]) == [fbs[w.index].entry.model];
    }
    assert Classify(c.primary.model, cat) == Free || FirstMiss(c.primary.model, cat, prev) || Dead(c.primary.model, cat, prev);
  }

  lemma {:induction false} FreeIsFound(fbs: seq<Fallback>, cat: Catalogue)
    ensures FirstFree(fbs, cat).Some? <==> exists id :: id in FallbackModels(fbs) && Classify(id, cat) == Free
  {
    hide Classify;
    if fbs != [] {
      FreeIsFound(fbs[1..], cat);
      if fbs[0].Usable? && Classify(fbs[0].entry.model, cat) == Free {
        assert fbs[0].entry.model in FallbackModels(fbs);
      }
    }
  }

  /** If anything is to be changed at all, side tasks have somewhere to go. */
  lemma HasTargets(c: Config, cat: Catalogue, prev: States)
    requires Hope(c, cat)
    ensures var w := Chosen(c, cat, prev);
            var base := Promoted(c, w);
            var ch := NewChain(base, c.primary.model, w != NoWinner, cat, prev);
            TargetsFor(base.primary.model, ch.fallbacks, cat).None? ==> Repaired(c, w, cat, prev).actions == [] && w == NoWinner
  {
    hide Classify, Dead, Additions, DropDead, Dropped, FirstFree, FallbackModels, FirstCandidate;
    var w := Chosen(c, cat, prev);
    var base := Promoted(c, w);
    var ch := NewChain(base, c.primary.model, w != NoWinner, cat, prev);
    PromotedParts(c, cat, prev);
    ChainMended(base, c.primary.model, w != NoWinner, cat, prev);
    TargetsAreFree(base.primary.model, ch.fallbacks, cat);
    if TargetsFor(base.primary.model, ch.fallbacks, cat).None? {
      FreeIsFound(c.fallbacks, cat);
      assert Successor(c, cat).Curated?;
      if Dropped(c.fallbacks, cat, prev) != [] { CutIsToppedUp(c, cat, prev, Successor(c, cat).id); }
    }
  }

  /** A cut chain gets a curated model when one is to be had. */
  lemma CutIsToppedUp(c: Config, cat: Catalogue, prev: States, id: string)
    requires Dropped(c.fallbacks, cat, prev) != []
    requires id in FALLBACK_CANDIDATES && Fit(id, cat, true, false) && id != c.primary.model
    ensures var ch := NewChain(c, c.primary.model, false, cat, prev);
            exists x :: x in FallbackModels(ch.fallbacks) && Classify(x, cat) == Free
  {
    hide Classify, Dead, DropDead, Dropped, FirstCandidate, Additions;
    var kept := DropDead(c.fallbacks, cat, prev);
    var inChain := IdSet(FallbackModels(kept));
    var frees := FreeOf(inChain, cat);
    var barred := {c.primary.model, c.primary.model};
    var added := Additions(inChain, |frees|, barred, cat);
    AdditionsFit(inChain, |frees|, barred, cat);
    ModelsConcat(kept, AsFallbacks(added));
    ModelsOfFresh(added);
    if frees == {} {
      assert id in inChain ==> id in frees;
      assert added != [];
      assert added[0] in added;
    } else {
      var x :| x in frees;
    }
  }

  /** Repairs are sound: whatever is written bills no dead model in any role.
      What it adds is free and comes from the curated lists, and an old primary
      that was replaced is in no role any more. */
  lemma RepairIsSound(c: Config, cat: Catalogue, prev: States)
    ensures var p := Pricing(c, cat, prev);
            p.newConfig.Some? ==>
              && NoneDead(Priced(p.newConfig.value), cat, prev)
              && Mended(Priced(p.newConfig.value), Priced(c), cat, prev)
              && (forall id | id in Priced(p.newConfig.value) ::
                    id in Priced(c) || id in FALLBACK_CANDIDATES || id in VISION_CANDIDATES)
              && (p.newConfig.value.primary.model != c.primary.model ==> c.primary.model !in Priced(p.newConfig.value))
              && (p.newConfig.value.primary == c.primary || Chosen(c, cat, prev) != NoWinner)
  {
    hide Classify, WasMissing, NewChain, TargetsFor, RepairAux, AuxActions, FallbackModels, AuxModels, Chosen, Promoted;
    var w := Chosen(c, cat, prev);
    var base := Promoted(c, w);
    var ch := NewChain(base, c.primary.model, w != NoWinner, cat, prev);
    var tg := TargetsFor(base.primary.model, ch.fallbacks, cat);
    if Pricing(c, cat, prev).newConfig.Some? {
      HasTargets(c, cat, prev);
      PromotedParts(c, cat, prev);
      ChainMended(base, c.primary.model, w != NoWinner, cat, prev);
      TargetsAreFree(base.primary.model, ch.fallbacks, cat);
      AuxMended(base.aux, tg.value, cat, prev);
      MendedMeans(c, base, ch, tg.value, cat, prev);
    }
  }

  lemma MendedMeans(c: Config, base: Config, ch: Chain, tg: Targets, cat: Catalogue, prev: States)
    requires base.aux == c.aux && Mended(FallbackModels(ch.fallbacks), FallbackModels(c.fallbacks), cat, prev)
    requires Mended(AuxModels(RepairAux(base.aux, tg, cat, prev)), AuxModels(c.aux), cat, prev)
    requires (base.primary.model == c.primary.model && !Dead(c.primary.model, cat, prev)) || Classify(base.primary.model, cat) == Free
    ensures var n := Config(base.primary, ch.fallbacks, RepairAux(base.aux, tg, cat, prev));
            Mended(Priced(n), Priced(c), cat, prev) && NoneDead(Priced(n), cat, prev)
  {
    hide WasMissing, Classify, RepairAux, FallbackModels, AuxModels;
  }

  /** Nothing dead, nothing done. */
  lemma NothingDeadNothingDone(c: Config, cat: Catalogue, prev: States)
    requires NoneDead(Priced(c), cat, prev)
    ensures Pricing(c, cat, prev).newConfig == None && Pricing(c, cat, prev).actions == []
  {
    hide Classify, Dead, NewChain, TargetsFor, RepairAux, AuxActions, FallbackModels, AuxModels, Promoted;
    assert c.primary.model in Priced(c);
    PromotedParts(c, cat, prev);
    var w := Chosen(c, cat, prev);
    assert w == NoWinner;
    ChainMended(c, c.primary.model, false, cat, prev);
    var ch := NewChain(c, c.primary.model, false, cat, prev);
    var tg := TargetsFor(c.primary.model, ch.fallbacks, cat);
    TargetsAreFree(c.primary.model, ch.fallbacks, cat);
    if tg.Some? { AuxMended(c.aux, tg.value, cat, prev); }
  }

  /** Stability: deciding again on what was written changes nothing. */
  lemma RepairIsStable(c: Config, cat: Catalogue, prev: States)
    ensures var p := Pricing(c, cat, prev);
            p.newConfig.Some? ==> Pricing(p.newConfig.value, cat, prev).newConfig == None
                                  && Pricing(p.newConfig.value, cat, prev).actions == []
  {
    hide Pricing, Priced;
    RepairIsSound(c, cat, prev);
    var p := Pricing(c, cat, prev);
    if p.newConfig.Some? { NothingDeadNothingDone(p.newConfig.value, cat, prev); }
  }

  /** And something dead is something done, once the primary's own delisting
      is not new. */
  lemma DeadIsActedOn(c: Config, cat: Catalogue, prev: States)
    requires Hope(c, cat) && !FirstMiss(c.primary.model, cat, prev)
    ensures Pricing(c, cat, prev).newConfig == None ==> NoneDead(Priced(c), cat, prev)
  {
    hide Classify, Dead, NewChain, TargetsFor, RepairAux, AuxActions, FallbackModels, AuxModels, Promoted, Successor;
    PromotedParts(c, cat, prev);
    if Pricing(c, cat, prev).newConfig == None {
      var w := Chosen(c, cat, prev);
      assert w == NoWinner;
      ChainMended(c, c.primary.model, false, cat, prev);
      var ch := NewChain(c, c.primary.model, false, cat, prev);
      TargetsAreFree(c.primary.model, ch.fallbacks, cat);
      var tg := TargetsFor(c.primary.model, ch.fallbacks, cat);
      AuxMended(c.aux, tg.value, cat, prev);
      FreeIsAlive(c.primary.model, cat, prev);
    }
  }

  /** A chain that was cut is full again, or every curated model that could be
      added is in it or is the old or the new primary. */
  lemma CutIsFilled(c: Config, cat: Catalogue, prev: States)
    requires Chosen(c, cat, prev) != NoWinner || Dropped(c.fallbacks, cat, prev) != []
    ensures var w := Chosen(c, cat, prev);
            var base := Promoted(c, w);
            var ids := FallbackModels(NewChain(base, c.primary.model, w != NoWinner, cat, prev).fallbacks);
            || |FreeOf(IdSet(ids), cat)| >= MIN_FREE_FALLBACKS
            || forall id | id in FALLBACK_CANDIDATES && Fit(id, cat, true, false) ::
                 id in ids || id == base.primary.model || id == c.primary.model
  {
    hide Chosen, Promoted, Classify, DropDead, Dropped, FallbackModels, AsFallbacks, Additions, FirstCandidate, Fit;
    PromotedParts(c, cat, prev);
    var w := Chosen(c, cat, prev);
    var base := Promoted(c, w);
    var kept := DropDead(base.fallbacks, cat, prev);
    var inChain := IdSet(FallbackModels(kept));
    var frees := FreeOf(inChain, cat);
    var barred := {base.primary.model, c.primary.model};
    var added := Additions(inChain, |frees|, barred, cat);
    AdditionsFit(inChain, |frees|, barred, cat);
    ModelsConcat(kept, AsFallbacks(added));
    ModelsOfFresh(added);
    var ids := FallbackModels(kept) + added;
    FitIsFree(cat);
    if |frees| + |added| >= MIN_FREE_FALLBACKS {
      DistinctCount(added);
      var all := FreeOf(IdSet(ids), cat);
      assert frees + IdSet(added) <= all;
      assert frees !! IdSet(added);
      assert |frees + IdSet(added)| == |frees| + |added|;
      SubsetCount(frees + IdSet(added), all);
    }
  }

  lemma FitIsFree(cat: Catalogue)
    ensures forall id | Fit(id, cat, true, false) :: Classify(id, cat) == Free
  {
    hide Classify;
  }

  lemma {:induction false} DistinctCount(xs: seq<string>)
    requires forall i, j | 0 <= i < j < |xs| :: xs[i] != xs[j]
    ensures |IdSet(xs)| == |xs|
  {
    if xs != [] {
      var n := |xs| - 1;
      DistinctCount(xs[..n]);
      assert IdSet(xs) == IdSet(xs[..n]) + {xs[n]};
      assert xs[n] !in xs[..n];
    }
  }

  lemma {:induction false} SubsetCount(a: set<string>, b: set<string>)
    requires a <= b
    ensures |a| <= |b|
  {
    assert b == a + (b - a);
  }

  // ---- what is critical ----------------------------------------------------------------

  lemma {:induction false} DroppedIff(fbs: seq<Fallback>, cat: Catalogue, prev: States, a: Action)
    ensures a in Dropped(fbs, cat, prev)
            <==> a.DropFallback? && a.id in FallbackModels(fbs) && Dead(a.id, cat, prev)
  {
    hide Dead;
    if fbs != [] { DroppedIff(fbs[1..], cat, prev, a); }
  }

  lemma {:induction false} LinkActionsIff(name: string, ls: seq<Link>, cat: Catalogue, prev: States, a: Action)
    ensures a in LinkActions(name, ls, cat, prev)
            <==> a.DropAuxFallback? && a.task == name && a.id in ChainModels(ls) && Dead(a.id, cat, prev)
  {
    hide Dead, LinkId;
    if ls != [] { LinkActionsIff(name, ls[1..], cat, prev, a); }
  }

  /** Do the actions remove this model from a side task? */
  predicate Removes(a: Action, id: string) {
    (a.Repin? || a.DropAuxFallback?) && a.id == id
  }

  lemma TaskActionsIff(t: Task, tg: Targets, cat: Catalogue, prev: States, id: string)
    requires FreeTargets(tg, cat)
    ensures (exists a | a in TaskActions(t, tg, cat, prev) :: Removes(a, id)) <==> id in TaskModels(t) && Dead(id, cat, prev)
    ensures forall a | a in TaskActions(t, tg, cat, prev) :: a.Repin? || a.DropAuxFallback?
  {
    hide Dead, AuxModelId, LinkActions, FreeTargets, TargetOf, ChainModels;
    if t.Task? {
      var main := AuxModelId(t.entry);
      Repinned(t.entry, "");
      TargetIsFree(t.name, tg, cat);
      FreeIsAlive(TargetOf(t.name, tg), cat, prev);
      var ls := if t.chain.Some? then t.chain.value else [];
      NoModels();
      NoLinkActions(t.name, cat, prev);
      var acts := TaskActions(t, tg, cat, prev);
      forall a | a in LinkActions(t.name, ls, cat, prev) ensures a.DropAuxFallback? && a.id in ChainModels(ls) && Dead(a.id, cat, prev) {
        LinkActionsIff(t.name, ls, cat, prev, a);
      }
      if id in TaskModels(t) && Dead(id, cat, prev) {
        LinkActionsIff(t.name, ls, cat, prev, DropAuxFallback(t.name, id));
        if main == Some(id) {
          assert Repin(t.name, id, TargetOf(t.name, tg)) in acts && Removes(Repin(t.name, id, TargetOf(t.name, tg)), id);
        } else {
          assert DropAuxFallback(t.name, id) in acts && Removes(DropAuxFallback(t.name, id), id);
        }
      }
    }
  }

  lemma {:induction false} AuxActionsIff(ts: seq<Task>, tg: Targets, cat: Catalogue, prev: States, id: string)
    requires FreeTargets(tg, cat)
    ensures (exists a | a in AuxActions(ts, tg, cat, prev) :: Removes(a, id)) <==> id in AuxModels(ts) && Dead(id, cat, prev)
    ensures forall a | a in AuxActions(ts, tg, cat, prev) :: a.Repin? || a.DropAuxFallback?
  {
    hide Dead, TaskModels, TaskActions, FreeTargets, Removes;
    if ts != [] {
      TaskActionsIff(ts[0], tg, cat, prev, id);
      AuxActionsIff(ts[1..], tg, cat, prev, id);
      var here, rest := TaskActions(ts[0], tg, cat, prev), AuxActions(ts[1..], tg, cat, prev);
      assert forall a :: a in here + rest <==> a in here || a in rest;
    }
  }

  predicate BillsPaid(c: Config, cat: Catalogue) {
    exists id | id in Priced(c) :: Classify(id, cat) == Paid
  }

  /** A rewrite is reported as critical exactly when some role billed a model
      that costs money. */
  lemma CriticalIffPaid(c: Config, cat: Catalogue, prev: States)
    ensures Pricing(c, cat, prev).newConfig.Some? ==>
              var notes := Pricing(c, cat, prev).notes;
              notes != [] && (notes[|notes| - 1].critical <==> BillsPaid(c, cat))
  {
    hide Classify, Dead, NewChain, TargetsFor, RepairAux, AuxActions, FallbackModels, AuxModels, Chosen, Promoted, Warnings, TouchesPaid, BillsPaid;
    var w := Chosen(c, cat, prev);
    var base := Promoted(c, w);
    var ch := NewChain(base, c.primary.model, w != NoWinner, cat, prev);
    if Pricing(c, cat, prev).newConfig.Some? {
      HasTargets(c, cat, prev);
      PromotedParts(c, cat, prev);
      TargetsAreFree(base.primary.model, ch.fallbacks, cat);
      var tg := TargetsFor(base.primary.model, ch.fallbacks, cat).value;
      var head := if w != NoWinner then [Promote(base.primary.model)] else [];
      PaidMeansRemoved(c, base, w, ch, tg, cat, prev);
    }
  }

  /** What the pieces of a rewrite list, in terms of the configuration found. */
  lemma RemovedNames(c: Config, base: Config, w: Winner, ch: Chain, tg: Targets, cat: Catalogue, prev: States)
    requires Hope(c, cat) && w == Chosen(c, cat, prev) && base == Promoted(c, w)
    requires ch == NewChain(base, c.primary.model, w != NoWinner, cat, prev) && FreeTargets(tg, cat)
    ensures forall a | a in AuxActions(base.aux, tg, cat, prev) :: (a.Repin? || a.DropAuxFallback?) && a.id in AuxModels(c.aux)
    ensures forall a | a in ch.actions :: a.AddFallback? || (a.DropFallback? && a.id in FallbackModels(c.fallbacks))
  {
    hide Hope, NewChain, AuxActions, FallbackModels, AuxModels, Chosen, Promoted, FreeTargets;
    PromotedParts(c, cat, prev);
    forall a | a in AuxActions(base.aux, tg, cat, prev) ensures (a.Repin? || a.DropAuxFallback?) && a.id in AuxModels(c.aux) {
      AuxActionNamed(c.aux, tg, cat, prev, a);
    }
    forall a | a in ch.actions ensures a.AddFallback? || (a.DropFallback? && a.id in FallbackModels(c.fallbacks)) {
      ChainActionsIff(base, c.primary.model, w != NoWinner, cat, prev, a);
    }
  }

  lemma RemovedWasPaid(c: Config, base: Config, w: Winner, ch: Chain, tg: Targets, cat: Catalogue, prev: States)
    requires Hope(c, cat) && w == Chosen(c, cat, prev) && base == Promoted(c, w)
    requires ch == NewChain(base, c.primary.model, w != NoWinner, cat, prev) && FreeTargets(tg, cat)
    ensures var head := if w != NoWinner then [Promote(base.primary.model)] else [];
            TouchesPaid(head + ch.actions + AuxActions(base.aux, tg, cat, prev), c.primary.model, cat) ==> BillsPaid(c, cat)
  {
    hide Hope, Classify, NewChain, AuxActions, FallbackModels, AuxModels, Chosen, Promoted, FreeTargets;
    RemovedNames(c, base, w, ch, tg, cat, prev);
    var head := if w != NoWinner then [Promote(base.primary.model)] else [];
    var all := head + ch.actions + AuxActions(base.aux, tg, cat, prev);
    if TouchesPaid(all, c.primary.model, cat) {
      var a :| a in all && RemovesPaid(a, c.primary.model, cat);
      var id := if a.Promote? then c.primary.model else a.id;
      assert id in Priced(c) && Classify(id, cat) == Paid;
    }
  }

  lemma PaidIsRemoved(c: Config, base: Config, w: Winner, ch: Chain, tg: Targets, cat: Catalogue, prev: States, id: string)
    requires Hope(c, cat) && w == Chosen(c, cat, prev) && base == Promoted(c, w)
    requires ch == NewChain(base, c.primary.model, w != NoWinner, cat, prev) && FreeTargets(tg, cat)
    requires id in Priced(c) && Classify(id, cat) == Paid
    ensures var head := if w != NoWinner then [Promote(base.primary.model)] else [];
            TouchesPaid(head + ch.actions + AuxActions(base.aux, tg, cat, prev), c.primary.model, cat)
  {
    hide Hope, Classify, NewChain, AuxActions, FallbackModels, AuxModels, Chosen, Promoted, WasMissing, FreeTargets;
    PromotedParts(c, cat, prev);
    var head := if w != NoWinner then [Promote(base.primary.model)] else [];
    var tail := AuxActions(base.aux, tg, cat, prev);
    var all := head + ch.actions + tail;
    if id in AuxModels(c.aux) {
      AuxActionsIff(c.aux, tg, cat, prev, id);
      var a :| a in tail && Removes(a, id);
      assert a in all && RemovesPaid(a, c.primary.model, cat);
    } else if id in FallbackModels(c.fallbacks) {
      PromotionKeeps(c, w);
      ChainActionsIff(base, c.primary.model, w != NoWinner, cat, prev, DropFallback(id));
      assert DropFallback(id) in all && RemovesPaid(DropFallback(id), c.primary.model, cat);
    } else {
      assert w != NoWinner;
      assert all[0] == Promote(base.primary.model) && all[0] in all;
      assert RemovesPaid(Promote(base.primary.model), c.primary.model, cat);
    }
  }

  lemma PaidMeansRemoved(c: Config, base: Config, w: Winner, ch: Chain, tg: Targets, cat: Catalogue, prev: States)
    requires Hope(c, cat) && w == Chosen(c, cat, prev) && base == Promoted(c, w)
    requires ch == NewChain(base, c.primary.model, w != NoWinner, cat, prev) && FreeTargets(tg, cat)
    ensures var head := if w != NoWinner then [Promote(base.primary.model)] else [];
            TouchesPaid(head + ch.actions + AuxActions(base.aux, tg, cat, prev), c.primary.model, cat) <==> BillsPaid(c, cat)
  {
    hide Hope, Classify, NewChain, AuxActions, Priced, Chosen, Promoted, FreeTargets, TouchesPaid;
    RemovedWasPaid(c, base, w, ch, tg, cat, prev);
    if BillsPaid(c, cat) {
      var id :| id in Priced(c) && Classify(id, cat) == Paid;
      PaidIsRemoved(c, base, w, ch, tg, cat, prev, id);
    }
  }

  function NameOf(a: Action): string {
    match a
    case Repin(_, id, _) => id
    case DropAuxFallback(_, id) => id
    case _ => ""
  }

  lemma AuxActionNamed(ts: seq<Task>, tg: Targets, cat: Catalogue, prev: States, a: Action)
    requires FreeTargets(tg, cat) && a in AuxActions(ts, tg, cat, prev)
    ensures (a.Repin? || a.DropAuxFallback?) && a.id in AuxModels(ts)
  {
    hide AuxActions, AuxModels, FreeTargets, Dead;
    AuxActionsIff(ts, tg, cat, prev, NameOf(a));
    assert Removes(a, NameOf(a));
  }

  lemma ChainActionsIff(base: Config, oldPrimary: string, promoted: bool, cat: Catalogue, prev: States, a: Action)
    ensures var ch := NewChain(base, oldPrimary, promoted, cat, prev);
            a in ch.actions ==> a.AddFallback? || (a.DropFallback? && a.id in FallbackModels(base.fallbacks))
    ensures a.DropFallback? && a.id in FallbackModels(base.fallbacks) && Dead(a.id, cat, prev)
            ==> a in NewChain(base, oldPrimary, promoted, cat, prev).actions
  {
    hide Dead, DropDead, Dropped, Additions, FallbackModels, AddActions;
    DroppedIff(base.fallbacks, cat, prev, a);
    var inChain := IdSet(FallbackModels(DropDead(base.fallbacks, cat, prev)));
    AllAdds(Additions(inChain, |FreeOf(inChain, cat)|, {base.primary.model, oldPrimary}, cat), a);
  }

  lemma {:induction false} AllAdds(ids: seq<string>, a: Action)
    ensures a in AddActions(ids) ==> a.AddFallback?
  {
    if ids != [] { AllAdds(ids[1..], a); }
  }

  // ---- what is announced ------------------------------------------------------------------

  lemma {:induction false} DegradedIff(ids: seq<string>, cat: Catalogue, prev: States, n: Note)
    ensures n in Degraded(ids, cat, prev)
            <==> n.key.FallbackDegraded? && !n.critical && n.key.id in ids && FirstMiss(n.key.id, cat, prev)
  {
    hide FirstMiss;
    if ids != [] { DegradedIff(ids[1..], cat, prev, n); }
  }

  lemma {:induction false} AuxNotesIff(ids: seq<string>, cat: Catalogue, prev: States, n: Note)
    ensures n in AuxNotes(ids, cat, prev)
            <==> n.key.AuxMissing? && !n.critical && n.key.id in ids && FirstMiss(n.key.id, cat, prev)
  {
    hide FirstMiss;
    if ids != [] { AuxNotesIff(ids[1..], cat, prev, n); }
  }

  /** What a plan for the roles announces is never the spending alarm. */
  lemma PricingTellsOfModels(c: Config, cat: Catalogue, prev: States)
    ensures forall n | n in Pricing(c, cat, prev).notes :: n.key != UsageGrew
  {
    hide Classify, WasMissing, Repaired, Successor, Chosen, FallbackModels, AuxModels, Degraded, AuxNotes, TouchesPaid, Distinct;
    forall n | n in Warnings(c, cat, prev) ensures n.key != UsageGrew {
      DegradedIff(FallbackModels(c.fallbacks), cat, prev, n);
      AuxNotesIff(Distinct(AuxModels(c.aux)), cat, prev, n);
    }
    hide Warnings;
  }

  lemma {:induction false} DistinctSame(ids: seq<string>, id: string)
    ensures id in Distinct(ids) <==> id in ids
  {
    if ids != [] {
      DistinctSame(ids[..|ids| - 1], id);
      assert ids == ids[..|ids| - 1] + [ids[|ids| - 1]];
    }
  }

  /** A model missing for the first time is announced in whatever role it has,
      nothing else is, and a primary that cannot be replaced is critical. */
  lemma MissesAreAnnounced(c: Config, cat: Catalogue, prev: States, id: string)
    ensures var notes := Pricing(c, cat, prev).notes;
            && (Note(FallbackDegraded(id), false) in notes <==> id in FallbackModels(c.fallbacks) && FirstMiss(id, cat, prev))
            && (Note(AuxMissing(id), false) in notes <==> id in AuxModels(c.aux) && FirstMiss(id, cat, prev))
            && (Note(PrimaryMissing(id), false) in notes <==> id == c.primary.model && FirstMiss(id, cat, prev) && Hope(c, cat))
            && (Note(NoFreeModel, true) in notes <==> !Hope(c, cat))
  {
    hide Classify, WasMissing, Repaired, Successor, Chosen, FallbackModels, AuxModels, Degraded, AuxNotes, TouchesPaid, Distinct;
    forall n: Note
      ensures n in Warnings(c, cat, prev) <==>
                !n.critical && ((n.key.FallbackDegraded? && n.key.id in FallbackModels(c.fallbacks) && FirstMiss(n.key.id, cat, prev))
                                || (n.key.AuxMissing? && n.key.id in AuxModels(c.aux) && FirstMiss(n.key.id, cat, prev)))
    {
      DegradedIff(FallbackModels(c.fallbacks), cat, prev, n);
      AuxNotesIff(Distinct(AuxModels(c.aux)), cat, prev, n);
      if n.key.AuxMissing? { DistinctSame(AuxModels(c.aux), n.key.id); }
    }
  }

  // ---- endpoints and keys ----------------------------------------------------------------

  /** The same model, reached through the same endpoint with the same key. */
  predicate SameDoor(a: Entry, b: Entry) {
    a.model == b.model && a.baseUrl == b.baseUrl && a.apiKey == b.apiKey
  }

  /** An entry of the configuration the operator wrote, or a curated model on
      OpenRouter without a key of its own. */
  predicate Genuine(c0: Config, e: Entry) {
    || SameDoor(e, c0.primary)
    || (exists fb | fb in c0.fallbacks :: fb.Usable? && SameDoor(e, fb.entry))
    || (e.model in FALLBACK_CANDIDATES && Fresh(e.model) == Usable(e))
  }

  predicate AllGenuine(c0: Config, c: Config) {
    Genuine(c0, c.primary) && forall fb | fb in c.fallbacks :: fb.Usable? ==> Genuine(c0, fb.entry)
  }

  lemma {:induction false} DropsOnly(fbs: seq<Fallback>, cat: Catalogue, prev: States)
    ensures forall fb | fb in DropDead(fbs, cat, prev) :: fb in fbs
  {
    hide DeadFallback;
    if fbs != [] { DropsOnly(fbs[1..], cat, prev); }
  }

  lemma {:induction false} FreshOnly(ids: seq<string>)
    ensures forall fb | fb in AsFallbacks(ids) :: fb.Usable? && fb.entry.model in ids && fb == Fresh(fb.entry.model)
  {
    if ids != [] { FreshOnly(ids[1..]); }
  }

  lemma ChainGenuine(c0: Config, base: Config, oldPrimary: string, promoted: bool, cat: Catalogue, prev: States)
    requires AllGenuine(c0, base)
    ensures forall fb | fb in NewChain(base, oldPrimary, promoted, cat, prev).fallbacks :: fb.Usable? ==> Genuine(c0, fb.entry)
  {
    hide Genuine, DropDead, Dropped, Additions, AsFallbacks, AddActions, FreeOf, IdSet, FallbackModels;
    DropsOnly(base.fallbacks, cat, prev);
    var inChain := IdSet(FallbackModels(DropDead(base.fallbacks, cat, prev)));
    var left, barred := |FreeOf(inChain, cat)|, {base.primary.model, oldPrimary};
    AdditionsFit(inChain, left, barred, cat);
    var added := Additions(inChain, left, barred, cat);
    FreshOnly(added);
    forall fb | fb in AsFallbacks(added) ensures fb.Usable? && Genuine(c0, fb.entry) {
      CuratedGenuine(c0, fb.entry);
    }
  }

  lemma CuratedGenuine(c0: Config, e: Entry)
    requires e.model in FALLBACK_CANDIDATES && Fresh(e.model) == Usable(e)
    ensures Genuine(c0, e)
  {
  }

  lemma PromotedGenuine(c0: Config, c: Config, cat: Catalogue, prev: States)
    requires AllGenuine(c0, c)
    ensures AllGenuine(c0, Promoted(c, Chosen(c, cat, prev)))
  {
    hide Classify, Successor, FirstMiss;
    var w := Chosen(c, cat, prev);
    if w.Curated? { CuratedGenuine(c0, Promoted(c, w).primary); }
    if w.FromChain? { assert c.fallbacks[w.index] in c.fallbacks; }
  }

  /** A repair mixes no model with another one's endpoint or key. */
  lemma PricingGenuine(c0: Config, c: Config, cat: Catalogue, prev: States)
    requires AllGenuine(c0, c)
    ensures var n := Pricing(c, cat, prev).newConfig; n.Some? ==> AllGenuine(c0, n.value)
  {
    hide Classify, Genuine, Promoted, Chosen, NewChain, TargetsFor, RepairAux, AuxActions, Warnings, Successor, FirstMiss,
         TouchesPaid, Announced;
    PromotedGenuine(c0, c, cat, prev);
    var w := Chosen(c, cat, prev);
    ChainGenuine(c0, Promoted(c, w), c.primary.model, w != NoWinner, cat, prev);
  }

  // ---- many runs ---------------------------------------------------------------------------

  /** What a run of the guard meets: nothing it could check, or the catalogue,
      and whether a rewritten configuration reached the disk. */
  datatype Sight = Blind | Sees(written: bool)

  datatype Guarded = Guarded(config: Config, states: States)

  function Step(g: Guarded, cat: Catalogue, s: Sight): Guarded {
    if s == Blind then g
    else
      var p := Pricing(g.config, cat, g.states);
      Guarded(if s.written && p.newConfig.Some? then p.newConfig.value else g.config, ModelStates(g.config, cat))
  }

  function Steps(g: Guarded, cat: Catalogue, ss: seq<Sight>): Guarded
    decreases |ss|
  {
    if ss == [] then g else Steps(Step(g, cat, ss[0]), cat, ss[1..])
  }

  predicate AllFree(c: Config, cat: Catalogue) {
    forall id | id in Priced(c) :: Classify(id, cat) == Free
  }

  /** Every delisted model in use has been seen missing before. */
  predicate Known(g: Guarded, cat: Catalogue) {
    forall id | id in Priced(g.config) :: Classify(id, cat) == Missing ==> WasMissing(id, g.states)
  }

  lemma StatesRemember(c: Config, cat: Catalogue, id: string)
    requires id in Priced(c) && Classify(id, cat) == Missing
    ensures WasMissing(id, ModelStates(c, cat))
  {
    hide Classify, Priced;
  }

  /** After one run that saw the catalogue no delisting is news. */
  lemma KnownAfterOne(g: Guarded, cat: Catalogue, s: Sight)
    requires s.Sees?
    ensures Known(Step(g, cat, s), cat)
  {
    hide Classify, Priced, Pricing, WasMissing, ModelStates;
    var c := Step(g, cat, s).config;
    RepairIsSound(g.config, cat, g.states);
    forall id | id in Priced(c) && Classify(id, cat) == Missing ensures WasMissing(id, ModelStates(g.config, cat)) {
      assert id in Priced(g.config);
      StatesRemember(g.config, cat, id);
    }
  }

  /** Hope is not lost by a repair, nor gained by a run. */
  lemma HopeStays(g: Guarded, cat: Catalogue, s: Sight)
    ensures Hope(Step(g, cat, s).config, cat) <==> Hope(g.config, cat)
  {
    hide Classify, Priced, WasMissing, NewChain, TargetsFor, RepairAux, AuxActions, FallbackModels, FirstFree, FirstCandidate, Chosen, Promoted;
    var c := g.config;
    var p := Pricing(c, cat, g.states);
    if s.Sees? && s.written && p.newConfig.Some? {
      var w := Chosen(c, cat, g.states);
      var base := Promoted(c, w);
      PromotedParts(c, cat, g.states);
      if w == NoWinner {
        ChainMended(c, c.primary.model, false, cat, g.states);
        FreeIsFound(c.fallbacks, cat);
        FreeIsFound(p.newConfig.value.fallbacks, cat);
      }
    }
  }

  /** Without hope nothing is ever rewritten. */
  lemma HopelessStays(g: Guarded, cat: Catalogue, s: Sight)
    requires !Hope(g.config, cat)
    ensures Step(g, cat, s).config == g.config
  {
    hide Classify, Repaired, Warnings;
  }

  /** The run that knows every delisting and can write leaves only free
      models. */
  lemma SecondRunFrees(g: Guarded, cat: Catalogue)
    requires Known(g, cat) && Hope(g.config, cat)
    ensures AllFree(Step(g, cat, Sees(true)).config, cat)
  {
    hide Classify, Priced, Pricing, ModelStates, Hope;
    var c, p := g.config, Pricing(g.config, cat, g.states);
    RepairIsSound(c, cat, g.states);
    PrimaryIsPriced(c);
    DeadIsActedOn(c, cat, g.states);
    forall id | id in Priced(c) ensures Classify(id, cat) == Free || Dead(id, cat, g.states) { }
  }

  lemma PrimaryIsPriced(c: Config)
    ensures c.primary.model in Priced(c)
  {
  }

  lemma AllFreeStays(g: Guarded, cat: Catalogue, s: Sight)
    requires AllFree(g.config, cat)
    ensures Step(g, cat, s).config == g.config
    ensures Pricing(g.config, cat, g.states).actions == []
  {
    hide Classify, Priced, Pricing, ModelStates;
    forall id | id in Priced(g.config) ensures !Dead(id, cat, g.states) { FreeIsAlive(id, cat, g.states); }
    NothingDeadNothingDone(g.config, cat, g.states);
  }

  lemma KnownStays(g: Guarded, cat: Catalogue, s: Sight)
    requires Known(g, cat)
    ensures Known(Step(g, cat, s), cat)
  {
    hide Classify, Priced, Pricing, ModelStates, WasMissing;
    if s.Sees? { KnownAfterOne(g, cat, s); }
  }

  lemma {:induction false} FreeForEver(g: Guarded, cat: Catalogue, ss: seq<Sight>)
    requires AllFree(g.config, cat)
    ensures Steps(g, cat, ss).config == g.config
    decreases |ss|
  {
    hide AllFree, Step;
    if ss != [] {
      AllFreeStays(g, cat, ss[0]);
      FreeForEver(Step(g, cat, ss[0]), cat, ss[1..]);
    }
  }

  lemma {:induction false} KnownThenFree(g: Guarded, cat: Catalogue, ss: seq<Sight>, j: nat)
    requires Known(g, cat) && Hope(g.config, cat)
    requires j < |ss| && ss[j] == Sees(true)
    ensures AllFree(Steps(g, cat, ss).config, cat)
    decreases |ss|
  {
    hide AllFree, Step, Known, Hope;
    var next := Step(g, cat, ss[0]);
    if j == 0 {
      SecondRunFrees(g, cat);
      FreeForEver(next, cat, ss[1..]);
    } else {
      KnownStays(g, cat, ss[0]);
      HopeStays(g, cat, ss[0]);
      KnownThenFree(next, cat, ss[1..], j - 1);
    }
  }

  /** Two runs are enough: on an unchanging catalogue, whatever blind runs and
      failed writes lie between, once one run has seen the catalogue and a later
      one has written, every priced role is free; and nothing is done after
      that. */
  lemma {:induction false} Converges(g: Guarded, cat: Catalogue, ss: seq<Sight>, i: nat, j: nat)
    requires Hope(g.config, cat)
    requires i < j < |ss| && ss[i].Sees? && ss[j] == Sees(true)
    ensures var g' := Steps(g, cat, ss);
            AllFree(g'.config, cat) && Pricing(g'.config, cat, g'.states).actions == []
    decreases |ss|
  {
    hide AllFree, Step, Known, Hope, Pricing;
    var next := Step(g, cat, ss[0]);
    HopeStays(g, cat, ss[0]);
    if i == 0 {
      KnownAfterOne(g, cat, ss[0]);
      KnownThenFree(next, cat, ss[1..], j - 1);
    } else {
      Converges(next, cat, ss[1..], i - 1, j - 1);
    }
    AllFreeStays(Steps(g, cat, ss), cat, Blind);
  }

  /** Without a free primary, a free fallback or a live candidate the guard
      leaves the configuration alone for ever: hope is also necessary. */
  lemma {:induction false} HopelessForEver(g: Guarded, cat: Catalogue, ss: seq<Sight>)
    requires !Hope(g.config, cat)
    ensures Steps(g, cat, ss).config == g.config && !AllFree(g.config, cat)
    decreases |ss|
  {
    hide Step, Hope, Successor, Classify;
    PrimaryIsPriced(g.config);
    HopelessPrimary(g.config, cat);
    if ss != [] {
      HopelessStays(g, cat, ss[0]);
      HopelessForEver(Step(g, cat, ss[0]), cat, ss[1..]);
    }
  }

  lemma HopelessPrimary(c: Config, cat: Catalogue)
    requires !Hope(c, cat)
    ensures Classify(c.primary.model, cat) != Free
  {
    hide Classify;
  }
}
