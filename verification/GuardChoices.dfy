/** Which free model goes where: what a rewritten configuration holds, said of
    the configuration alone. */
module GuardChoices {
  import opened Wrappers
  import opened Guard
  import opened GuardLaws

  // ---- what is free, and what is billed ------------------------------------------------

  /** What so many prompt tokens, completion tokens and requests cost; nobody
      knows while a price is not a number. */
  function Bill(l: Listing, prompt: nat, completion: nat, requests: nat): Option<real> {
    if l.prompt.NoPrice? || l.completion.NoPrice? || l.request == Some(NoPrice) then None
    else
      Some(prompt as real * l.prompt.value + completion as real * l.completion.value
           + requests as real * if l.request.Some? then l.request.value.value else 0.0)
  }

  /** Free is what is listed and costs nothing however much it is used; missing
      is what is not listed. Replaced is what is listed and not free, and what
      is missing for the second time. */
  lemma FreeCostsNothing(id: string, cat: Catalogue, prev: States)
    ensures Classify(id, cat) == Free <==> id in cat && forall p: nat, c: nat, n: nat :: Bill(cat[id], p, c, n) == Some(0.0)
    ensures Classify(id, cat) == Missing <==> id !in cat
    ensures Dead(id, cat, prev) <==> if id in cat then Classify(id, cat) != Free else id in prev && prev[id] == Missing
  {
    if id in cat {
      var l := cat[id];
      if forall p: nat, c: nat, n: nat :: Bill(l, p, c, n) == Some(0.0) {
        assert Bill(l, 1, 0, 0) == Some(0.0) && Bill(l, 0, 1, 0) == Some(0.0) && Bill(l, 0, 0, 1) == Some(0.0);
      }
    }
  }

  predicate OccursAt(w: string, s: string, k: nat) { k + |w| <= |s| && s[k..k + |w|] == w }

  /** Does this entry bill a model through OpenRouter? */
  predicate Bills(e: AuxEntry, id: string) {
    && id != "" && e.model == id && (e.provider == "openrouter" || e.provider == "auto" || e.provider == "")
    && (e.baseUrl == "" || exists k | 0 <= k <= |e.baseUrl| :: OccursAt("openrouter.ai", e.baseUrl, k))
  }

  lemma {:induction false} ContainsIff(s: string, w: string)
    ensures Contains(s, w) <==> exists k | 0 <= k <= |s| :: OccursAt(w, s, k)
  {
    if |w| <= |s| {
      assert s[0..|w|] == s[..|w|];
      assert OccursAt(w, s, 0) <==> s[..|w|] == w;
      if s != [] {
        ContainsIff(s[1..], w);
        forall k: nat | k < |s| ensures OccursAt(w, s, k + 1) <==> OccursAt(w, s[1..], k) {
          if k + 1 + |w| <= |s| { assert s[1..][k..k + |w|] == s[k + 1..k + 1 + |w|]; }
        }
        if exists k | 0 <= k <= |s| :: OccursAt(w, s, k) {
          var k: nat :| k <= |s| && OccursAt(w, s, k);
          if k > 0 { assert OccursAt(w, s[1..], k - 1); }
        }
      }
    }
  }

  lemma BillsIff(e: AuxEntry, id: string)
    ensures AuxModelId(e) == Some(id) <==> Bills(e, id)
  {
    ContainsIff(e.baseUrl, "openrouter.ai");
    hide Contains;
  }

  predicate TaskBills(t: Task, id: string) {
    t.Task? && (Bills(t.entry, id) || (t.chain.Some? && exists l | l in t.chain.value :: l.Link? && Bills(l.entry, id)))
  }

  lemma {:induction false} ChainBillsIff(ls: seq<Link>, id: string)
    ensures id in ChainModels(ls) <==> exists l | l in ls :: l.Link? && Bills(l.entry, id)
  {
    hide AuxModelId, Bills;
    if ls != [] {
      ChainBillsIff(ls[1..], id);
      if ls[0].Link? { BillsIff(ls[0].entry, id); }
      assert forall l :: l in ls <==> l == ls[0] || l in ls[1..];
    }
  }

  lemma {:induction false} AuxBillsIff(ts: seq<Task>, id: string)
    ensures id in AuxModels(ts) <==> exists t | t in ts :: TaskBills(t, id)
  {
    hide AuxModelId, Bills, ChainModels, TaskBills;
    if ts != [] {
      AuxBillsIff(ts[1..], id);
      TaskBillsIff(ts[0], id);
      assert forall t :: t in ts <==> t == ts[0] || t in ts[1..];
    }
  }

  lemma TaskBillsIff(t: Task, id: string)
    ensures id in TaskModels(t) <==> TaskBills(t, id)
  {
    hide AuxModelId, Bills, ChainModels;
    if t.Task? {
      BillsIff(t.entry, id);
      if t.chain.Some? { ChainBillsIff(t.chain.value, id); }
    }
  }

  lemma {:induction false} FallbackBillsIff(fbs: seq<Fallback>, id: string)
    ensures id in FallbackModels(fbs) <==> exists fb | fb in fbs :: fb.Usable? && fb.entry.model == id
  {
    if fbs != [] {
      FallbackBillsIff(fbs[1..], id);
      assert forall fb :: fb in fbs <==> fb == fbs[0] || fb in fbs[1..];
    }
  }

  /** The models the guard watches are those that some role can bill. */
  lemma WatchedIff(c: Config, id: string)
    ensures id in Priced(c) <==>
              || id == c.primary.model
              || (exists fb | fb in c.fallbacks :: fb.Usable? && fb.entry.model == id)
              || (exists t | t in c.aux :: TaskBills(t, id))
  {
    hide FallbackModels, AuxModels, TaskBills;
    FallbackBillsIff(c.fallbacks, id);
    AuxBillsIff(c.aux, id);
  }

  // ---- the first that will do ----------------------------------------------------------------

  predicate IsFirst(id: string, ids: seq<string>, ok: string -> bool) {
    exists k | 0 <= k < |ids| :: ids[k] == id && ok(id) && forall j | 0 <= j < k :: !ok(ids[j])
  }

  predicate AnyOf(ids: seq<string>, ok: string -> bool) { exists k | 0 <= k < |ids| :: ok(ids[k]) }

  lemma FirstHere(ids: seq<string>, ok: string -> bool)
    requires ids != [] && ok(ids[0])
    ensures IsFirst(ids[0], ids, ok)
  {
  }

  lemma FirstBehind(id: string, ids: seq<string>, ok: string -> bool)
    requires ids != [] && !ok(ids[0]) && IsFirst(id, ids[1..], ok)
    ensures IsFirst(id, ids, ok)
  {
    var k :| 0 <= k < |ids[1..]| && ids[1..][k] == id && ok(id) && forall j | 0 <= j < k :: !ok(ids[1..][j]);
    forall j | 0 <= j < k + 1 ensures !ok(ids[j]) {
      if j > 0 { assert ids[j] == ids[1..][j - 1]; }
    }
    assert ids[k + 1] == id;
  }

  function IsFree(cat: Catalogue): string -> bool { (id: string) => Classify(id, cat) == Free }

  /** Free, and takes images. */
  function FreeWithImages(cat: Catalogue): string -> bool { (id: string) => Classify(id, cat) == Free && cat[id].images }

  lemma {:induction false} FirstFreeModel(ids: seq<string>, cat: Catalogue)
    ensures FreeModels(ids, cat) != [] ==> IsFirst(FreeModels(ids, cat)[0], ids, IsFree(cat))
  {
    hide Classify, IsFirst;
    if ids != [] {
      FirstFreeModel(ids[1..], cat);
      if Classify(ids[0], cat) == Free {
        FirstHere(ids, IsFree(cat));
      } else if FreeModels(ids[1..], cat) != [] {
        assert FreeModels(ids, cat) == FreeModels(ids[1..], cat);
        FirstBehind(FreeModels(ids, cat)[0], ids, IsFree(cat));
      }
    }
  }

  lemma {:induction false} FirstImageModel(ids: seq<string>, cat: Catalogue)
    ensures var v := FirstWithImages(FreeModels(ids, cat), cat);
            && (v.Some? <==> AnyOf(ids, FreeWithImages(cat)))
            && (v.Some? ==> IsFirst(v.value, ids, FreeWithImages(cat)))
  {
    hide IsFirst;
    if ids != [] {
      FirstImageModel(ids[1..], cat);
      var rest, ok := FreeModels(ids[1..], cat), FreeWithImages(cat);
      assert ([ids[0]] + rest)[1..] == rest && [] + rest == rest;
      assert AnyOf(ids, ok) <==> ok(ids[0]) || AnyOf(ids[1..], ok) by { AnyOfTail(ids, ok); }
      var v := FirstWithImages(FreeModels(ids, cat), cat);
      if ok(ids[0]) {
        FirstHere(ids, ok);
      } else {
        assert v == FirstWithImages(rest, cat);
        if v.Some? { FirstBehind(v.value, ids, ok); }
      }
    }
  }

  lemma AnyOfTail(ids: seq<string>, ok: string -> bool)
    requires ids != []
    ensures AnyOf(ids, ok) <==> ok(ids[0]) || AnyOf(ids[1..], ok)
  {
    if AnyOf(ids, ok) {
      var k :| 0 <= k < |ids| && ok(ids[k]);
      if k > 0 { assert ids[1..][k - 1] == ids[k]; }
    }
    if AnyOf(ids[1..], ok) {
      var k :| 0 <= k < |ids[1..]| && ok(ids[1..][k]);
      assert ids[k + 1] == ids[1..][k];
    }
  }

  /** Free, capable and not to be left out. */
  function Eligible(cat: Catalogue, tools: bool, images: bool, exclude: set<string>): string -> bool {
    (id: string) => id !in exclude && Classify(id, cat) == Free && (tools ==> cat[id].tools) && (images ==> cat[id].images)
  }

  lemma {:induction false} CandidateIsFirst(cat: Catalogue, cands: seq<string>, tools: bool, images: bool, exclude: set<string>)
    ensures var r := FirstCandidate(cat, cands, tools, images, exclude);
            && (r.Some? <==> AnyOf(cands, Eligible(cat, tools, images, exclude)))
            && (r.Some? ==> IsFirst(r.value, cands, Eligible(cat, tools, images, exclude)))
  {
    hide IsFirst;
    if cands != [] {
      CandidateIsFirst(cat, cands[1..], tools, images, exclude);
      var ok := Eligible(cat, tools, images, exclude);
      assert AnyOf(cands, ok) <==> ok(cands[0]) || AnyOf(cands[1..], ok) by { AnyOfTail(cands, ok); }
      var r := FirstCandidate(cat, cands, tools, images, exclude);
      if ok(cands[0]) { FirstHere(cands, ok); } else if r.Some? { FirstBehind(r.value, cands, ok); }
    }
  }

  // ---- side tasks --------------------------------------------------------------------------------

  /** What a dead side task is pinned to, out of the primary and its chain:
      tasks that look at images get the first free model that takes them, from
      the curated list if the chain has none; all others, and these when there
      is none at all, get the first free model. */
  predicate PinnedTo(id: string, name: string, ids: seq<string>, cat: Catalogue) {
    var looks := name == "vision" || name == "video";
    if looks && AnyOf(ids, FreeWithImages(cat)) then IsFirst(id, ids, FreeWithImages(cat))
    else if looks && AnyOf(VISION_CANDIDATES, FreeWithImages(cat)) then IsFirst(id, VISION_CANDIDATES, FreeWithImages(cat))
    else IsFirst(id, ids, IsFree(cat))
  }

  lemma TargetIsPinned(name: string, primary: string, chain: seq<Fallback>, cat: Catalogue)
    requires TargetsFor(primary, chain, cat).Some?
    ensures PinnedTo(TargetOf(name, TargetsFor(primary, chain, cat).value), name, [primary] + FallbackModels(chain), cat)
  {
    hide FreeModels, FirstWithImages, FirstCandidate, IsFirst, AnyOf, Classify;
    var ids := [primary] + FallbackModels(chain);
    FirstFreeModel(ids, cat);
    FirstImageModel(ids, cat);
    CandidateIsFirst(cat, VISION_CANDIDATES, false, true, {});
    SameQuestion(VISION_CANDIDATES, Eligible(cat, false, true, {}), FreeWithImages(cat));
    var r := FirstCandidate(cat, VISION_CANDIDATES, false, true, {});
    if r.Some? { SameFirst(r.value, VISION_CANDIDATES, Eligible(cat, false, true, {}), FreeWithImages(cat)); }
  }

  lemma SameQuestion(ids: seq<string>, p: string -> bool, q: string -> bool)
    requires forall id :: p(id) <==> q(id)
    ensures AnyOf(ids, p) <==> AnyOf(ids, q)
  {
  }

  lemma SameFirst(id: string, ids: seq<string>, p: string -> bool, q: string -> bool)
    requires forall id :: p(id) <==> q(id)
    requires IsFirst(id, ids, p)
    ensures IsFirst(id, ids, q)
  {
    var k :| 0 <= k < |ids| && ids[k] == id && p(id) && forall j | 0 <= j < k :: !p(ids[j]);
    assert ids[k] == id && q(id) && forall j | 0 <= j < k :: !q(ids[j]);
  }

  lemma {:induction false} RepairAuxAt(ts: seq<Task>, tg: Targets, cat: Catalogue, prev: States)
    ensures var ts' := RepairAux(ts, tg, cat, prev);
            |ts'| == |ts| && forall i | 0 <= i < |ts| :: ts'[i] == RepairTask(ts[i], tg, cat, prev)
  {
    hide RepairTask;
    if ts != [] { RepairAuxAt(ts[1..], tg, cat, prev); }
  }

  /** The pieces of a written configuration. */
  lemma Written(c: Config, cat: Catalogue, prev: States) returns (w: Winner, base: Config, ch: Chain, tg: Targets)
    requires Pricing(c, cat, prev).newConfig.Some?
    ensures w == Chosen(c, cat, prev) && base == Promoted(c, w) && base.aux == c.aux
    ensures ch == NewChain(base, c.primary.model, w != NoWinner, cat, prev)
    ensures TargetsFor(base.primary.model, ch.fallbacks, cat) == Some(tg) && FreeTargets(tg, cat)
    ensures Pricing(c, cat, prev).newConfig.value == Config(base.primary, ch.fallbacks, RepairAux(c.aux, tg, cat, prev))
    ensures Hope(c, cat)
  {
    hide Classify, WasMissing, NewChain, TargetsFor, RepairAux, AuxActions, FallbackModels, Chosen, Promoted, Warnings, TouchesPaid, FreeTargets;
    HasTargets(c, cat, prev);
    PromotedParts(c, cat, prev);
    w := Chosen(c, cat, prev);
    base := Promoted(c, w);
    ch := NewChain(base, c.primary.model, w != NoWinner, cat, prev);
    TargetsAreFree(base.primary.model, ch.fallbacks, cat);
    tg := TargetsFor(base.primary.model, ch.fallbacks, cat).value;
  }

  /** Every side task keeps its model unless that is dead; then it is pinned as
      above, to one of what is written. */
  lemma TasksArePinned(c: Config, cat: Catalogue, prev: States)
    ensures var n := Pricing(c, cat, prev).newConfig;
            n.Some? ==>
              && |n.value.aux| == |c.aux|
              && forall i | 0 <= i < |c.aux| && c.aux[i].Task? ::
                   && n.value.aux[i].Task?
                   && if DeadId(AuxModelId(c.aux[i].entry), cat, prev)
                      then PinnedTo(n.value.aux[i].entry.model, c.aux[i].name, [n.value.primary.model] + FallbackModels(n.value.fallbacks), cat)
                      else n.value.aux[i].entry.model == c.aux[i].entry.model
  {
    hide Classify, Dead, AuxModelId, Pricing, Chosen, Promoted, NewChain, TargetsFor, TargetOf, RepairAux, KeepLinks, PinnedTo, FreeTargets,
         FallbackModels, Hope;
    if Pricing(c, cat, prev).newConfig.Some? {
      var w, base, ch, tg := Written(c, cat, prev);
      RepairAuxAt(c.aux, tg, cat, prev);
      forall i | 0 <= i < |c.aux| && c.aux[i].Task? && DeadId(AuxModelId(c.aux[i].entry), cat, prev)
        ensures PinnedTo(RepairTask(c.aux[i], tg, cat, prev).entry.model, c.aux[i].name,
                         [base.primary.model] + FallbackModels(ch.fallbacks), cat)
      {
        TargetIsPinned(c.aux[i].name, base.primary.model, ch.fallbacks, cat);
      }
    }
  }

  // ---- the primary and its chain ---------------------------------------------------------------

  /** The first free fallback, by its place. */
  predicate FirstFreeAt(fbs: seq<Fallback>, i: nat, cat: Catalogue) {
    && i < |fbs| && fbs[i].Usable? && Classify(fbs[i].entry.model, cat) == Free
    && forall j | 0 <= j < i && fbs[j].Usable? :: Classify(fbs[j].entry.model, cat) != Free
  }

  lemma {:induction false} FirstFreeIsFirst(fbs: seq<Fallback>, cat: Catalogue)
    ensures FirstFree(fbs, cat).Some? ==> FirstFreeAt(fbs, FirstFree(fbs, cat).value, cat)
    ensures FirstFree(fbs, cat).None? ==> forall i: nat :: !FirstFreeAt(fbs, i, cat)
  {
    hide Classify;
    if fbs != [] {
      FirstFreeIsFirst(fbs[1..], cat);
      assert forall i: nat | i < |fbs| - 1 :: fbs[1..][i] == fbs[i + 1];
      forall i: nat | FirstFreeAt(fbs, i, cat) && i > 0 ensures FirstFreeAt(fbs[1..], i - 1, cat) {
        forall j | 0 <= j < i - 1 && fbs[1..][j].Usable? ensures Classify(fbs[1..][j].entry.model, cat) != Free {
          assert fbs[j + 1] == fbs[1..][j];
        }
      }
    }
  }

  /** The primary that is written, and what is left of the chain when it has
      been taken from it. A dead primary gives way to the first free fallback,
      with that one's own endpoint and key; if there is none, to the first
      curated model that is free and takes tools. */
  ghost predicate Succeeds(primary: Entry, left: seq<Fallback>, c: Config, cat: Catalogue, prev: States) {
    if !Dead(c.primary.model, cat, prev) then primary == c.primary && left == c.fallbacks
    else if exists i: nat :: FirstFreeAt(c.fallbacks, i, cat) then
      exists i: nat :: FirstFreeAt(c.fallbacks, i, cat) && left == c.fallbacks[..i] + c.fallbacks[i + 1..]
                       && var e := c.fallbacks[i].entry;
                          primary == Entry(e.model, if e.provider.Some? then e.provider else c.primary.provider, e.baseUrl, e.apiKey)
    else
      && left == c.fallbacks
      && IsFirst(primary.model, FALLBACK_CANDIDATES, Eligible(cat, true, false, {c.primary.model}))
      && primary == Entry(primary.model, Some("openrouter"), Some("https://openrouter.ai/api/v1"), None)
  }

  lemma PrimarySucceeds(c: Config, cat: Catalogue, prev: States)
    requires Hope(c, cat)
    ensures var base := Promoted(c, Chosen(c, cat, prev)); Succeeds(base.primary, base.fallbacks, c, cat, prev)
  {
    hide Classify, FirstFree, FirstCandidate, IsFirst, WasMissing, AnyOf;
    FirstFreeIsFirst(c.fallbacks, cat);
    CandidateIsFirst(cat, FALLBACK_CANDIDATES, true, false, {c.primary.model});
    PromotedParts(c, cat, prev);
    if Dead(c.primary.model, cat, prev) && FirstFree(c.fallbacks, cat).Some? {
      var i := FirstFree(c.fallbacks, cat).value;
      assert Chosen(c, cat, prev) == FromChain(i) && FirstFreeAt(c.fallbacks, i, cat);
    }
  }

  /** How many of these are free. */
  function CountFree(ids: set<string>, cat: Catalogue): nat { |set x | x in ids && Classify(x, cat) == Free| }

  /** Each one is the first to fit when its turn comes, while fewer than two
      models are free. */
  predicate EachInTurn(added: seq<string>, inChain: set<string>, barred: set<string>, cat: Catalogue) {
    forall k | 0 <= k < |added| ::
      var sofar := inChain + IdSet(added[..k]);
      CountFree(sofar, cat) < 2 && IsFirst(added[k], FALLBACK_CANDIDATES, Eligible(cat, true, false, sofar + barred))
  }

  predicate Enough(ids: set<string>, barred: set<string>, cat: Catalogue) {
    CountFree(ids, cat) >= 2 || !AnyOf(FALLBACK_CANDIDATES, Eligible(cat, true, false, ids + barred))
  }

  lemma {:induction false} AdditionsInOrder(inChain: set<string>, freeLeft: nat, barred: set<string>, cat: Catalogue)
    requires freeLeft == CountFree(inChain, cat)
    ensures var added := Additions(inChain, freeLeft, barred, cat);
            EachInTurn(added, inChain, barred, cat) && Enough(inChain + IdSet(added), barred, cat)
    decreases MIN_FREE_FALLBACKS - freeLeft
  {
    hide IsFirst, AnyOf, Classify, EachInTurn, Eligible, CountFree, IdSet;
    NoneInTurn(inChain, barred, cat);
    if freeLeft < MIN_FREE_FALLBACKS {
      CandidateIsFirst(cat, FALLBACK_CANDIDATES, true, false, inChain + barred);
      var cand := FirstCandidate(cat, FALLBACK_CANDIDATES, true, false, inChain + barred);
      if cand.Some? {
        var more := inChain + {cand.value};
        OneMoreFree(inChain, cand.value, cat);
        AdditionsInOrder(more, freeLeft + 1, barred, cat);
        OneInTurn(cand.value, Additions(more, freeLeft + 1, barred, cat), inChain, barred, cat);
      }
    }
  }

  lemma NoneInTurn(inChain: set<string>, barred: set<string>, cat: Catalogue)
    ensures EachInTurn([], inChain, barred, cat) && inChain + IdSet([]) == inChain
  {
  }

  lemma OneInTurn(id: string, rest: seq<string>, inChain: set<string>, barred: set<string>, cat: Catalogue)
    requires EachInTurn(rest, inChain + {id}, barred, cat) && CountFree(inChain, cat) < 2
    requires IsFirst(id, FALLBACK_CANDIDATES, Eligible(cat, true, false, inChain + barred))
    ensures EachInTurn([id] + rest, inChain, barred, cat) && inChain + IdSet([id] + rest) == inChain + {id} + IdSet(rest)
  {
    hide IsFirst, Eligible, CountFree;
    var added := [id] + rest;
    forall k | 0 <= k < |added|
      ensures var sofar := inChain + IdSet(added[..k]);
              CountFree(sofar, cat) < 2 && IsFirst(added[k], FALLBACK_CANDIDATES, Eligible(cat, true, false, sofar + barred))
    {
      if k == 0 {
        assert inChain + IdSet(added[..k]) == inChain;
      } else {
        assert added[..k] == [id] + rest[..k - 1];
        assert inChain + IdSet(added[..k]) == inChain + {id} + IdSet(rest[..k - 1]);
      }
    }
  }

  lemma OneMoreFree(ids: set<string>, id: string, cat: Catalogue)
    requires id !in ids && Classify(id, cat) == Free
    ensures CountFree(ids + {id}, cat) == CountFree(ids, cat) + 1
  {
    hide Classify;
    var frees := set x | x in ids && Classify(x, cat) == Free;
    assert (set x | x in ids + {id} && Classify(x, cat) == Free) == frees + {id};
  }

  /** The chain that is written: what is left, without the dead; and if anything
      was taken out, curated models behind it, one by one. */
  predicate Refilled(ids: seq<string>, left: seq<string>, added: seq<string>, cut: bool, barred: set<string>, cat: Catalogue, prev: States) {
    var alive := Alive(left, cat, prev);
    && ids == alive + added
    && (cut || left != alive ==> EachInTurn(added, IdSet(alive), barred, cat) && Enough(IdSet(alive) + IdSet(added), barred, cat))
    && (!cut && left == alive ==> added == [])
  }

  predicate OnOpenRouter(fb: Fallback) {
    && fb.Usable? && fb.entry.provider == Some("openrouter")
    && fb.entry.baseUrl == Some("https://openrouter.ai/api/v1") && fb.entry.apiKey == None
  }

  lemma Refill(c: Config, cat: Catalogue, prev: States) returns (left: seq<Fallback>, added: seq<string>)
    requires Pricing(c, cat, prev).newConfig.Some?
    ensures var w := Chosen(c, cat, prev);
            && left == Promoted(c, w).fallbacks
            && NewChain(Promoted(c, w), c.primary.model, w != NoWinner, cat, prev).actions == Dropped(left, cat, prev) + AddActions(added)
    ensures var n := Pricing(c, cat, prev).newConfig.value;
            && Succeeds(n.primary, left, c, cat, prev)
            && Refilled(FallbackModels(n.fallbacks), FallbackModels(left), added, Dead(c.primary.model, cat, prev),
                        {n.primary.model, c.primary.model}, cat, prev)
            && |added| <= |n.fallbacks| && forall fb | fb in n.fallbacks[|n.fallbacks| - |added|..] :: OnOpenRouter(fb)
  {
    hide Classify, Dead, NoneDead, Pricing, Chosen, Promoted, TargetsFor, RepairAux, FallbackModels, Hope, Alive, EachInTurn, Enough,
         Dropped, DropDead, Additions, FreeTargets, CountFree, Succeeds, AsFallbacks, OnOpenRouter;
    var w, base, ch, tg := Written(c, cat, prev);
    PrimarySucceeds(c, cat, prev);
    PromotedParts(c, cat, prev);
    left := base.fallbacks;
    FallbacksLive(left, cat, prev);
    FallbacksKept(left, cat, prev);
    AllAlive(FallbackModels(left), cat, prev);
    var kept := DropDead(left, cat, prev);
    var inChain := IdSet(FallbackModels(kept));
    var barred := {base.primary.model, c.primary.model};
    var cut := w != NoWinner || Dropped(left, cat, prev) != [];
    added := if cut then Additions(inChain, |FreeOf(inChain, cat)|, barred, cat) else [];
    CountedFree(inChain, cat);
    AdditionsInOrder(inChain, |FreeOf(inChain, cat)|, barred, cat);
    ModelsConcat(kept, AsFallbacks(added));
    ModelsOfFresh(added);
    FreshAt(added);
    NoneFresh();
    NoneAdded();
    assert ch.fallbacks == kept + AsFallbacks(added);
    assert ch.fallbacks[|kept|..] == AsFallbacks(added);
  }

  lemma NoneAdded()
    ensures AddActions([]) == []
  {
  }

  /** What is written: a primary that succeeds the old one, and the chain that
      leaves, without its dead and refilled to two free models as far as the
      curated list goes, with nothing that already has a role. */
  lemma ChainIsRefilled(c: Config, cat: Catalogue, prev: States) returns (left: seq<Fallback>, added: seq<string>)
    requires Pricing(c, cat, prev).newConfig.Some?
    ensures var n := Pricing(c, cat, prev).newConfig.value;
            && Succeeds(n.primary, left, c, cat, prev)
            && Refilled(FallbackModels(n.fallbacks), FallbackModels(left), added, Dead(c.primary.model, cat, prev),
                        {n.primary.model, c.primary.model}, cat, prev)
            && |added| <= |n.fallbacks| && forall fb | fb in n.fallbacks[|n.fallbacks| - |added|..] :: OnOpenRouter(fb)
  {
    hide *;
    left, added := Refill(c, cat, prev);
  }

  lemma {:induction false} AllAlive(ids: seq<string>, cat: Catalogue, prev: States)
    ensures |Alive(ids, cat, prev)| <= |ids|
    ensures Alive(ids, cat, prev) == ids <==> NoneDead(ids, cat, prev)
  {
    hide Dead;
    if ids != [] {
      AllAlive(ids[1..], cat, prev);
      var rest := Alive(ids[1..], cat, prev);
      assert ids == [ids[0]] + ids[1..] && ([ids[0]] + rest)[1..] == rest && [] + rest == rest;
      assert forall id :: id in ids <==> id == ids[0] || id in ids[1..];
    }
  }

  lemma NoneFresh()
    ensures AsFallbacks([]) == []
  {
  }

  lemma CountedFree(ids: set<string>, cat: Catalogue)
    ensures |FreeOf(ids, cat)| == CountFree(ids, cat)
  {
  }

  lemma {:induction false} FreshAt(ids: seq<string>)
    ensures |AsFallbacks(ids)| == |ids|
    ensures forall fb | fb in AsFallbacks(ids) :: OnOpenRouter(fb)
  {
    if ids != [] { FreshAt(ids[1..]); }
  }

  // ---- when anything is written at all -------------------------------------------------------

  /** Is there a model for the primary's place: itself, a free fallback, or a
      curated one? */
  predicate Replaceable(c: Config, cat: Catalogue) {
    || Classify(c.primary.model, cat) == Free
    || AnyOf(FallbackModels(c.fallbacks), IsFree(cat))
    || AnyOf(FALLBACK_CANDIDATES, Eligible(cat, true, false, {c.primary.model}))
  }

  lemma HopeIff(c: Config, cat: Catalogue)
    ensures Hope(c, cat) <==> Replaceable(c, cat)
  {
    hide Classify, FirstFree, FirstCandidate, FallbackModels, Eligible;
    FreeIsFound(c.fallbacks, cat);
    CandidateIsFirst(cat, FALLBACK_CANDIDATES, true, false, {c.primary.model});
    var ids := FallbackModels(c.fallbacks);
    if exists id :: id in ids && Classify(id, cat) == Free {
      var id :| id in ids && Classify(id, cat) == Free;
      var k :| 0 <= k < |ids| && ids[k] == id;
      assert IsFree(cat)(ids[k]);
    }
  }

  /** A configuration is written exactly if the primary can be replaced and
      something is dead: the primary, a fallback, or in a side task while
      primary or chain have a free model to pin it to. */
  lemma WrittenIff(c: Config, cat: Catalogue, prev: States)
    ensures Pricing(c, cat, prev).newConfig.Some? <==>
              && Replaceable(c, cat)
              && var chain := [c.primary.model] + FallbackModels(c.fallbacks);
                 !NoneDead(chain, cat, prev) || (!NoneDead(AuxModels(c.aux), cat, prev) && AnyOf(chain, IsFree(cat)))
  {
    hide Classify, Dead, NewChain, TargetsFor, RepairAux, AuxActions, FallbackModels, AuxModels, Promoted, Successor, AnyOf, NoneDead,
         Replaceable, Warnings, TouchesPaid;
    HopeIff(c, cat);
    PromotedParts(c, cat, prev);
    if Hope(c, cat) {
      var chain := [c.primary.model] + FallbackModels(c.fallbacks);
      var w := Chosen(c, cat, prev);
      NoneDeadConcat([c.primary.model], FallbackModels(c.fallbacks), cat, prev);
      OneMended(Some(c.primary.model), cat, prev);
      if w == NoWinner {
        HasTargets(c, cat, prev);
        ChainMended(c, c.primary.model, false, cat, prev);
        var ch := NewChain(c, c.primary.model, false, cat, prev);
        var tg := TargetsFor(c.primary.model, ch.fallbacks, cat);
        TargetsAreFree(c.primary.model, ch.fallbacks, cat);
        FreeAmong(c.primary.model, FallbackModels(c.fallbacks), cat);
        if tg.Some? { AuxMended(c.aux, tg.value, cat, prev); }
      }
    }
  }

  lemma FreeAmong(primary: string, ids: seq<string>, cat: Catalogue)
    ensures AnyOf([primary] + ids, IsFree(cat)) <==> Classify(primary, cat) == Free || exists id :: id in ids && Classify(id, cat) == Free
  {
    hide Classify;
    var all := [primary] + ids;
    if Classify(primary, cat) == Free { assert IsFree(cat)(all[0]); }
    forall k | 0 <= k < |ids| && Classify(ids[k], cat) == Free ensures AnyOf(all, IsFree(cat)) { assert IsFree(cat)(all[k + 1]); }
  }

  // ---- what is told ----------------------------------------------------------------------------

  predicate NoAuxTwice(notes: seq<Note>) {
    forall i, j | 0 <= i < j < |notes| && notes[i].key.AuxMissing? :: notes[i].key != notes[j].key
  }

  lemma {:induction false} DistinctOnce(ids: seq<string>)
    ensures forall i, j | 0 <= i < j < |Distinct(ids)| :: Distinct(ids)[i] != Distinct(ids)[j]
  {
    if ids != [] { DistinctOnce(ids[..|ids| - 1]); }
  }

  lemma {:induction false} AuxNotesOnce(ids: seq<string>, cat: Catalogue, prev: States)
    requires forall i, j | 0 <= i < j < |ids| :: ids[i] != ids[j]
    ensures NoAuxTwice(AuxNotes(ids, cat, prev))
  {
    hide FirstMiss;
    if ids != [] {
      var rest := AuxNotes(ids[1..], cat, prev);
      AuxNotesOnce(ids[1..], cat, prev);
      forall j | 0 <= j < |rest| ensures rest[j].key != AuxMissing(ids[0]) {
        AuxNotesIff(ids[1..], cat, prev, rest[j]);
        assert rest[j] in rest;
      }
    }
  }

  lemma OnlyInTheMiddle(a: seq<Note>, b: seq<Note>, c: seq<Note>)
    requires NoAuxTwice(b) && (forall n | n in a :: !n.key.AuxMissing?) && forall n | n in c :: !n.key.AuxMissing?
    ensures NoAuxTwice(a + b + c)
  {
  }

  lemma PricingEnds(c: Config, cat: Catalogue, prev: States) returns (rest: seq<Note>)
    ensures Pricing(c, cat, prev).notes == Warnings(c, cat, prev) + rest && forall n | n in rest :: !n.key.AuxMissing?
  {
    hide Classify, WasMissing, Repaired, Successor, Chosen, Warnings, TouchesPaid;
    var notes, early := Pricing(c, cat, prev).notes, Warnings(c, cat, prev);
    rest := notes[|early|..];
    assert notes == early + rest;
  }

  /** A missing model of side tasks is announced once, however many tasks use
      it. */
  lemma AuxToldOnce(c: Config, cat: Catalogue, prev: States)
    ensures NoAuxTwice(Pricing(c, cat, prev).notes)
  {
    hide Pricing, FallbackModels, AuxModels, Degraded, AuxNotes, Distinct, NoAuxTwice;
    var fallback := Degraded(FallbackModels(c.fallbacks), cat, prev);
    var aux := AuxNotes(Distinct(AuxModels(c.aux)), cat, prev);
    DistinctOnce(AuxModels(c.aux));
    AuxNotesOnce(Distinct(AuxModels(c.aux)), cat, prev);
    forall n | n in fallback ensures !n.key.AuxMissing? { DegradedIff(FallbackModels(c.fallbacks), cat, prev, n); }
    var rest := PricingEnds(c, cat, prev);
    OnlyInTheMiddle(fallback, aux, rest);
  }

  // ---- what is done ----------------------------------------------------------------------------

  /** The fallbacks that a list of actions takes out, and those it adds. */
  function Drops(acts: seq<Action>): seq<string> {
    if acts == [] then [] else (if acts[0].DropFallback? then [acts[0].id] else []) + Drops(acts[1..])
  }

  function Adds(acts: seq<Action>): seq<string> {
    if acts == [] then [] else (if acts[0].AddFallback? then [acts[0].id] else []) + Adds(acts[1..])
  }

  function Gone(ids: seq<string>, cat: Catalogue, prev: States): seq<string> {
    if ids == [] then [] else (if Dead(ids[0], cat, prev) then [ids[0]] else []) + Gone(ids[1..], cat, prev)
  }

  lemma {:induction false} ListsConcat(a: seq<Action>, b: seq<Action>)
    ensures Drops(a + b) == Drops(a) + Drops(b) && Adds(a + b) == Adds(a) + Adds(b)
  {
    if a == [] {
      assert a + b == b;
    } else {
      assert (a + b)[1..] == a[1..] + b;
      ListsConcat(a[1..], b);
    }
  }

  lemma {:induction false} NoLists(acts: seq<Action>)
    requires forall a | a in acts :: !a.DropFallback? && !a.AddFallback?
    ensures Drops(acts) == [] && Adds(acts) == []
  {
    if acts != [] { NoLists(acts[1..]); }
  }

  lemma {:induction false} DroppedLists(fbs: seq<Fallback>, cat: Catalogue, prev: States)
    ensures Drops(Dropped(fbs, cat, prev)) == Gone(FallbackModels(fbs), cat, prev) && Adds(Dropped(fbs, cat, prev)) == []
  {
    hide Dead;
    if fbs != [] {
      DroppedLists(fbs[1..], cat, prev);
      var rest, more := Dropped(fbs[1..], cat, prev), FallbackModels(fbs[1..]);
      assert [] + rest == rest && [] + more == more;
      if fbs[0].Usable? {
        assert ([fbs[0].entry.model] + more)[1..] == more;
        assert ([DropFallback(fbs[0].entry.model)] + rest)[1..] == rest;
      }
    }
  }

  lemma {:induction false} AddedLists(ids: seq<string>)
    ensures Adds(AddActions(ids)) == ids && Drops(AddActions(ids)) == []
  {
    if ids != [] {
      AddedLists(ids[1..]);
      assert AddActions(ids)[1..] == AddActions(ids[1..]);
    }
  }

  /** What is told of the side tasks: each dead model that is replaced, with
      what replaces it, and each dead link that is cut. */
  predicate TellsTask(t: Task, t': Task, a: Action, cat: Catalogue, prev: States) {
    && t.Task? && t'.Task?
    && (|| (a == Repin(t.name, t.entry.model, t'.entry.model) && DeadId(AuxModelId(t.entry), cat, prev))
        || (a.DropAuxFallback? && a.task == t.name && t.chain.Some? && a.id in ChainModels(t.chain.value) && Dead(a.id, cat, prev)))
  }

  lemma TaskTold(t: Task, tg: Targets, cat: Catalogue, prev: States, a: Action)
    requires FreeTargets(tg, cat)
    ensures a in TaskActions(t, tg, cat, prev) <==> TellsTask(t, RepairTask(t, tg, cat, prev), a, cat, prev)
  {
    hide Dead, LinkActions, TargetOf, FreeTargets, ChainModels, KeepLinks, AuxModelId;
    if t.Task? {
      TargetIsFree(t.name, tg, cat);
      FreeIsAlive(TargetOf(t.name, tg), cat, prev);
      Repinned(t.entry, "");
      if t.chain.Some? { LinkActionsIff(t.name, t.chain.value, cat, prev, a); }
    }
  }

  lemma {:induction false} AuxTold(ts: seq<Task>, tg: Targets, cat: Catalogue, prev: States, a: Action)
    requires FreeTargets(tg, cat)
    ensures a in AuxActions(ts, tg, cat, prev) <==>
              exists i | 0 <= i < |ts| :: TellsTask(ts[i], RepairTask(ts[i], tg, cat, prev), a, cat, prev)
  {
    hide TaskActions, TellsTask, RepairTask, FreeTargets;
    if ts != [] {
      TaskTold(ts[0], tg, cat, prev, a);
      AuxTold(ts[1..], tg, cat, prev, a);
      assert forall i | 0 <= i < |ts| - 1 :: ts[1..][i] == ts[i + 1];
    }
  }

  lemma WrittenActions(c: Config, cat: Catalogue, prev: States, w: Winner, base: Config, ch: Chain, tg: Targets)
    requires Pricing(c, cat, prev).newConfig.Some?
    requires w == Chosen(c, cat, prev) && base == Promoted(c, w) && base.aux == c.aux
    requires ch == NewChain(base, c.primary.model, w != NoWinner, cat, prev)
    requires TargetsFor(base.primary.model, ch.fallbacks, cat) == Some(tg)
    ensures Pricing(c, cat, prev).actions
            == Announced((if w != NoWinner then [Promote(base.primary.model)] else []) + (ch.actions + AuxActions(c.aux, tg, cat, prev)),
                         c.primary.model)
  {
    hide Classify, WasMissing, NewChain, TargetsFor, RepairAux, AuxActions, Chosen, Promoted, Warnings, TouchesPaid, Announced, Successor;
    var head := if w != NoWinner then [Promote(base.primary.model)] else [];
    assert head + ch.actions + AuxActions(c.aux, tg, cat, prev) == head + (ch.actions + AuxActions(c.aux, tg, cat, prev));
  }

  /** What stands between the promotion and the restart. */
  lemma RestOf(left: seq<Fallback>, added: seq<string>, ts: seq<Task>, tg: Targets, cat: Catalogue, prev: States) returns (rest: seq<Action>)
    requires FreeTargets(tg, cat)
    ensures rest == Dropped(left, cat, prev) + AddActions(added) + AuxActions(ts, tg, cat, prev)
    ensures forall a | a in rest :: a.DropFallback? || a.AddFallback? || a.Repin? || a.DropAuxFallback?
    ensures forall a | a in rest && (a.Repin? || a.DropAuxFallback?) :: a in AuxActions(ts, tg, cat, prev)
    ensures Drops(rest) == Gone(FallbackModels(left), cat, prev) && Adds(rest) == added
  {
    hide Dropped, AddActions, AuxActions, Drops, Adds, Gone, FreeTargets, Dead, FallbackModels, Removes;
    var drops, adds, aux := Dropped(left, cat, prev), AddActions(added), AuxActions(ts, tg, cat, prev);
    rest := drops + adds + aux;
    forall a | a in drops ensures a.DropFallback? { DroppedIff(left, cat, prev, a); }
    forall a | a in adds ensures a.AddFallback? { AllAdds(added, a); }
    AuxActionsIff(ts, tg, cat, prev, "");
    NoLists(aux);
    DroppedLists(left, cat, prev);
    AddedLists(added);
    ListsConcat(drops, adds);
    ListsConcat(drops + adds, aux);
    assert Gone(FallbackModels(left), cat, prev) + [] == Gone(FallbackModels(left), cat, prev) && [] + added == added;
  }

  lemma AnnouncedIs(promoted: bool, to: string, oldPrimary: string, rest: seq<Action>)
    requires forall a | a in rest :: a.DropFallback? || a.AddFallback? || a.Repin? || a.DropAuxFallback?
    ensures var acts := Announced((if promoted then [Promote(to)] else []) + rest, oldPrimary);
            && acts == (if promoted then [Promote(to), WriteDrop(oldPrimary)] else []) + rest + [Backup, Restart]
            && Drops(acts) == Drops(rest) && Adds(acts) == Adds(rest)
            && (forall a: Action | a.Repin? || a.DropAuxFallback? :: a in acts <==> a in rest)
            && (!promoted ==> forall a | a in acts :: !a.Promote? && !a.WriteDrop?)
  {
    hide Drops, Adds;
    var head := if promoted then [Promote(to), WriteDrop(oldPrimary)] else [];
    if promoted { assert ([Promote(to)] + rest)[1..] == rest; } else { assert [] + rest == rest; }
    if rest != [] { assert rest[0] in rest; }
    var acts := Announced((if promoted then [Promote(to)] else []) + rest, oldPrimary);
    assert acts == head + rest + [Backup, Restart];
    ListsConcat(head, rest);
    ListsConcat(head + rest, [Backup, Restart]);
    NoLists(head);
    NoLists([Backup, Restart]);
    assert [] + Drops(rest) == Drops(rest) && Drops(rest) + [] == Drops(rest);
    assert [] + Adds(rest) == Adds(rest) && Adds(rest) + [] == Adds(rest);
  }

  /** The actions of a plan that writes say what was done: a promotion with the
      old primary written off, if that is dead; every fallback taken out or
      added, in order; every side task repinned or cut; then the backup and the
      restart. */
  lemma ActionsTell(c: Config, cat: Catalogue, prev: States) returns (left: seq<Fallback>, added: seq<string>)
    requires Pricing(c, cat, prev).newConfig.Some?
    ensures var n := Pricing(c, cat, prev).newConfig.value;
            && Succeeds(n.primary, left, c, cat, prev)
            && Refilled(FallbackModels(n.fallbacks), FallbackModels(left), added, Dead(c.primary.model, cat, prev),
                        {n.primary.model, c.primary.model}, cat, prev)
    ensures var acts, n := Pricing(c, cat, prev).actions, Pricing(c, cat, prev).newConfig.value;
            && (if Dead(c.primary.model, cat, prev)
                then |acts| >= 2 && acts[0] == Promote(n.primary.model) && acts[1] == WriteDrop(c.primary.model)
                else forall a | a in acts :: !a.Promote? && !a.WriteDrop?)
            && |acts| >= 2 && acts[|acts| - 2..] == [Backup, Restart]
            && Drops(acts) == Gone(FallbackModels(left), cat, prev) && Adds(acts) == added
            && forall a: Action | a.Repin? || a.DropAuxFallback? ::
                 a in acts <==> exists i | 0 <= i < |c.aux| && i < |n.aux| :: TellsTask(c.aux[i], n.aux[i], a, cat, prev)
  {
    hide Pricing, Chosen, Promoted, NewChain, TargetsFor, RepairAux, AuxActions, FallbackModels, Hope, FreeTargets, Succeeds, Refilled,
         TellsTask, Drops, Adds, Gone, Dead, RepairTask;
    left, added := Refill(c, cat, prev);
    var w, base, ch, tg := Written(c, cat, prev);
    PromotedParts(c, cat, prev);
    var rest := ch.actions + AuxActions(c.aux, tg, cat, prev);
    var ours := RestOf(left, added, c.aux, tg, cat, prev);
    WrittenActions(c, cat, prev, w, base, ch, tg);
    AnnouncedIs(w != NoWinner, base.primary.model, c.primary.model, rest);
    RepairAuxAt(c.aux, tg, cat, prev);
    forall a: Action | a.Repin? || a.DropAuxFallback?
      ensures a in rest <==> exists i | 0 <= i < |c.aux| :: TellsTask(c.aux[i], RepairTask(c.aux[i], tg, cat, prev), a, cat, prev)
    {
      AuxTold(c.aux, tg, cat, prev, a);
    }
  }
}
