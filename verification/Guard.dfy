/** The policy of the billing guard: decide and its helpers
    (scripts/hermes_model_guard.py). */
module Guard {
  import opened Wrappers

  // ---- catalogue -------------------------------------------------------------------

  /** A price as listed: a number, or something that is not one. */
  datatype Price = Number(value: real) | NoPrice

  datatype Listing = Listing(prompt: Price, completion: Price, request: Option<Price>, tools: bool, images: bool)

  type Catalogue = map<string, Listing>

  datatype State = Free | Paid | Missing

  predicate FreePrice(p: Price) { p.Number? && p.value == 0.0 }

  /** Free only when every price is known to be zero. */
  function Classify(id: string, cat: Catalogue): State {
    if id !in cat then Missing
    else
      var l := cat[id];
      if FreePrice(l.prompt) && FreePrice(l.completion) && (l.request.Some? ==> FreePrice(l.request.value))
      then Free else Paid
  }

  // ---- configuration ---------------------------------------------------------------

  datatype Entry = Entry(model: string, provider: Option<string>, baseUrl: Option<string>, apiKey: Option<string>)

  /** An element of fallback_providers; a malformed one names no model. */
  datatype Fallback = Usable(entry: Entry) | Malformed(raw: string)

  datatype AuxEntry = AuxEntry(model: string, provider: string, baseUrl: string)

  datatype Link = Link(entry: AuxEntry) | BadLink(raw: string)

  /** A side task; its own fallback chain, if it has a list there. */
  datatype Task = Task(name: string, entry: AuxEntry, chain: Option<seq<Link>>) | NotTask(name: string)

  datatype Config = Config(primary: Entry, fallbacks: seq<Fallback>, aux: seq<Task>)

  predicate Contains(s: string, w: string)
  {
    |w| <= |s| && (s[..|w|] == w || (s != "" && Contains(s[1..], w)))
  }

  /** The model a side task bills through OpenRouter, if it does. A base URL
      wins over the provider. */
  function AuxModelId(e: AuxEntry): Option<string> {
    if e.baseUrl != "" && !Contains(e.baseUrl, "openrouter.ai") then None
    else if e.model != "" && e.provider in ["openrouter", "auto", ""] then Some(e.model)
    else None
  }

  function LinkId(l: Link): Option<string> {
    if l.Link? then AuxModelId(l.entry) else None
  }

  function Listed(id: Option<string>): seq<string> {
    if id.Some? then [id.value] else []
  }

  function FallbackModels(fbs: seq<Fallback>): seq<string> {
    if fbs == [] then []
    else (if fbs[0].Usable? then [fbs[0].entry.model] else []) + FallbackModels(fbs[1..])
  }

  function ChainModels(ls: seq<Link>): seq<string> {
    if ls == [] then [] else Listed(LinkId(ls[0])) + ChainModels(ls[1..])
  }

  function TaskModels(t: Task): seq<string> {
    if t.NotTask? then []
    else Listed(AuxModelId(t.entry)) + if t.chain.Some? then ChainModels(t.chain.value) else []
  }

  function AuxModels(ts: seq<Task>): seq<string> {
    if ts == [] then [] else TaskModels(ts[0]) + AuxModels(ts[1..])
  }

  /** Every model the configuration can bill: primary, chain, side tasks and
      their chains. */
  function Priced(c: Config): seq<string> {
    [c.primary.model] + FallbackModels(c.fallbacks) + AuxModels(c.aux)
  }

  type States = map<string, State>

  function ModelStates(c: Config, cat: Catalogue): States {
    map id | id in Priced(c) :: Classify(id, cat)
  }

  predicate WasMissing(id: string, prev: States) { id in prev && prev[id] == Missing }

  /** To be acted on: a price appeared, or a delisting was seen twice. */
  predicate Dead(id: string, cat: Catalogue, prev: States) {
    Classify(id, cat) == Paid || (Classify(id, cat) == Missing && WasMissing(id, prev))
  }

  predicate FirstMiss(id: string, cat: Catalogue, prev: States) {
    Classify(id, cat) == Missing && !WasMissing(id, prev)
  }

  // ---- replacements ----------------------------------------------------------------

  const FALLBACK_CANDIDATES: seq<string> := [
    "google/gemma-4-31b-it:free",
    "nvidia/nemotron-3.5-lightning:free",
    "nvidia/nemotron-3-nano-omni-30b-a3b-reasoning:free",
    "cohere/north-mini-code:free",
    "nvidia/nemotron-3-super-120b-a12b:free"]

  const VISION_CANDIDATES: seq<string> := [
    "google/gemma-4-31b-it:free",
    "nvidia/nemotron-3-nano-omni-30b-a3b-reasoning:free"]

  const VISION_TASKS: seq<string> := ["vision", "video"]

  const MIN_FREE_FALLBACKS: nat := 2

  const OPENROUTER_API: string := "https://openrouter.ai/api/v1"

  predicate Fit(id: string, cat: Catalogue, tools: bool, images: bool) {
    && Classify(id, cat) == Free
    && (tools ==> cat[id].tools)
    && (images ==> cat[id].images)
  }

  /** The first of a curated list that is listed, free and capable. */
  function FirstCandidate(cat: Catalogue, cands: seq<string>, tools: bool, images: bool, exclude: set<string>): (r: Option<string>)
    ensures r.Some? ==> r.value in cands && r.value !in exclude && Fit(r.value, cat, tools, images)
    ensures r.None? ==> forall c | c in cands && c !in exclude :: !Fit(c, cat, tools, images)
  {
    if cands == [] then None
    else if cands[0] !in exclude && Fit(cands[0], cat, tools, images) then Some(cands[0])
    else
      assert forall c | c in cands :: c == cands[0] || c in cands[1..];
      FirstCandidate(cat, cands[1..], tools, images, exclude)
  }

  /** The first free model of the chain, by its place in the list. */
  function FirstFree(fbs: seq<Fallback>, cat: Catalogue): (r: Option<nat>)
    ensures r.Some? ==> r.value < |fbs| && fbs[r.value].Usable? && Classify(fbs[r.value].entry.model, cat) == Free
  {
    if fbs == [] then None
    else if fbs[0].Usable? && Classify(fbs[0].entry.model, cat) == Free then Some(0)
    else
      var r := FirstFree(fbs[1..], cat);
      if r.Some? then Some(r.value + 1) else None
  }

  /** Where a new primary would come from. */
  datatype Winner = NoWinner | FromChain(index: nat) | Curated(id: string)

  function Successor(c: Config, cat: Catalogue): (r: Winner)
    ensures r.FromChain? ==> r.index < |c.fallbacks| && c.fallbacks[r.index].Usable?
                             && Classify(c.fallbacks[r.index].entry.model, cat) == Free
    ensures r.Curated? ==> r.id in FALLBACK_CANDIDATES && Classify(r.id, cat) == Free && r.id != c.primary.model
  {
    var i := FirstFree(c.fallbacks, cat);
    if i.Some? then FromChain(i.value)
    else
      var cand := FirstCandidate(cat, FALLBACK_CANDIDATES, true, false, {c.primary.model});
      if cand.Some? then Curated(cand.value) else NoWinner
  }

  /** The configuration with the winner as primary. Its endpoint and key are
      its own, never the old primary's. */
  function Promoted(c: Config, w: Winner): Config
    requires w.FromChain? ==> w.index < |c.fallbacks| && c.fallbacks[w.index].Usable?
  {
    match w
    case NoWinner => c
    case Curated(id) => c.(primary := Entry(id, Some("openrouter"), Some(OPENROUTER_API), None))
    case FromChain(i) =>
      var e := c.fallbacks[i].entry;
      c.(primary := e.(provider := if e.provider.Some? then e.provider else c.primary.provider),
         fallbacks := c.fallbacks[..i] + c.fallbacks[i + 1..])
  }

  // ---- the chain ---------------------------------------------------------------------

  predicate DeadFallback(fb: Fallback, cat: Catalogue, prev: States) {
    fb.Usable? && Dead(fb.entry.model, cat, prev)
  }

  function DropDead(fbs: seq<Fallback>, cat: Catalogue, prev: States): seq<Fallback> {
    if fbs == [] then []
    else (if DeadFallback(fbs[0], cat, prev) then [] else [fbs[0]]) + DropDead(fbs[1..], cat, prev)
  }

  function Dropped(fbs: seq<Fallback>, cat: Catalogue, prev: States): seq<Action> {
    if fbs == [] then []
    else (if DeadFallback(fbs[0], cat, prev) then [DropFallback(fbs[0].entry.model)] else []) + Dropped(fbs[1..], cat, prev)
  }

  function IdSet(xs: seq<string>): set<string> { set x | x in xs }

  function FreeOf(ids: set<string>, cat: Catalogue): set<string> {
    set x | x in ids && Classify(x, cat) == Free
  }

  /** What a chain that was cut is topped up with. */
  function Additions(inChain: set<string>, freeLeft: nat, barred: set<string>, cat: Catalogue): seq<string>
    decreases MIN_FREE_FALLBACKS - freeLeft
  {
    if freeLeft >= MIN_FREE_FALLBACKS then []
    else
      var cand := FirstCandidate(cat, FALLBACK_CANDIDATES, true, false, inChain + barred);
      if cand == None then []
      else [cand.value] + Additions(inChain + {cand.value}, freeLeft + 1, barred, cat)
  }

  function Fresh(id: string): Fallback {
    Usable(Entry(id, Some("openrouter"), Some(OPENROUTER_API), None))
  }

  function AsFallbacks(ids: seq<string>): seq<Fallback> {
    if ids == [] then [] else [Fresh(ids[0])] + AsFallbacks(ids[1..])
  }

  // ---- side tasks ----------------------------------------------------------------------

  /** What a dead side task is pinned to. */
  datatype Targets = Targets(text: string, vision: Option<string>)

  function TargetOf(name: string, tg: Targets): string {
    if name in VISION_TASKS && tg.vision.Some? then tg.vision.value else tg.text
  }

  predicate DeadId(id: Option<string>, cat: Catalogue, prev: States) {
    id.Some? && Dead(id.value, cat, prev)
  }

  function KeepLinks(ls: seq<Link>, cat: Catalogue, prev: States): seq<Link> {
    if ls == [] then []
    else (if DeadId(LinkId(ls[0]), cat, prev) then [] else [ls[0]]) + KeepLinks(ls[1..], cat, prev)
  }

  function LinkActions(name: string, ls: seq<Link>, cat: Catalogue, prev: States): seq<Action> {
    if ls == [] then []
    else
      var here := if DeadId(LinkId(ls[0]), cat, prev) then [DropAuxFallback(name, LinkId(ls[0]).value)] else [];
      here + LinkActions(name, ls[1..], cat, prev)
  }

  predicate Repins(t: Task, tg: Targets, cat: Catalogue, prev: States)
    requires t.Task?
  {
    DeadId(AuxModelId(t.entry), cat, prev) && TargetOf(t.name, tg) != t.entry.model
  }

  function RepairTask(t: Task, tg: Targets, cat: Catalogue, prev: States): Task {
    if t.NotTask? then t
    else
      Task(t.name,
           if Repins(t, tg, cat, prev) then t.entry.(model := TargetOf(t.name, tg)) else t.entry,
           if t.chain.Some? then Some(KeepLinks(t.chain.value, cat, prev)) else None)
  }

  function TaskActions(t: Task, tg: Targets, cat: Catalogue, prev: States): seq<Action> {
    if t.NotTask? then []
    else
      var here := if Repins(t, tg, cat, prev) then [Repin(t.name, t.entry.model, TargetOf(t.name, tg))] else [];
      here + if t.chain.Some? then LinkActions(t.name, t.chain.value, cat, prev) else []
  }

  function RepairAux(ts: seq<Task>, tg: Targets, cat: Catalogue, prev: States): seq<Task> {
    if ts == [] then [] else [RepairTask(ts[0], tg, cat, prev)] + RepairAux(ts[1..], tg, cat, prev)
  }

  function AuxActions(ts: seq<Task>, tg: Targets, cat: Catalogue, prev: States): seq<Action> {
    if ts == [] then [] else TaskActions(ts[0], tg, cat, prev) + AuxActions(ts[1..], tg, cat, prev)
  }

  // ---- the plan ------------------------------------------------------------------------

  datatype Action = Promote(id: string) | WriteDrop(id: string) | DropFallback(id: string) | AddFallback(id: string)
                  | Repin(task: string, id: string, target: string) | DropAuxFallback(task: string, id: string)
                  | Backup | Restart

  /** Keys of the notifications: what makes two of them the same news. */
  datatype Key = UsageGrew | FallbackDegraded(id: string) | AuxMissing(id: string) | NoFreeModel
               | PrimaryMissing(id: string) | Promotion(id: string, to: string) | Rewrite(actions: multiset<Action>)
               | GuardBlind | RestartDone(at: int)

  datatype Note = Note(key: Key, critical: bool)

  datatype Plan = Plan(notes: seq<Note>, actions: seq<Action>, newConfig: Option<Config>)

  function UsageNotes(prevUsage: Option<real>, usage: Option<real>): seq<Note> {
    if usage.Some? && prevUsage.Some? && usage.value - prevUsage.value > 0.001 then [Note(UsageGrew, true)] else []
  }

  function Distinct(xs: seq<string>): seq<string> {
    if xs == [] then []
    else
      var d := Distinct(xs[..|xs| - 1]);
      if xs[|xs| - 1] in d then d else d + [xs[|xs| - 1]]
  }

  function Degraded(ids: seq<string>, cat: Catalogue, prev: States): seq<Note> {
    if ids == [] then []
    else
      var here := if FirstMiss(ids[0], cat, prev) then [Note(FallbackDegraded(ids[0]), false)] else [];
      here + Degraded(ids[1..], cat, prev)
  }

  function AuxNotes(ids: seq<string>, cat: Catalogue, prev: States): seq<Note> {
    if ids == [] then []
    else
      var here := if FirstMiss(ids[0], cat, prev) then [Note(AuxMissing(ids[0]), false)] else [];
      here + AuxNotes(ids[1..], cat, prev)
  }

  function Warnings(c: Config, cat: Catalogue, prev: States): seq<Note> {
    Degraded(FallbackModels(c.fallbacks), cat, prev) + AuxNotes(Distinct(AuxModels(c.aux)), cat, prev)
  }

  /** The winner, unless the primary is fine or missed for the first time. */
  function Chosen(c: Config, cat: Catalogue, prev: States): (w: Winner)
    ensures w.FromChain? ==> w.index < |c.fallbacks| && c.fallbacks[w.index].Usable?
                             && Classify(c.fallbacks[w.index].entry.model, cat) == Free
    ensures w.Curated? ==> w.id in FALLBACK_CANDIDATES && Classify(w.id, cat) == Free && w.id != c.primary.model
  {
    if Classify(c.primary.model, cat) == Free || FirstMiss(c.primary.model, cat, prev) then NoWinner
    else Successor(c, cat)
  }

  /** Does a change remove a model that costs money? */
  predicate RemovesPaid(a: Action, primary: string, cat: Catalogue) {
    match a
    case Promote(_) => Classify(primary, cat) == Paid
    case DropFallback(id) => Classify(id, cat) == Paid
    case Repin(_, id, _) => Classify(id, cat) == Paid
    case DropAuxFallback(_, id) => Classify(id, cat) == Paid
    case _ => false
  }

  predicate TouchesPaid(actions: seq<Action>, primary: string, cat: Catalogue) {
    exists a | a in actions :: RemovesPaid(a, primary, cat)
  }

  /** The chain after the cut and the top-up. */
  datatype Chain = Chain(fallbacks: seq<Fallback>, actions: seq<Action>)

  function AddActions(ids: seq<string>): seq<Action> {
    if ids == [] then [] else [AddFallback(ids[0])] + AddActions(ids[1..])
  }

  function NewChain(base: Config, oldPrimary: string, promoted: bool, cat: Catalogue, prev: States): Chain {
    var kept := DropDead(base.fallbacks, cat, prev);
    var drops := Dropped(base.fallbacks, cat, prev);
    if !promoted && drops == [] then Chain(kept, [])
    else
      var inChain := IdSet(FallbackModels(kept));
      var added := Additions(inChain, |FreeOf(inChain, cat)|, {base.primary.model, oldPrimary}, cat);
      Chain(kept + AsFallbacks(added), drops + AddActions(added))
  }

  function FreeModels(ids: seq<string>, cat: Catalogue): (r: seq<string>)
    ensures forall x | x in r :: x in ids && Classify(x, cat) == Free
    ensures r == [] ==> forall x | x in ids :: Classify(x, cat) != Free
  {
    if ids == [] then []
    else
      assert forall x | x in ids :: x == ids[0] || x in ids[1..];
      (if Classify(ids[0], cat) == Free then [ids[0]] else []) + FreeModels(ids[1..], cat)
  }

  function FirstWithImages(ids: seq<string>, cat: Catalogue): (r: Option<string>)
    ensures r.Some? ==> r.value in ids && r.value in cat && cat[r.value].images
  {
    if ids == [] then None
    else if ids[0] in cat && cat[ids[0]].images then Some(ids[0])
    else FirstWithImages(ids[1..], cat)
  }

  /** Text tasks follow the primary, image tasks the first that takes images;
      None when no free model is at hand. */
  function TargetsFor(primary: string, chain: seq<Fallback>, cat: Catalogue): Option<Targets> {
    var frees := FreeModels([primary] + FallbackModels(chain), cat);
    if frees == [] then None
    else
      var v := FirstWithImages(frees, cat);
      Some(Targets(frees[0], if v.Some? then v else FirstCandidate(cat, VISION_CANDIDATES, false, true, {})))
  }

  /** The configuration a run would write, and the actions that lead to it. */
  datatype Repair = Repair(config: Config, actions: seq<Action>)

  function Repaired(c: Config, w: Winner, cat: Catalogue, prev: States): Repair
    requires w.FromChain? ==> w.index < |c.fallbacks| && c.fallbacks[w.index].Usable?
  {
    var base := Promoted(c, w);
    var ch := NewChain(base, c.primary.model, w != NoWinner, cat, prev);
    var tg := TargetsFor(base.primary.model, ch.fallbacks, cat);
    var aux := if tg.Some? then RepairAux(base.aux, tg.value, cat, prev) else base.aux;
    var auxActions := if tg.Some? then AuxActions(base.aux, tg.value, cat, prev) else [];
    Repair(Config(base.primary, ch.fallbacks, aux),
           (if w != NoWinner then [Promote(base.primary.model)] else []) + ch.actions + auxActions)
  }

  function Announced(actions: seq<Action>, oldPrimary: string): seq<Action> {
    (if actions != [] && actions[0].Promote? then [actions[0], WriteDrop(oldPrimary)] + actions[1..] else actions)
    + [Backup, Restart]
  }

  function Pricing(c: Config, cat: Catalogue, prev: States): Plan {
    var st := Classify(c.primary.model, cat);
    var early := Warnings(c, cat, prev);
    if st != Free && Successor(c, cat) == NoWinner then Plan(early + [Note(NoFreeModel, true)], [], None)
    else
      var w := Chosen(c, cat, prev);
      var waits := if FirstMiss(c.primary.model, cat, prev) then [Note(PrimaryMissing(c.primary.model), false)] else [];
      var r := Repaired(c, w, cat, prev);
      if r.actions == [] then Plan(early + waits, [], None)
      else
        var key := if w != NoWinner then Promotion(c.primary.model, r.config.primary.model) else Rewrite(multiset(r.actions));
        Plan(early + waits + [Note(key, TouchesPaid(r.actions, c.primary.model, cat))],
             Announced(r.actions, c.primary.model), Some(r.config))
  }

  /** The whole policy; without a catalogue nothing is decided. */
  function Decide(c: Config, cat: Option<Catalogue>, prevUsage: Option<real>, usage: Option<real>, prev: States): Plan {
    var un := UsageNotes(prevUsage, usage);
    if cat == None then Plan(un, [], None)
    else
      var p := Pricing(c, cat.value, prev);
      p.(notes := un + p.notes)
  }
}
