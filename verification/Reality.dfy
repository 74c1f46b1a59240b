/** The panel's streamSettings as a parsed structure, and the pair
    read_reality / apply_reality_changes over it
    (scripts/rotate_reality_dest.py). */
module Reality {
  import opened Wrappers
  import opened Names
  import opened Planning

  /** realitySettings.settings: the share-link hint and whatever else is there. */
  datatype Inner = Inner(serverName: Option<string>, rest: map<string, string>)

  /** realitySettings: its scalar keys (dest, target, keys, ...), serverNames
      and, when the panel has one, the inner settings block. */
  datatype RealitySettings = RealitySettings(scalars: map<string, string>, serverNames: seq<string>,
                                             inner: Option<Inner>)

  datatype Stream = Stream(reality: Option<RealitySettings>, rest: map<string, string>)

  const DEST_KEYS: set<string> := {"dest", "target"}

  function OnlyKeys(m: map<string, string>, keys: set<string>): map<string, string> {
    map k | k in m && k in keys :: m[k]
  }

  function ReadReality(s: Stream): PanelValues {
    match s.reality
    case None => PanelValues(map[], [], None)
    case Some(rs) =>
      PanelValues(OnlyKeys(rs.scalars, DEST_KEYS), rs.serverNames,
                  if rs.inner.Some? then rs.inner.value.serverName else None)
  }

  /** None stands for the ValueError raised when realitySettings is missing. */
  function ApplyRealityChanges(s: Stream, t: PanelValues): Option<Stream> {
    match s.reality
    case None => None
    case Some(rs) =>
      var inner := if t.ssn.Some? && rs.inner.Some?
                   then Some(rs.inner.value.(serverName := t.ssn)) else rs.inner;
      Some(s.(reality := Some(RealitySettings(rs.scalars + t.dest, t.names, inner))))
  }

  /** The values can be put back as they were read: the target names exactly
      the dest keys that matter, and the inner hint can be brought to its
      target value (None cannot erase one). */
  predicate Writable(s: Stream, t: PanelValues) {
    && s.reality.Some?
    && t.dest.Keys <= DEST_KEYS
    && ReadReality(s).dest.Keys <= t.dest.Keys
    && (t.ssn.Some? ==> s.reality.value.inner.Some?)
    && (t.ssn == None ==> ReadReality(s).ssn == None)
  }

  /** Put then get: reading back after a write gives the written values
      exactly when the target was writable. */
  lemma PutGet(s: Stream, t: PanelValues)
    requires s.reality.Some?
    ensures ApplyRealityChanges(s, t).Some?
    ensures ReadReality(ApplyRealityChanges(s, t).value) == t <==> Writable(s, t)
  {
    var s' := ApplyRealityChanges(s, t).value;
    var got := ReadReality(s');
    var scalars := s.reality.value.scalars;
    assert got.dest == OnlyKeys(scalars + t.dest, DEST_KEYS);
    if Writable(s, t) {
      assert OnlyKeys(scalars + t.dest, DEST_KEYS) == t.dest by {
        forall k | k in scalars && k in DEST_KEYS ensures k in t.dest {
          assert k in ReadReality(s).dest;
        }
      }
    }
    if got == t {
      forall k | k in t.dest ensures k in DEST_KEYS { assert k in got.dest; }
      forall k | k in ReadReality(s).dest ensures k in t.dest { assert k in got.dest; }
    }
  }

  /** Everything a rotation does not own survives a write: the other scalar
      keys (private key, short ids, ...), the rest of the inner block and the
      rest of streamSettings. */
  lemma PutFrame(s: Stream, t: PanelValues)
    requires ApplyRealityChanges(s, t).Some?
    ensures var s' := ApplyRealityChanges(s, t).value;
            && s'.rest == s.rest
            && (forall k | k !in t.dest.Keys ::
                  (k in s'.reality.value.scalars <==> k in s.reality.value.scalars)
                  && (k in s.reality.value.scalars ==>
                        s'.reality.value.scalars[k] == s.reality.value.scalars[k]))
            && (s'.reality.value.inner.Some? <==> s.reality.value.inner.Some?)
            && (s.reality.value.inner.Some? ==>
                  s'.reality.value.inner.value.rest == s.reality.value.inner.value.rest)
  {
    var scalars, scalars' := s.reality.value.scalars, ApplyRealityChanges(s, t).value.reality.value.scalars;
    assert scalars' == scalars + t.dest;
  }

  /** Values read from one panel and planned from them name the same dest keys
      and agree on whether there is an inner hint, so either can be written
      over the other. */
  predicate Interchangeable(a: PanelValues, b: PanelValues) {
    && a.dest.Keys == b.dest.Keys
    && a.dest.Keys <= DEST_KEYS
    && (a.ssn.Some? <==> b.ssn.Some?)
  }

  lemma PutOverOther(s: Stream, t: PanelValues)
    requires s.reality.Some? && Interchangeable(ReadReality(s), t)
    ensures ApplyRealityChanges(s, t).Some? && ApplyRealityChanges(s, t).value.reality.Some?
    ensures ReadReality(ApplyRealityChanges(s, t).value) == t
  {
    PutGet(s, t);
  }

  lemma PlanInterchangeable(cur: Layers, sni: string, dest: string, keepOld: bool)
    requires cur.panel.dest != map[] && cur.panel.dest.Keys <= DEST_KEYS
    ensures Interchangeable(cur.panel, PlanTarget(cur, sni, dest, keepOld).panel)
  {
  }
}
