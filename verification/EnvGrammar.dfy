/** What counts as a definition in a .env file, as a grammar: blanks, an optional
    `export`, the key, an equals sign, and a value, quoted or bare. */
module EnvGrammar {
  import opened Wrappers
  import opened Text
  import opened EnvText

  /** Blanks up to i, `export` and blanks up to k unless k is i, the key, blanks
      up to the equals sign at e, and blanks. */
  predicate LeadShape(lead: string, key: string, i: nat, k: nat, e: nat) {
    && i <= k && k + |key| <= e < |lead|
    && AllSpace(lead[..i])
    && (k == i || (i + 6 < k && lead[i..i + 6] == "export" && AllSpace(lead[i + 6..k])))
    && lead[k..k + |key|] == key && AllSpace(lead[k + |key|..e])
    && lead[e] == '=' && AllSpace(lead[e + 1..])
  }

  predicate IsLead(lead: string, key: string) {
    exists i, k, e | 0 <= i < |lead| && 0 <= k < |lead| && 0 <= e < |lead| :: LeadShape(lead, key, i, k, e)
  }

  predicate CommentFrom(v: string, k: nat) {
    k + 1 < |v| && (v[k] == ' ' || v[k] == '\t') && v[k + 1] == '#'
  }

  /** A quoted value ends at the next quote of its kind. */
  predicate Quoted(v: string) { v != "" && (v[0] == '"' || v[0] == '\'') && v[0] in v[1..] }

  /** A bare one ends before the blanks in front of a comment or of the end. */
  predicate BareShape(v: string, value: string) {
    && |value| <= |v| && v[..|value|] == value && (value == "" || !IsSpace(value[|value| - 1]))
    && (forall k | 0 <= k < |value| :: !CommentFrom(v, k))
    && exists c | |value| <= c <= |v| :: AllSpace(v[|value|..c]) && (c == |v| || CommentFrom(v, c))
  }

  predicate ValueShape(v: string, cr: string, h: Hit) {
    && v + cr == h.quote + h.value + h.quote + h.tail
    && if Quoted(v) then h.quote == [v[0]] && v[0] !in h.value else h.quote == "" && BareShape(v, h.value)
  }

  /** A trailing carriage return belongs to the line end. */
  predicate CutShape(rest: string, v: string, cr: string) {
    rest == v + cr && cr == if rest != "" && rest[|rest| - 1] == '\r' then "\r" else ""
  }

  lemma SkippedBlanks(s: string, i: nat)
    requires i <= |s|
    ensures AllSpace(s[i..SkipSpaces(s, i)])
  {
    hide IsSpace;
  }

  lemma KeyFound(s: string, i: nat, key: string) returns (e: nat)
    requires i <= |s| && KeyAt(s, i, key).Some?
    ensures var n := KeyAt(s, i, key).value;
            && i + |key| <= e < n <= |s|
            && s[i..i + |key|] == key && AllSpace(s[i + |key|..e]) && s[e] == '=' && AllSpace(s[e + 1..n])
  {
    hide IsSpace, SkipSpaces;
    e := SkipSpaces(s, i + |key|);
    SkippedBlanks(s, i + |key|);
    SkippedBlanks(s, e + 1);
  }

  lemma LeadFound(raw: string, key: string)
    requires LeadEnd(raw, key).Some?
    ensures IsLead(raw[..LeadEnd(raw, key).value], key)
  {
    hide IsSpace, KeyAt, SkipSpaces, AllSpace, StartsAt, LeadShape;
    var i := SkipSpaces(raw, 0);
    SkippedBlanks(raw, 0);
    var x := AfterWord(raw, i, "export");
    var exported := x.Some? && KeyAt(raw, x.value, key).Some?;
    var k := if exported then x.value else i;
    if exported { WordThere(raw, i, "export"); }
    var e := KeyFound(raw, k, key);
    ShapeHere(raw, key, i, k, e, LeadEnd(raw, key).value);
  }

  lemma WordThere(s: string, i: nat, w: string)
    requires AfterWord(s, i, w).Some?
    ensures var j := AfterWord(s, i, w).value; s[i..i + |w|] == w && AllSpace(s[i + |w|..j])
  {
    hide IsSpace;
    SkippedBlanks(s, i + |w|);
  }

  /** The shape, read off the whole line. */
  lemma ShapeHere(raw: string, key: string, i: nat, k: nat, e: nat, n: nat)
    requires i <= k && k + |key| <= e < n <= |raw| && AllSpace(raw[..i])
    requires k == i || (i + 6 < k && raw[i..i + 6] == "export" && AllSpace(raw[i + 6..k]))
    requires raw[k..k + |key|] == key && AllSpace(raw[k + |key|..e]) && raw[e] == '=' && AllSpace(raw[e + 1..n])
    ensures LeadShape(raw[..n], key, i, k, e)
  {
    hide AllSpace;
    assert raw[..n][..i] == raw[..i] && raw[..n][e] == raw[e];
    Inside(raw, n, k, k + |key|);
    Inside(raw, n, k + |key|, e);
    Inside(raw, n, e + 1, n);
    if k != i {
      Inside(raw, n, i, i + 6);
      Inside(raw, n, i + 6, k);
    }
  }

  lemma Inside(s: string, n: nat, a: nat, b: nat)
    requires a <= b <= n <= |s|
    ensures s[..n][a..b] == s[a..b]
  {
  }

  lemma BlanksAre(s: string, i: nat, j: nat)
    requires i <= j <= |s| && AllSpace(s[i..j])
    ensures forall k | i <= k < j :: IsSpace(s[k])
  {
    hide IsSpace;
    forall k | i <= k < j ensures IsSpace(s[k]) { assert s[k] == s[i..j][k - i]; }
  }

  /** The end of the key found where the grammar says. */
  lemma KeyThere(s: string, k: nat, key: string, e: nat)
    requires k + |key| <= e < |s| && s[k..k + |key|] == key && AllSpace(s[k + |key|..e]) && s[e] == '='
    ensures KeyAt(s, k, key).Some?
  {
    BlanksAre(s, k + |key|, e);
    SkipSpacesIs(s, k + |key|, e);
  }

  lemma FirstBlanks(s: string, i: nat)
    requires i < |s| && AllSpace(s[..i]) && !IsSpace(s[i])
    ensures SkipSpaces(s, 0) == i
  {
    assert forall j | 0 <= j < i :: IsSpace(s[..i][j]);
    SkipSpacesIs(s, 0, i);
  }

  lemma ExportThere(s: string, i: nat, k: nat)
    requires i + 6 < k < |s| && s[i..i + 6] == "export" && AllSpace(s[i + 6..k]) && !IsSpace(s[k])
    ensures AfterWord(s, i, "export") == Some(k)
  {
    BlanksAre(s, i + 6, k);
    SkipSpacesIs(s, i + 6, k);
  }

  lemma ShapeFound(raw: string, key: string, n: nat, i: nat, k: nat, e: nat)
    requires GoodKey(key) && n <= |raw| && LeadShape(raw[..n], key, i, k, e)
    ensures LeadEnd(raw, key).Some?
  {
    hide IsSpace, KeyAt, SkipSpaces, AllSpace, AfterWord;
    Inside(raw, n, k, k + |key|);
    Inside(raw, n, k + |key|, e);
    KeyThere(raw, k, key, e);
    assert raw[k] == raw[k..k + |key|][0] == key[0];
    NoSpaceFirst(key);
    assert raw[..n][..i] == raw[..i];
    if k == i {
      FirstBlanks(raw, i);
    } else {
      Inside(raw, n, i, i + 6);
      Inside(raw, n, i + 6, k);
      assert raw[i] == raw[i..i + 6][0] == 'e';
      LetterIsNoSpace();
      FirstBlanks(raw, i);
      ExportThere(raw, i, k);
    }
  }

  lemma NoSpaceFirst(key: string)
    requires GoodKey(key)
    ensures !IsSpace(key[0])
  {
  }

  lemma LetterIsNoSpace()
    ensures !IsSpace('e')
  {
  }

  /** A line is an active definition of the key if and only if it begins like
      one. */
  lemma DefinesIff(raw: string, key: string)
    requires GoodKey(key)
    ensures Assignment(raw, key).Some? <==> exists n | 0 <= n <= |raw| :: IsLead(raw[..n], key)
  {
    hide LeadEnd, LeadShape, GoodKey, Value;
    if LeadEnd(raw, key).Some? { LeadFound(raw, key); }
    if n :| 0 <= n <= |raw| && IsLead(raw[..n], key) {
      var i, k, e :| 0 <= i < |raw[..n]| && 0 <= k < |raw[..n]| && 0 <= e < |raw[..n]| && LeadShape(raw[..n], key, i, k, e);
      ShapeFound(raw, key, n, i, k, e);
    }
  }

  lemma {:induction false} TrimStops(s: string)
    ensures var e := TrimEnd(s, 0); e == 0 || !IsSpace(s[e - 1])
  {
    hide IsSpace;
    if s != "" && IsSpace(s[|s| - 1]) { TrimStops(s[..|s| - 1]); }
  }

  lemma QuotedIs(v: string)
    ensures Quoted(v) <==> v != "" && IsQuote(v[0]) && CharAt(v, v[0], 1) < |v|
  {
    if v != "" && IsQuote(v[0]) {
      var end := CharAt(v, v[0], 1);
      if end < |v| { assert v[1..][end - 1] == v[0]; }
      if j :| 0 <= j < |v| - 1 && v[1..][j] == v[0] { assert v[j + 1] == v[0]; }
    }
  }

  lemma QuotedFits(lead: string, v: string, cr: string)
    requires Quoted(v)
    ensures ValueShape(v, cr, Value(lead, v, cr))
  {
    QuotedIs(v);
    var h, end := Value(lead, v, cr), CharAt(v, v[0], 1);
    assert v == [v[0]] + v[1..end] + [v[0]] + v[end + 1..];
    assert v + cr == h.quote + h.value + h.quote + h.tail;
    forall k | 0 <= k < |h.value| ensures h.value[k] != v[0] { assert h.value[k] == v[k + 1]; }
  }

  lemma BareFits(v: string)
    ensures BareShape(v, v[..TrimEnd(v[..CommentAt(v, 0)], 0)])
  {
    hide IsSpace, TrimEnd;
    var c := CommentAt(v, 0);
    var e := TrimEnd(v[..c], 0);
    TrimStops(v[..c]);
    forall k | e <= k < c ensures IsSpace(v[k]) { assert v[k] == v[..c][k]; }
    forall k | 0 <= k < e ensures !CommentFrom(v, k) { assert !StartsComment(v, k); }
    assert e > 0 ==> v[e - 1] == v[..c][e - 1];
    assert c == |v| || CommentFrom(v, c);
    assert AllSpace(v[e..c]);
  }

  lemma ValueFits(lead: string, v: string, cr: string)
    ensures ValueShape(v, cr, Value(lead, v, cr))
  {
    hide TrimEnd, CommentAt, CharAt, Quoted, BareShape;
    QuotedIs(v);
    if Quoted(v) {
      QuotedFits(lead, v, cr);
    } else {
      BareFits(v);
      var value := v[..TrimEnd(v[..CommentAt(v, 0)], 0)];
      assert v + cr == "" + value + "" + (v[|value|..] + cr);
    }
  }

  lemma ValueKeepsLead(raw: string, key: string)
    ensures Assignment(raw, key).Some? ==> Assignment(raw, key).value.lead == raw[..LeadEnd(raw, key).value]
  {
    hide LeadEnd, CommentAt, TrimEnd, CharAt, CarriageReturn;
  }

  /** What is read of a definition: it begins where the grammar says, and its
      value is what stands between the quotes, or all up to a comment. */
  lemma DefinitionIs(raw: string, key: string) returns (v: string, cr: string)
    requires Assignment(raw, key).Some?
    ensures var h := Assignment(raw, key).value;
            && IsLead(h.lead, key) && |h.lead| <= |raw| && h.lead == raw[..|h.lead|]
            && CutShape(raw[|h.lead|..], v, cr) && (raw[|h.lead|..] == "" || !IsSpace(raw[|h.lead|]))
            && ValueShape(v, cr, h)
  {
    hide IsLead, IsSpace, ValueShape, Value, LeadEnd;
    var n := LeadEnd(raw, key).value;
    LeadFound(raw, key);
    ValueKeepsLead(raw, key);
    var rest := raw[n..];
    cr := CarriageReturn(rest);
    v := rest[..|rest| - |cr|];
    ValueFits(raw[..n], v, cr);
    assert rest == v + cr;
  }

  predicate DefinedTwice(ls: seq<string>, key: string) {
    exists i, j | 0 <= i < j < |ls| :: Defines(ls[i], key) && Defines(ls[j], key)
  }

  lemma {:induction false} HitsRise(ls: seq<string>, key: string, n: nat)
    requires n <= |ls|
    ensures Rising(Hits(ls, key, n))
  {
    hide Defines, Rising;
    if n == 0 {
      NothingRises();
    } else {
      HitsRise(ls, key, n - 1);
      OneMoreRises(Hits(ls, key, n - 1), n - 1);
    }
  }

  predicate Rising(hits: seq<nat>) { forall a, b | 0 <= a < b < |hits| :: hits[a] < hits[b] }

  lemma NothingRises()
    ensures Rising([])
  {
  }

  lemma OneMoreRises(hits: seq<nat>, n: nat)
    requires Rising(hits) && forall k | 0 <= k < |hits| :: hits[k] < n
    ensures Rising(hits + [n])
  {
  }

  lemma TwoHits(ls: seq<string>, key: string)
    ensures |Hits(ls, key, |ls|)| > 1 <==> DefinedTwice(ls, key)
  {
    hide Defines, Hits;
    var hits := Hits(ls, key, |ls|);
    HitsRise(ls, key, |ls|);
    if |hits| > 1 {
      assert hits[0] in hits && hits[1] in hits;
      assert Defines(ls[hits[0]], key) && Defines(ls[hits[1]], key);
    }
    if i, j :| 0 <= i < j < |ls| && Defines(ls[i], key) && Defines(ls[j], key) {
      HitsMissNone(ls, key, |ls|, i);
      HitsMissNone(ls, key, |ls|, j);
      assert |hits| > 1 by { TwoMembers(hits, i, j); }
    }
  }

  lemma TwoMembers(hits: seq<nat>, i: nat, j: nat)
    requires i in hits && j in hits && i != j
    ensures |hits| > 1
  {
  }

  /** Nothing is written if and only if the key is defined on more than one
      line. */
  lemma TwoDefinitionsRefused(text: string, key: string, value: Option<string>)
    ensures RewriteEnv(text, key, value) == None <==> DefinedTwice(Lines(text), key)
  {
    hide DefinedTwice, Hits, Lines, Assigned, Appended, JoinLines, Unlines;
    TwoHits(Lines(text), key);
  }
}
