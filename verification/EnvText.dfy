/** The .env file as text: _env_assignment, parse_env_value and
    rewrite_env_text (scripts/rotate_reality_dest.py). */
module EnvText {
  import opened Wrappers
  import opened Text

  // ---- one line ------------------------------------------------------------------

  predicate GoodKey(key: string) {
    key != "" && NoSpace(key) && '=' !in key && OneLine(key)
  }

  /** The key, an equals sign and white space around it; the position behind. */
  function KeyAt(s: string, i: nat, key: string): (r: Option<nat>)
    requires i <= |s|
    ensures r.Some? ==> i < r.value <= |s| && (r.value < |s| ==> !IsSpace(s[r.value]))
  {
    if !StartsAt(s, i, key) then None
    else
      var j := SkipSpaces(s, i + |key|);
      if j < |s| && s[j] == '=' then Some(SkipSpaces(s, j + 1)) else None
  }

  /** Where the value of an active definition begins: behind an indent, an
      optional `export`, the key and the equals sign. */
  function LeadEnd(raw: string, key: string): (r: Option<nat>)
    ensures r.Some? ==> 0 < r.value <= |raw| && (r.value < |raw| ==> !IsSpace(raw[r.value]))
  {
    var i := SkipSpaces(raw, 0);
    var x := AfterWord(raw, i, "export");
    var y := if x.Some? then KeyAt(raw, x.value, key) else None;
    if y.Some? then y else KeyAt(raw, i, key)
  }

  predicate IsQuote(c: char) { c == '"' || c == '\'' }

  /** The first c from position i on, or the end. */
  function CharAt(s: string, c: char, i: nat): (j: nat)
    requires i <= |s|
    ensures i <= j <= |s|
    ensures forall k | i <= k < j :: s[k] != c
    ensures j < |s| ==> s[j] == c
    decreases |s| - i
  {
    if i < |s| && s[i] != c then CharAt(s, c, i + 1) else i
  }

  predicate StartsComment(s: string, k: nat)
    requires k < |s|
  {
    (s[k] == ' ' || s[k] == '\t') && k + 1 < |s| && s[k + 1] == '#'
  }

  /** The first comment from position i on, or the end. */
  function CommentAt(s: string, i: nat): (j: nat)
    requires i <= |s|
    ensures i <= j <= |s|
    ensures forall k | i <= k < j :: !StartsComment(s, k)
    ensures j < |s| ==> StartsComment(s, j)
    decreases |s| - i
  {
    if i < |s| && !StartsComment(s, i) then CommentAt(s, i + 1) else i
  }

  /** A definition taken apart: what stands before the value, the value, its
      quote character if any, and what stands behind. */
  datatype Hit = Hit(lead: string, value: string, quote: string, tail: string)

  function Value(lead: string, v: string, cr: string): Hit {
    if v != "" && IsQuote(v[0]) && CharAt(v, v[0], 1) < |v| then
      var end := CharAt(v, v[0], 1);
      Hit(lead, v[1..end], [v[0]], v[end + 1..] + cr)
    else
      var value := v[..TrimEnd(v[..CommentAt(v, 0)], 0)];
      Hit(lead, value, "", v[|value|..] + cr)
  }

  function CarriageReturn(rest: string): (cr: string)
    ensures |cr| <= |rest|
  {
    if rest != "" && rest[|rest| - 1] == '\r' then "\r" else ""
  }

  function Assignment(raw: string, key: string): Option<Hit> {
    var n := LeadEnd(raw, key);
    if n == None then None
    else
      var rest := raw[n.value..];
      var cr := CarriageReturn(rest);
      Some(Value(raw[..n.value], rest[..|rest| - |cr|], cr))
  }

  /** The line with another value. */
  function Assigned(h: Hit, value: string): string {
    h.lead + h.quote + value + h.quote + h.tail
  }

  /** Values the rotation writes: host names. */
  predicate CleanValue(w: string) {
    w != "" && NoSpace(w) && OneLine(w) && '"' !in w && '\'' !in w
  }

  // ---- laws of one line -----------------------------------------------------------------

  /** Nothing of a line is lost when it is taken apart. */
  lemma Reassembled(raw: string, key: string)
    requires Assignment(raw, key).Some?
    ensures Assigned(Assignment(raw, key).value, Assignment(raw, key).value.value) == raw
  {
    hide IsSpace, LeadEnd, Value, Assigned, CarriageReturn;
    var n := LeadEnd(raw, key).value;
    var rest := raw[n..];
    var cr := CarriageReturn(rest);
    var v := rest[..|rest| - |cr|];
    CutReturn(rest);
    ValueReassembled(raw[..n], v, cr);
    assert raw[..n] + v + cr == raw[..n] + rest == raw;
  }

  lemma ValueReassembled(lead: string, v: string, cr: string)
    ensures var h := Value(lead, v, cr); h.lead == lead && Assigned(h, h.value) == lead + v + cr
  {
    hide IsSpace, IsQuote, CommentAt, Assigned;
    var h := Value(lead, v, cr);
    if h.quote != "" {
      var end := CharAt(v, v[0], 1);
      assert v == [v[0]] + v[1..end] + [v[0]] + v[end + 1..];
      AssignedTo(h, h.value, v[end + 1..], cr);
    } else {
      assert v == "" + v[..|h.value|] + "" + v[|h.value|..];
      AssignedTo(h, h.value, v[|h.value|..], cr);
    }
  }

  lemma AssignedTo(h: Hit, w: string, rest: string, cr: string)
    requires h.tail == rest + cr
    ensures Assigned(h, w) == h.lead + (h.quote + w + h.quote + rest) + cr
  {
  }

  /** What follows the key. */
  lemma BehindKey(s: string, i: nat, key: string)
    requires i <= |s| && KeyAt(s, i, key).Some?
    ensures i + |key| < |s| && (IsSpace(s[i + |key|]) || s[i + |key|] == '=')
    ensures forall x | i <= x < i + |key| :: s[x] == key[x - i]
  {
    hide IsSpace;
    forall x | i <= x < i + |key| ensures s[x] == key[x - i] { assert s[x] == s[i..i + |key|][x - i]; }
  }

  /** `export` and the bare key never both lead to an equals sign. */
  lemma NotBoth(s: string, i: nat, key: string)
    requires i <= |s| && GoodKey(key) && KeyAt(s, i, key).Some? && AfterWord(s, i, "export").Some?
    ensures KeyAt(s, AfterWord(s, i, "export").value, key).None?
  {
    hide IsSpace;
    var j := AfterWord(s, i, "export").value;
    var n, e := |key|, "export";
    BehindKey(s, i, key);
    assert forall k | 0 <= k < 6 :: s[i + k] == s[i..i + 6][k] == e[k];
    assert forall x | i <= x < i + n :: !IsSpace(s[x]);
    assert IsSpace(s[i + 6]);
    assert n < 6 ==> s[i + n] == e[n];
    NoSpaceInExport();
    assert n == 6;
    assert s[j] == '=' && key[0] != '=';
    FirstOfWord(s, j, key);
  }

  lemma FirstOfWord(s: string, i: nat, w: string)
    requires w != ""
    ensures StartsAt(s, i, w) ==> s[i] == w[0]
  {
    if StartsAt(s, i, w) { assert s[i..i + |w|][0] == w[0]; }
  }

  lemma NoSpaceInExport()
    ensures forall n | 0 <= n < 6 :: !IsSpace("export"[n]) && "export"[n] != '='
  {
  }

  lemma KeyAtStable(a: string, b: string, i: nat, key: string, n: nat)
    requires i <= |a| && KeyAt(a, i, key) == Some(n)
    requires n <= |b| && a[..n] == b[..n] && (n < |b| ==> !IsSpace(b[n]))
    ensures i <= |b| && KeyAt(b, i, key) == Some(n)
  {
    hide IsSpace;
    var j := SkipSpaces(a, i + |key|);
    StartsAtPrefix(a, b, i, key, n);
    SkipSpacesPrefix(a, b, i + |key|, n);
    assert forall k | 0 <= k < n :: a[k] == a[..n][k] == b[..n][k] == b[k];
    SkipSpacesIs(b, j + 1, n);
  }

  /** The lead of a definition does not depend on what follows it. */
  lemma LeadStable(a: string, b: string, key: string, n: nat)
    requires GoodKey(key) && LeadEnd(a, key) == Some(n)
    requires n <= |b| && a[..n] == b[..n] && (n < |b| ==> !IsSpace(b[n]))
    ensures LeadEnd(b, key) == Some(n)
  {
    hide IsSpace, KeyAt, AfterWord, GoodKey, StartsAt;
    var i := SkipSpaces(a, 0);
    SkipSpacesPrefix(a, b, 0, n);
    var x := AfterWord(a, i, "export");
    if x.Some? && KeyAt(a, x.value, key).Some? {
      AfterWordStable(a, b, i, "export", n);
      KeyAtStable(a, b, x.value, key, n);
    } else {
      KeyAtStable(a, b, i, key, n);
      if AfterWord(b, i, "export").Some? { NotBoth(b, i, key); }
    }
  }

  lemma {:induction false} CharIs(s: string, c: char, i: nat, j: nat)
    requires i <= j <= |s| && (forall k | i <= k < j :: s[k] != c) && (j < |s| ==> s[j] == c)
    ensures CharAt(s, c, i) == j
    decreases j - i
  {
    if i < j { CharIs(s, c, i + 1, j); }
  }

  lemma {:induction false} CommentIs(s: string, i: nat, j: nat)
    requires i <= j <= |s| && (forall k | i <= k < j :: !StartsComment(s, k)) && (j < |s| ==> StartsComment(s, j))
    ensures CommentAt(s, i) == j
    decreases j - i
  {
    hide StartsComment;
    if i < j { CommentIs(s, i + 1, j); }
  }

  lemma {:induction false} TrimIs(s: string, e: nat)
    requires e <= |s| && (forall k | e <= k < |s| :: IsSpace(s[k])) && (0 < e ==> !IsSpace(s[e - 1]))
    ensures TrimEnd(s, 0) == e
    decreases |s|
  {
    hide IsSpace;
    if e < |s| {
      TrimIs(s[..|s| - 1], e);
    }
  }

  /** The part of a line behind its lead with another value in it. */
  predicate Again(lead: string, v: string, cr: string, w: string, v': string) {
    && v' != "" && !IsSpace(v'[0])
    && (v'[|v'| - 1] == '\r' ==> v != "" && v[|v| - 1] == '\r')
    && Value(lead, v', cr) == Value(lead, v, cr).(value := w)
  }

  /** A clean value put in place of the old one is what is read back; the
      lead, the quote and the tail stay. */
  lemma ValueAgain(lead: string, v: string, cr: string, w: string) returns (v': string)
    requires CleanValue(w) && (v != "" ==> !IsSpace(v[0]))
    ensures Again(lead, v, cr, w, v')
    ensures var h := Value(lead, v, cr); Assigned(h, w) == lead + v' + cr
  {
    hide IsSpace, CleanValue, CommentAt, Again, Assigned;
    var h := Value(lead, v, cr);
    if h.quote != "" {
      v' := QuotedAgain(lead, v, cr, w);
      AssignedTo(h, w, v[CharAt(v, v[0], 1) + 1..], cr);
    } else {
      v' := BareAgain(lead, v, cr, w);
      AssignedTo(h, w, v[|h.value|..], cr);
      assert "" + w + "" + v[|h.value|..] == v';
    }
  }

  lemma QuotedAgain(lead: string, v: string, cr: string, w: string) returns (v': string)
    requires CleanValue(w) && v != "" && IsQuote(v[0]) && CharAt(v, v[0], 1) < |v|
    ensures Again(lead, v, cr, w, v')
    ensures v' == [v[0]] + w + [v[0]] + v[CharAt(v, v[0], 1) + 1..]
  {
    var q, end := v[0], CharAt(v, v[0], 1);
    v' := [q] + w + [q] + v[end + 1..];
    forall k | 1 <= k < |w| + 1 ensures v'[k] != q { assert v'[k] == w[k - 1]; }
    CharIs(v', q, 1, |w| + 1);
    assert v'[1..|w| + 1] == w && v'[|w| + 2..] == v[end + 1..];
  }

  lemma BareAgain(lead: string, v: string, cr: string, w: string) returns (v': string)
    requires CleanValue(w) && (v != "" ==> !IsSpace(v[0]))
    requires Value(lead, v, cr).quote == ""
    ensures var n := |Value(lead, v, cr).value|; n <= |v| && v' == w + v[n..]
    ensures Again(lead, v, cr, w, v')
  {
    hide IsSpace;
    var h := Value(lead, v, cr);
    var cut := CommentAt(v, 0);
    var n, m := |h.value|, |w|;
    v' := w + v[n..];
    assert n <= cut;
    var cut' := m + cut - n;
    forall k | 0 <= k < cut' ensures !StartsComment(v', k) { NoCommentBefore(v, cut, n, w, k); }
    if cut < |v| {
      assert v'[cut'] == v[cut] && v'[cut' + 1] == v[cut + 1];
    }
    CommentIs(v', 0, cut');
    var s := v'[..cut'];
    assert s[m - 1] == w[m - 1];
    forall k | m <= k < |s| ensures IsSpace(s[k]) { assert s[k] == v[k - m + n] == v[..cut][k - m + n]; }
    TrimIs(s, m);
    assert v'[..m] == w && v'[m..] == v[n..];
    assert v'[0] == w[0] && !IsQuote(w[0]);
    LastOf(w, v[n..]);
  }

  lemma LastOf(w: string, t: string)
    requires CleanValue(w)
    ensures var x := w + t;
            x[|x| - 1] == '\r' ==> t != "" && t[|t| - 1] == '\r'
  {
    var x := w + t;
    if t == "" { assert x == w; }
  }

  lemma NoCommentBefore(v: string, cut: nat, n: nat, w: string, k: nat)
    requires n <= cut <= |v| && NoSpace(w) && w != "" && k < |w| + cut - n
    requires forall i | 0 <= i < cut :: !StartsComment(v, i)
    ensures !StartsComment(w + v[n..], k)
  {
    var v', m := w + v[n..], |w|;
    if k < m {
      assert v'[k] == w[k] && !IsSpace(w[k]);
    } else {
      assert v'[k] == v[k - m + n];
      if k + 1 < |v'| { assert v'[k + 1] == v[k + 1 - m + n]; }
      assert !StartsComment(v, k - m + n);
    }
  }

  /** Put then get on one line, with everything around the value unchanged. */
  lemma AssignedAgain(raw: string, key: string, w: string)
    requires GoodKey(key) && Assignment(raw, key).Some? && CleanValue(w)
    ensures var h := Assignment(raw, key).value;
            Assignment(Assigned(h, w), key) == Some(h.(value := w))
  {
    hide IsSpace, LeadEnd, Value, CleanValue, GoodKey, CarriageReturn, Assigned;
    var n := LeadEnd(raw, key).value;
    var lead, rest := raw[..n], raw[n..];
    var cr := CarriageReturn(rest);
    var v := rest[..|rest| - |cr|];
    var h := Value(lead, v, cr);
    if v != "" { assert v[0] == raw[n]; }
    var v' := ValueAgain(lead, v, cr, w);
    assert rest == v + cr by { CutReturn(rest); }
    var line := lead + (v' + cr);
    assert Assigned(h, w) == line;
    assert line[..n] == lead && line[n..] == v' + cr && line[n] == v'[0];
    LeadStable(raw, line, key, n);
    SameReturn(v, v', cr, rest);
  }

  lemma CutReturn(rest: string)
    ensures var cr := CarriageReturn(rest); rest[..|rest| - |cr|] + cr == rest
  {
  }

  lemma SameReturn(v: string, v': string, cr: string, rest: string)
    requires rest == v + cr && cr == CarriageReturn(rest) && v' != ""
    requires v'[|v'| - 1] == '\r' ==> v != "" && v[|v| - 1] == '\r'
    ensures CarriageReturn(v' + cr) == cr
    ensures (v' + cr)[..|v' + cr| - |cr|] == v'
  {
    if cr == "" {
      assert v' + cr == v' && rest == v;
    } else {
      assert (v' + cr)[|v'|] == '\r';
    }
  }

  /** A definition of nothing, as it would be appended. */
  lemma EmptyDefinition(key: string)
    requires GoodKey(key)
    ensures Assignment(key + "=", key) == Some(Hit(key + "=", "", "", ""))
  {
    hide IsSpace, AfterWord;
    var n := |key| + 1;
    var a := key + "=";
    assert a[..|key|] == key && a[|key|] == '=' && !IsSpace('=') by { EqualsIsNoSpace(); }
    assert a[0] == key[0];
    SkipSpacesIs(a, 0, 0);
    SkipSpacesIs(a, |key|, |key|);
    SkipSpacesIs(a, n, n);
    assert KeyAt(a, 0, key) == Some(n);
    if AfterWord(a, 0, "export").Some? { NotBoth(a, 0, key); }
    assert LeadEnd(a, key) == Some(n);
    assert a[n..] == "" && a[..n] == a;
    EmptyValue(a);
  }

  lemma EmptyValue(lead: string)
    ensures Value(lead, "", "") == Hit(lead, "", "", "")
  {
    assert CommentAt("", 0) == 0 && ""[..0] == "";
    TrimIs("", 0);
  }

  lemma AppendedLine(key: string, w: string)
    requires GoodKey(key) && CleanValue(w)
    ensures Assignment(key + "=" + w, key) == Some(Hit(key + "=", w, "", ""))
    ensures OneLine(key + "=" + w)
  {
    hide IsSpace, NoSpace, Assignment;
    EmptyDefinition(key);
    AssignedAgain(key + "=", key, w);
    assert Assigned(Hit(key + "=", "", "", ""), w) == key + "=" + w;
  }

  lemma EqualsIsNoSpace()
    ensures !IsSpace('=')
  {
  }

  // ---- the whole file ----------------------------------------------------------------------------

  predicate Defines(raw: string, key: string) { Assignment(raw, key).Some? }

  /** The lines that define the key among the first n, in order. */
  function Hits(ls: seq<string>, key: string, n: nat): (r: seq<nat>)
    requires n <= |ls|
    ensures forall k | 0 <= k < |r| :: r[k] < n
    ensures forall i | i in r :: i < n && Defines(ls[i], key)
  {
    hide Defines;
    if n == 0 then []
    else if Defines(ls[n - 1], key) then Hits(ls, key, n - 1) + [n - 1]
    else Hits(ls, key, n - 1)
  }

  lemma {:induction false} HitsMissNone(ls: seq<string>, key: string, n: nat, i: nat)
    requires i < n <= |ls| && Defines(ls[i], key)
    ensures i in Hits(ls, key, n)
  {
    hide Defines;
    if i < n - 1 {
      HitsMissNone(ls, key, n - 1, i);
      assert Hits(ls, key, n - 1) <= Hits(ls, key, n);
    }
  }

  /** The last value among the first n lines, and how many define one. */
  function ParseUpTo(ls: seq<string>, key: string, n: nat): (Option<string>, nat)
    requires n <= |ls|
  {
    if n == 0 then (None, 0)
    else
      var before := ParseUpTo(ls, key, n - 1);
      var hit := Assignment(ls[n - 1], key);
      if hit.Some? then (Some(hit.value.value), before.1 + 1) else before
  }

  function ParseEnv(text: string, key: string): (Option<string>, nat) {
    ParseUpTo(Lines(text), key, |Lines(text)|)
  }

  /** None stands for the ValueError of a key defined more than once. */
  function RewriteEnv(text: string, key: string, value: Option<string>): Option<string> {
    var ls := Lines(text);
    var hits := Hits(ls, key, |ls|);
    if |hits| > 1 then None
    else if hits == [] then Some(if value.None? then text else Appended(text, key, value.value))
    else
      var i := hits[0];
      if value.None? then Some(JoinLines(ls[..i] + ls[i + 1..]))
      else Some(Unlines(ls[i := Assigned(Assignment(ls[i], key).value, value.value)]))
  }

  /** An empty list of lines joins to nothing. */
  function JoinLines(ls: seq<string>): string {
    if ls == [] then "" else Unlines(ls)
  }

  predicate Terminated(text: string) { text == "" || text[|text| - 1] == '\n' }

  function Terminate(text: string): string { if Terminated(text) then text else text + "\n" }

  function Appended(text: string, key: string, value: string): string {
    Terminate(text) + (key + "=" + value + "\n")
  }

  /** Line i is the only one to define the key. */
  predicate Only(ls: seq<string>, key: string, i: nat) {
    i < |ls| && Defines(ls[i], key) && forall k | 0 <= k < |ls| && k != i :: !Defines(ls[k], key)
  }

  lemma {:induction false} CountIsHits(ls: seq<string>, key: string, n: nat)
    requires n <= |ls|
    ensures ParseUpTo(ls, key, n).1 == |Hits(ls, key, n)|
    ensures ParseUpTo(ls, key, n).0 == None <==> Hits(ls, key, n) == []
  {
    hide Assignment;
    if n > 0 { CountIsHits(ls, key, n - 1); }
  }

  lemma {:induction false} OnlyIsRead(ls: seq<string>, key: string, i: nat, n: nat)
    requires Only(ls, key, i) && n <= |ls|
    ensures ParseUpTo(ls, key, n) == if i < n then (Some(Assignment(ls[i], key).value.value), 1) else (None, 0)
    ensures Hits(ls, key, n) == if i < n then [i] else []
  {
    hide Assignment;
    if n > 0 { OnlyIsRead(ls, key, i, n - 1); }
  }

  lemma {:induction false} NoneIsRead(ls: seq<string>, key: string, n: nat)
    requires n <= |ls| && forall k | 0 <= k < |ls| :: !Defines(ls[k], key)
    ensures ParseUpTo(ls, key, n) == (None, 0) && Hits(ls, key, n) == []
  {
    hide Assignment;
    if n > 0 { NoneIsRead(ls, key, n - 1); }
  }

  /** One definition: where it is. */
  lemma TheOnly(ls: seq<string>, key: string) returns (i: nat)
    requires |Hits(ls, key, |ls|)| == 1
    ensures Only(ls, key, i) && Hits(ls, key, |ls|) == [i]
  {
    hide Defines, Hits;
    i := Hits(ls, key, |ls|)[0];
    assert Hits(ls, key, |ls|) == [i];
    forall k | 0 <= k < |ls| && Defines(ls[k], key) ensures k == i { HitsMissNone(ls, key, |ls|, k); }
  }

  /** Lines without a definition, the new one, and what the end of the text
      leaves behind it. */
  lemma AppendedLines(text: string, key: string, w: string)
    requires GoodKey(key) && OneLine(w)
    ensures Lines(Appended(text, key, w))
            == Lines(Terminate(text))[..|Lines(Terminate(text))| - 1] + [key + "=" + w, ""]
    ensures Lines(Terminate(text))[|Lines(Terminate(text))| - 1] == ""
    ensures forall k | 0 <= k < |Lines(Terminate(text))| - 1 :: Lines(Terminate(text))[k] in Lines(text)
  {
    hide GoodKey, IsSpace;
    var t, line := Terminate(text), key + "=" + w;
    assert OneLine(line) by { KeyIsOneLine(key); }
    LinesPrefix(line, "\n");
    NoLines();
    assert line + "" == line && Lines(line + "\n") == [line, ""];
    LinesConcat(t, line + "\n");
    LastOfTerminated(text);
    assert "" + line == line;
  }

  lemma LastOfTerminated(text: string)
    ensures var ls := Lines(Terminate(text));
            && ls[|ls| - 1] == ""
            && forall k | 0 <= k < |ls| - 1 :: ls[k] in Lines(text)
  {
    hide OneLine, Lines;
    assert Lines("") == [""] && Lines("\n") == ["", ""] by { NoLines(); }
    var from := Lines(text);
    if !Terminated(text) {
      LinesConcat(text, "\n");
      var ls := Lines(text + "\n");
      assert from[|from| - 1] + "" == from[|from| - 1];
      assert ls == from[..|from| - 1] + [from[|from| - 1]] + [""];
      assert forall k | 0 <= k < |ls| - 1 :: ls[k] == from[k];
    } else if text != "" {
      var p := text[..|text| - 1];
      assert text == p + "\n";
      LinesConcat(p, "\n");
    }
  }

  lemma NoLines()
    ensures Lines("") == [""] && Lines("\n") == ["", ""]
  {
    assert "\n"[1..] == "";
    assert Lines("\n") == [""] + Lines("");
  }

  lemma DefinesIs(raw: string, key: string)
    ensures Defines(raw, key) <==> Assignment(raw, key).Some?
  {
  }

  lemma NotDefined(ls: seq<string>, key: string)
    requires ParseUpTo(ls, key, |ls|).1 == 0
    ensures forall k | 0 <= k < |ls| :: !Defines(ls[k], key)
  {
    hide Defines, Hits, ParseUpTo;
    CountIsHits(ls, key, |ls|);
    forall k | 0 <= k < |ls| && Defines(ls[k], key) ensures false { HitsMissNone(ls, key, |ls|, k); }
  }

  lemma NothingDefines(key: string)
    requires GoodKey(key)
    ensures Assignment("", key) == None
  {
    hide IsSpace;
    assert SkipSpaces("", 0) == 0;
  }

  lemma AppendedOnly(text: string, key: string, w: string)
    requires GoodKey(key) && CleanValue(w) && ParseEnv(text, key).1 == 0
    ensures var ls := Lines(Appended(text, key, w));
            && |ls| >= 2 && Only(ls, key, |ls| - 2)
            && ls[|ls| - 2] == key + "=" + w
            && ls[..|ls| - 2] + [""] == Lines(Terminate(text))
            && ls[|ls| - 1] == ""
  {
    hide Defines, Assignment, CleanValue, GoodKey, Appended, Terminate, Lines, ParseUpTo, OneLine;
    assert OneLine(w) by { CleanIsOneLine(w); }
    AppendedLines(text, key, w);
    AppendedLine(key, w);
    NothingDefines(key);
    assert !Defines("", key) && Defines(key + "=" + w, key) by { DefinesIs("", key); DefinesIs(key + "=" + w, key); }
    var ls, from := Lines(Appended(text, key, w)), Lines(text);
    var ts := Lines(Terminate(text));
    NotDefined(from, key);
    forall k | 0 <= k < |ls| && k != |ls| - 2 ensures !Defines(ls[k], key) {
      if k < |ls| - 2 {
        assert ls[k] == ts[k];
        var j :| 0 <= j < |from| && from[j] == ls[k];
      }
    }
    assert ls[..|ls| - 2] == ts[..|ts| - 1];
  }

  lemma KeyIsOneLine(key: string)
    requires GoodKey(key)
    ensures OneLine(key)
  {
  }

  lemma CleanIsOneLine(w: string)
    requires CleanValue(w)
    ensures OneLine(w)
  {
  }

  /** Get after put: whatever was there once or not at all, a clean value set
      is the one value read back. */
  lemma SetThenParse(text: string, key: string, w: string)
    requires GoodKey(key) && CleanValue(w) && ParseEnv(text, key).1 <= 1
    ensures RewriteEnv(text, key, Some(w)).Some?
    ensures ParseEnv(RewriteEnv(text, key, Some(w)).value, key) == (Some(w), 1)
  {
    hide Assignment, CleanValue, GoodKey, Appended, Assigned;
    var ls := Lines(text);
    CountIsHits(ls, key, |ls|);
    if Hits(ls, key, |ls|) == [] {
      AppendedOnly(text, key, w);
      AppendedLine(key, w);
      var out := Lines(Appended(text, key, w));
      OnlyIsRead(out, key, |out| - 2, |out|);
    } else {
      var i := TheOnly(ls, key);
      SetLine(ls, key, i, w);
      var out := ls[i := Assigned(Assignment(ls[i], key).value, w)];
      OnlyIsRead(out, key, i, |out|);
    }
  }

  /** Setting the one definition leaves one definition, on the same line. */
  lemma SetLine(ls: seq<string>, key: string, i: nat, w: string)
    requires GoodKey(key) && CleanValue(w) && Only(ls, key, i)
    requires |ls| >= 1 && forall k | 0 <= k < |ls| :: OneLine(ls[k])
    ensures var h := Assignment(ls[i], key).value;
            var out := ls[i := Assigned(h, w)];
            && Only(out, key, i) && Lines(Unlines(out)) == out
            && Assignment(out[i], key) == Some(h.(value := w))
  {
    hide Assignment, CleanValue, GoodKey, Assigned;
    var h := Assignment(ls[i], key).value;
    var out := ls[i := Assigned(h, w)];
    AssignedAgain(ls[i], key, w);
    CleanIsOneLine(w);
    AssignedOneLine(ls[i], key, w);
    forall k | 0 <= k < |out| ensures OneLine(out[k]) && (k != i ==> !Defines(out[k], key)) {
      if k != i { assert out[k] == ls[k]; }
    }
    SplitJoin(out);
  }

  lemma AssignedOneLine(raw: string, key: string, w: string)
    requires Assignment(raw, key).Some? && OneLine(raw) && OneLine(w)
    ensures OneLine(Assigned(Assignment(raw, key).value, w))
  {
    hide Assignment;
    Reassembled(raw, key);
    var h := Assignment(raw, key).value;
    assert forall c | c in h.lead || c in h.quote || c in h.tail :: c in Assigned(h, h.value);
  }

  /** Put after get: writing the value that is there changes no byte. */
  lemma SetCurrent(text: string, key: string)
    requires ParseEnv(text, key).1 == 1
    ensures ParseEnv(text, key).0.Some?
    ensures RewriteEnv(text, key, ParseEnv(text, key).0) == Some(text)
  {
    hide Assignment, Assigned;
    var ls := Lines(text);
    CountIsHits(ls, key, |ls|);
    var i := TheOnly(ls, key);
    OnlyIsRead(ls, key, i, |ls|);
    Reassembled(ls[i], key);
    assert ls[i := ls[i]] == ls;
    JoinSplit(text);
  }

  /** Put after put: with one definition, a clean value in between leaves no
      trace, whether the last step sets a value or removes the line. */
  lemma SecondSetWins(text: string, key: string, w: string, last: Option<string>)
    requires GoodKey(key) && CleanValue(w) && ParseEnv(text, key).1 == 1
    ensures RewriteEnv(text, key, Some(w)).Some?
    ensures RewriteEnv(RewriteEnv(text, key, Some(w)).value, key, last) == RewriteEnv(text, key, last)
  {
    hide Assignment, CleanValue, GoodKey, Assigned;
    var ls := Lines(text);
    CountIsHits(ls, key, |ls|);
    var i := TheOnly(ls, key);
    SetLine(ls, key, i, w);
    var h := Assignment(ls[i], key).value;
    var out := ls[i := Assigned(h, w)];
    OnlyIsRead(out, key, i, |out|);
    assert out[..i] == ls[..i] && out[i + 1..] == ls[i + 1..];
    if last.Some? {
      SameAround(h, w, last.value);
      assert out[i := Assigned(h, last.value)] == ls[i := Assigned(h, last.value)];
    }
  }

  lemma SameAround(h: Hit, w: string, v: string)
    ensures Assigned(h.(value := w), v) == Assigned(h, v)
  {
  }

  /** Set and set back: the text is what it was, byte for byte, whatever the
      value was that had been read from it. */
  lemma SetAndBack(text: string, key: string, w: string)
    requires GoodKey(key) && CleanValue(w) && ParseEnv(text, key).1 == 1
    ensures RewriteEnv(text, key, Some(w)).Some?
    ensures RewriteEnv(RewriteEnv(text, key, Some(w)).value, key, ParseEnv(text, key).0) == Some(text)
  {
    hide ParseEnv, RewriteEnv, CleanValue, GoodKey;
    SecondSetWins(text, key, w, ParseEnv(text, key).0);
    SetCurrent(text, key);
  }

  /** Append and remove: the text comes back exactly when it was empty or
      ended in a newline; otherwise it has gained that newline. */
  lemma AppendAndRemove(text: string, key: string, w: string)
    requires GoodKey(key) && CleanValue(w) && ParseEnv(text, key).1 == 0
    ensures RewriteEnv(text, key, Some(w)) == Some(Appended(text, key, w))
    ensures RewriteEnv(Appended(text, key, w), key, None) == Some(Terminate(text))
    ensures Terminate(text) == text <==> text == "" || text[|text| - 1] == '\n'
  {
    hide Assignment, CleanValue, GoodKey, Appended, Hits, JoinLines, Terminate, OneLine, Lines;
    var ls := Lines(text);
    CountIsHits(ls, key, |ls|);
    AppendedOnly(text, key, w);
    var out := Lines(Appended(text, key, w));
    var i := |out| - 2;
    OnlyIsRead(out, key, i, |out|);
    assert out[..i] + out[i + 1..] == Lines(Terminate(text));
    JoinSplit(Terminate(text));
    JoinsLines(Lines(Terminate(text)));
    Terminates(text);
  }

  lemma JoinsLines(ls: seq<string>)
    requires |ls| >= 1
    ensures JoinLines(ls) == Unlines(ls)
  {
  }

  lemma Terminates(text: string)
    ensures Terminate(text) == text <==> text == "" || text[|text| - 1] == '\n'
  {
    if !Terminated(text) { assert |Terminate(text)| == |text| + 1; }
  }

  /** Removing the one definition leaves none, and every other line as it was. */
  lemma RemoveThenParse(text: string, key: string) returns (i: nat)
    requires GoodKey(key) && ParseEnv(text, key).1 == 1
    ensures RewriteEnv(text, key, None).Some?
    ensures ParseEnv(RewriteEnv(text, key, None).value, key) == (None, 0)
    ensures var ls, out := Lines(text), Lines(RewriteEnv(text, key, None).value);
            Only(ls, key, i) && out == if |ls| == 1 then [""] else ls[..i] + ls[i + 1..]
  {
    hide Assignment, GoodKey, OneLine, Lines, ParseUpTo, Hits;
    var ls := Lines(text);
    CountIsHits(ls, key, |ls|);
    i := TheOnly(ls, key);
    var rest := ls[..i] + ls[i + 1..];
    forall k | 0 <= k < |rest| ensures OneLine(rest[k]) && !Defines(rest[k], key) {
      assert rest[k] == ls[if k < i then k else k + 1];
    }
    if rest != [] {
      SplitJoin(rest);
      NoneIsRead(rest, key, |rest|);
    } else {
      NothingDefines(key);
      NoLines();
      NoneIsRead([""], key, 1);
    }
  }

  /** A value set touches nothing but the bytes of the value. */
  lemma SetTouchesOnlyTheValue(text: string, key: string, w: string) returns (pre: string, post: string)
    requires ParseEnv(text, key).1 == 1
    ensures ParseEnv(text, key).0.Some?
    ensures text == pre + ParseEnv(text, key).0.value + post
    ensures RewriteEnv(text, key, Some(w)) == Some(pre + w + post)
  {
    hide Assignment;
    var ls := Lines(text);
    CountIsHits(ls, key, |ls|);
    var i := TheOnly(ls, key);
    OnlyIsRead(ls, key, i, |ls|);
    var h := Assignment(ls[i], key).value;
    Reassembled(ls[i], key);
    JoinSplit(text);
    UnlinesAt(ls, i, ls[i]);
    UnlinesAt(ls, i, Assigned(h, w));
    assert ls[i := ls[i]] == ls;
    pre, post := Above(ls, i) + h.lead + h.quote, h.quote + h.tail + Below(ls, i);
    AroundValue(Above(ls, i), h, h.value, Below(ls, i));
    AroundValue(Above(ls, i), h, w, Below(ls, i));
  }

  lemma AroundValue(above: string, h: Hit, w: string, below: string)
    ensures above + Assigned(h, w) + below == (above + h.lead + h.quote) + w + (h.quote + h.tail + below)
  {
  }

  function Above(ls: seq<string>, i: nat): string
    requires i <= |ls|
  {
    if i == 0 then "" else ls[0] + "\n" + Above(ls[1..], i - 1)
  }

  function Below(ls: seq<string>, i: nat): string
    requires i < |ls|
  {
    if i + 1 == |ls| then "" else "\n" + Unlines(ls[i + 1..])
  }

  lemma {:induction false} UnlinesAt(ls: seq<string>, i: nat, line: string)
    requires i < |ls|
    ensures Unlines(ls[i := line]) == Above(ls, i) + line + Below(ls, i)
    decreases i
  {
    var out := ls[i := line];
    if i == 0 {
      if |ls| > 1 { assert out[1..] == ls[1..]; }
    } else {
      var rest := ls[1..];
      UnlinesAt(rest, i - 1, line);
      assert out[1..] == rest[i - 1 := line];
      assert Below(rest, i - 1) == Below(ls, i) by { assert rest[i..] == ls[i + 1..]; }
      assert Unlines(out) == ls[0] + "\n" + Unlines(out[1..]);
      hide Unlines, Below;
      var x, y := Above(rest, i - 1), Below(rest, i - 1);
      assert ls[0] + "\n" + (x + line + y) == ls[0] + "\n" + x + line + y;
    }
  }

  // ---- the loops of the original -----------------------------------------------------------------

  method ParseEnvValue(text: string, key: string) returns (value: Option<string>, count: nat)
    ensures (value, count) == ParseEnv(text, key)
  {
    hide Assignment;
    value, count := None, 0;
    var lines := Lines(text);
    for n := 0 to |lines|
      invariant (value, count) == ParseUpTo(lines, key, n)
    {
      var hit := Assignment(lines[n], key);
      if hit.Some? {
        value, count := Some(hit.value.value), count + 1;
      }
    }
  }

  method RewriteEnvText(text: string, key: string, value: Option<string>) returns (r: Option<string>)
    ensures r == RewriteEnv(text, key, value)
  {
    hide Assignment, Assigned;
    var lines := Lines(text);
    var hits: seq<nat> := [];
    for n := 0 to |lines|
      invariant hits == Hits(lines, key, n)
    {
      var hit := Assignment(lines[n], key);
      if hit.Some? {
        hits := hits + [n];
      }
    }
    if |hits| > 1 {
      return None;
    }
    if hits == [] {
      if value == None {
        return Some(text);
      }
      var sep := if text == "" || text[|text| - 1] == '\n' then "" else "\n";
      assert text + "" == text;
      return Some(text + sep + (key + "=" + value.value + "\n"));
    }
    var i := hits[0];
    assert i in hits;
    if value == None {
      lines := lines[..i] + lines[i + 1..];
      return Some(JoinLines(lines));
    }
    var h := Assignment(lines[i], key).value;
    lines := lines[i := Assigned(h, value.value)];
    return Some(Unlines(lines));
  }
}
