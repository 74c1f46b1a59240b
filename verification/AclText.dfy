/** The ACL lines of a HAProxy configuration as text: parse_acl_lines and
    rewrite_acl_text (scripts/rotate_reality_dest.py). */
module AclText {
  import opened Wrappers
  import opened Text

  // ---- one line ------------------------------------------------------------------

  /** Why a line cannot be rotated as text. */
  datatype AclError = FromFile(arg: string) | Method(arg: string)

  /** `first` counts the words before the first name. */
  datatype Scan = Scan(first: nat, error: Option<AclError>)

  predicate Dash(w: string) { w != "" && w[0] == '-' }

  predicate TakesArg(w: string) { w == "-f" || w == "-m" || w == "-u" }

  function FlagError(w: string, arg: string): Option<AclError> {
    if w == "-f" then Some(FromFile(arg))
    else if w == "-m" && arg != "str" then Some(Method(arg))
    else None
  }

  function Or(a: Option<AclError>, b: Option<AclError>): Option<AclError> {
    if a.Some? then a else b
  }

  function ScanFlags(ws: seq<string>): (r: Scan)
    ensures r.first <= |ws|
  {
    if ws == [] then Scan(0, None)
    else if ws[0] == "--" then Scan(1, None)
    else if TakesArg(ws[0]) then
      if |ws| == 1 then Scan(1, FlagError(ws[0], ""))
      else
        var rest := ScanFlags(ws[2..]);
        Scan(2 + rest.first, Or(rest.error, FlagError(ws[0], ws[1])))
    else if Dash(ws[0]) then
      var rest := ScanFlags(ws[1..]);
      Scan(1 + rest.first, rest.error)
    else Scan(0, None)
  }

  /** The loop over the words, index and flags as the original keeps them. */
  method ScanWords(ws: seq<string>) returns (first: nat, error: Option<AclError>)
    ensures Scan(first, error) == ScanFlags(ws)
  {
    error := None;
    var i := 0;
    while i < |ws|
      invariant 0 <= i <= |ws|
      invariant var rest := ScanFlags(ws[i..]);
                ScanFlags(ws) == Scan(i + rest.first, Or(rest.error, error))
    {
      var w := ws[i];
      assert ws[i..][0] == w && ws[i..][1..] == ws[i + 1..];
      if w == "--" {
        return i + 1, error;
      }
      if TakesArg(w) {
        var arg := if i + 1 < |ws| then ws[i + 1] else "";
        if i + 1 < |ws| { assert ws[i..][1] == arg && ws[i..][2..] == ws[i + 2..]; }
        if w == "-f" {
          error := Some(FromFile(arg));
        } else if w == "-m" && arg != "str" {
          error := Some(Method(arg));
        }
        i := if i + 2 <= |ws| then i + 2 else |ws|;
      } else if Dash(w) {
        i := i + 1;
      } else {
        return i, error;
      }
    }
    first := i;
  }

  predicate FetchesSni(s: string, i: nat) {
    StartsAt(s, i, "req_ssl_sni") || StartsAt(s, i, "req.ssl_sni")
  }

  /** Where the pattern that recognises the ACL ends: white space, `acl`, the
      ACL's name and one spelling of the SNI fetch, then white space or the
      end. */
  function Head(raw: string, acl: string): (r: Option<nat>)
    ensures r.Some? ==> r.value <= |raw|
    ensures r.Some? && r.value < |raw| ==> IsSpace(raw[r.value])
  {
    var i1 := AfterWord(raw, SkipSpaces(raw, 0), "acl");
    if i1 == None then None
    else
      var i2 := AfterWord(raw, i1.value, acl);
      if i2 == None || !FetchesSni(raw, i2.value) then None
      else if i2.value + 11 < |raw| && !IsSpace(raw[i2.value + 11]) then None
      else Some(i2.value + 11)
  }

  /** The first '#' from position i on, or the end. */
  function HashAt(s: string, i: nat): (j: nat)
    requires i <= |s|
    ensures i <= j <= |s|
    ensures forall k | i <= k < j :: s[k] != '#'
    ensures j < |s| ==> s[j] == '#'
    decreases |s| - i
  {
    if i < |s| && s[i] != '#' then HashAt(s, i + 1) else i
  }

  /** Names of a line, the span they occupy, and a reason not to touch it. */
  datatype AclEntry = AclEntry(names: seq<string>, start: nat, end: nat, error: Option<AclError>)

  /** A line recognised, its comment cut off: the words behind the head. */
  function ParseCode(code: string, base: nat): (e: AclEntry)
    requires base <= |code|
    ensures e.start <= e.end <= |code|
  {
    hide Tokens, Words, IsSpace;
    var ts := Tokens(code, base);
    var ws := Words(code, ts);
    var sc := ScanFlags(ws);
    SpanFits(code, base);
    if sc.first < |ws| then
      AclEntry(ws[sc.first..], ts[sc.first].start, ts[|ts| - 1].end, sc.error)
    else
      var e := TrimEnd(code, base);
      AclEntry([], e, e, sc.error)
  }

  function ParseLine(raw: string, acl: string): (r: Option<AclEntry>)
    ensures r.Some? ==> r.value.start <= r.value.end <= |raw|
  {
    hide Head, ParseCode;
    var head := Head(raw, acl);
    if head == None then None else Some(ParseCode(raw[..HashAt(raw, head.value)], head.value))
  }

  lemma SpanFits(code: string, base: nat)
    requires base <= |code|
    ensures var ts := Tokens(code, base);
            var first := ScanFlags(Words(code, ts)).first;
            && |Words(code, ts)| == |ts|
            && (first < |ts| ==> ts[first].start <= ts[|ts| - 1].end <= |code|)
  {
    hide IsSpace, SkipSpaces, SkipWord, Tokens, Words, Piece;
    var ts := Tokens(code, base);
    var first := ScanFlags(Words(code, ts)).first;
    WordsAt(code, ts);
    if first < |ts| { TokensRise(code, base, first); }
  }

  lemma {:induction false} TokensRise(s: string, i: nat, k: nat)
    requires i <= |s| && k < |Tokens(s, i)|
    ensures Tokens(s, i)[k].start < Tokens(s, i)[|Tokens(s, i)| - 1].end <= |s|
    decreases k
  {
    hide SkipSpaces, SkipWord, IsSpace;
    var ts := Tokens(s, i);
    assert ts[k] in ts && ts[|ts| - 1] in ts;
    var e := SkipWord(s, SkipSpaces(s, i));
    assert ts[1..] == Tokens(s, e);
    if k > 0 {
      TokensRise(s, e, k - 1);
    } else if |ts| > 1 {
      assert ts[|ts| - 1] == ts[1..][|ts| - 2];
      assert ts[|ts| - 1] in Tokens(s, e);
    }
  }

  /** What a rewrite leaves in front of the names and after them. A line
      without names gets a blank in front of its first. */
  function Lead(raw: string, e: AclEntry): string
    requires e.start <= |raw|
  {
    raw[..e.start] + if e.start == e.end then " " else ""
  }

  function Tail(raw: string, e: AclEntry): string
    requires e.end <= |raw|
  {
    raw[e.end..]
  }

  function WriteLine(raw: string, e: AclEntry, names: seq<string>): string
    requires e.start <= e.end <= |raw|
  {
    Lead(raw, e) + JoinNames(names) + Tail(raw, e)
  }

  // ---- flags and names ---------------------------------------------------------------

  /** What a list of flag words is waiting for: anything (after "--"), a name
      or another flag, a flag's argument; or it already holds a name. */
  datatype Waiting = Closed | Open | Hungry | Named

  function After(ws: seq<string>): Waiting {
    if ws == [] then Open
    else if ws[0] == "--" then if |ws| == 1 then Closed else Named
    else if TakesArg(ws[0]) then if |ws| == 1 then Hungry else After(ws[2..])
    else if Dash(ws[0]) then After(ws[1..])
    else Named
  }

  /** Will these names be read as names behind those flags? */
  predicate Accepts(flags: seq<string>, names: seq<string>) {
    names != [] && (After(flags) == Closed || (After(flags) == Open && !Dash(names[0])))
  }

  /** The scan stops between flags and names exactly when they are accepted,
      and then the flags alone decide the error. */
  lemma {:induction false} ScanBehindFlags(flags: seq<string>, names: seq<string>)
    requires names != []
    ensures ScanFlags(flags + names).first == |flags| <==> Accepts(flags, names)
    ensures Accepts(flags, names) ==> ScanFlags(flags + names).error == ScanFlags(flags).error
    ensures ScanFlags(flags + names).first == |flags| || ScanFlags(flags).first < |flags|
            || ScanFlags(flags + names).first > |flags|
    decreases |flags|
  {
    var all := flags + names;
    if flags == [] {
      assert all == names;
    } else {
      assert all[0] == flags[0];
      if flags[0] == "--" {
      } else if TakesArg(flags[0]) {
        if |flags| > 1 {
          assert all[2..] == flags[2..] + names && all[1] == flags[1];
          ScanBehindFlags(flags[2..], names);
        }
      } else if Dash(flags[0]) {
        assert all[1..] == flags[1..] + names;
        ScanBehindFlags(flags[1..], names);
      }
    }
  }

  lemma {:induction false} ScanToTheEnd(flags: seq<string>)
    ensures ScanFlags(flags).first == |flags| <==> After(flags) != Named
    decreases |flags|
  {
    if flags != [] {
      if flags[0] == "--" {
      } else if TakesArg(flags[0]) {
        if |flags| > 1 { ScanToTheEnd(flags[2..]); }
      } else if Dash(flags[0]) {
        ScanToTheEnd(flags[1..]);
      }
    }
  }

  // ---- the shell of a line ---------------------------------------------------------------

  /** Text that may stand before and after the names of an ACL line. */
  predicate IsShell(lead: string, tail: string, acl: string) {
    && Head(lead, acl).Some?
    && Head(lead, acl).value < |lead|
    && IsSpace(lead[|lead| - 1])
    && HashAt(lead, Head(lead, acl).value) == |lead|
    && AllSpace(tail[..HashAt(tail, 0)])
  }

  function Flags(lead: string, acl: string): seq<string>
    requires Head(lead, acl).Some?
  {
    Words(lead, Tokens(lead, Head(lead, acl).value))
  }

  /** The head only looks as far as the white space behind it. */
  lemma HeadStable(a: string, b: string, acl: string)
    requires Head(a, acl).Some?
    requires var n := Head(a, acl).value;
             n <= |b| && b[..n] == a[..n] && (n < |b| ==> IsSpace(b[n]))
    ensures Head(b, acl) == Head(a, acl)
  {
    hide IsSpace, SkipSpaces, AfterWord, StartsAt;
    var n := Head(a, acl).value;
    var i0 := SkipSpaces(a, 0);
    SkipSpacesPrefix(a, b, 0, n);
    AfterWordStable(a, b, i0, "acl", n);
    var i1 := AfterWord(a, i0, "acl").value;
    AfterWordStable(a, b, i1, acl, n);
    var i2 := AfterWord(a, i1, acl).value;
    StartsAtPrefix(a, b, i2, "req_ssl_sni", n);
    StartsAtPrefix(a, b, i2, "req.ssl_sni", n);
  }

  lemma HeadThenBlank(raw: string, acl: string)
    requires Head(raw, acl).Some?
    ensures Head(raw, acl).value < |raw| ==> IsSpace(raw[Head(raw, acl).value])
  {
    hide IsSpace;
  }

  lemma {:induction false} HashIs(s: string, i: nat, j: nat)
    requires i <= j <= |s| && (forall k | i <= k < j :: s[k] != '#') && (j < |s| ==> s[j] == '#')
    ensures HashAt(s, i) == j
    decreases j - i
  {
    if i < j { HashIs(s, i + 1, j); }
  }

  lemma {:induction false} WordsPrefix(p: string, u: string, ts: seq<Token>)
    requires forall t | t in ts :: t.start < t.end <= |p|
    ensures Words(p + u, ts) == Words(p, ts)
  {
    hide Piece;
    if ts != [] {
      assert ts[0] in ts;
      assert Piece(p + u, ts[0]) == Piece(p, ts[0]) by { PiecePrefix(p, u, ts[0]); }
      WordsPrefix(p, u, ts[1..]);
    }
  }

  lemma PiecePrefix(p: string, u: string, t: Token)
    requires t.start < t.end <= |p|
    ensures Piece(p + u, t) == Piece(p, t)
  {
    assert (p + u)[t.start..t.end] == p[t.start..t.end];
  }

  lemma {:induction false} WordsConcat(s: string, a: seq<Token>, b: seq<Token>)
    ensures Words(s, a + b) == Words(s, a) + Words(s, b)
  {
    hide Piece;
    if a == [] {
      assert a + b == b;
    } else {
      assert (a + b)[1..] == a[1..] + b;
      WordsConcat(s, a[1..], b);
    }
  }

  /** The code of a line put together from a shell and clean names. */
  lemma ShellCode(lead: string, names: seq<string>, tail: string, acl: string)
    requires IsShell(lead, tail, acl)
    requires names != [] && CleanNames(names)
    ensures var x := JoinNames(names);
            var raw := lead + x + tail;
            var base := Head(lead, acl).value;
            && Head(raw, acl) == Some(base)
            && raw[..HashAt(raw, base)] == lead + x + tail[..HashAt(tail, 0)]
  {
    hide IsSpace, JoinNames, Head, AllSpace, HashAt, CleanNames;
    var x := JoinNames(names);
    var raw := lead + x + tail;
    var base := Head(lead, acl).value;
    assert raw[..base] == lead[..base] && raw[base] == lead[base];
    HeadThenBlank(lead, acl);
    HeadStable(lead, raw, acl);
    JoinedNoHash(names);
    HashBehind(lead, x, tail, base);
  }

  /** Names hold no '#', so the comment begins where it did. */
  lemma HashBehind(lead: string, x: string, tail: string, base: nat)
    requires base <= |lead| && HashAt(lead, base) == |lead|
    requires forall k | 0 <= k < |x| :: x[k] != '#'
    ensures var raw := lead + x + tail;
            raw[..HashAt(raw, base)] == lead + x + tail[..HashAt(tail, 0)]
  {
    hide HashAt;
    var raw, h := lead + x + tail, HashAt(tail, 0);
    var j := |lead| + |x| + h;
    forall k | base <= k < j ensures raw[k] != '#' {
      if k < |lead| { assert raw[k] == lead[k]; }
      else if k < |lead| + |x| { assert raw[k] == x[k - |lead|]; }
      else { assert raw[k] == tail[k - |lead| - |x|]; }
    }
    if j < |raw| { assert raw[j] == tail[h]; }
    HashIs(raw, base, j);
    assert raw[..j] == lead + x + tail[..h];
  }

  lemma {:induction false} JoinedNoHash(names: seq<string>)
    requires CleanNames(names)
    ensures forall k | 0 <= k < |JoinNames(names)| :: JoinNames(names)[k] != '#'
    ensures OneLine(JoinNames(names))
    decreases |names|
  {
    hide IsSpace;
    if names != [] {
      assert CleanName(names[0]);
      if |names| > 1 {
        forall i | 0 <= i < |names[1..]| ensures CleanName(names[1..][i]) { assert names[1..][i] == names[i + 1]; }
        JoinedNoHash(names[1..]);
      }
    }
  }

  /** The words of such a line: the shell's flags, then the names; and where
      the names stand. */
  lemma ShellWords(lead: string, names: seq<string>, tail: string, acl: string)
    requires IsShell(lead, tail, acl)
    requires names != [] && CleanNames(names)
    ensures var x := JoinNames(names);
            var base := Head(lead, acl).value;
            var code := lead + x + tail[..HashAt(tail, 0)];
            var ts := Tokens(code, base);
            var n := |Flags(lead, acl)|;
            && Words(code, ts) == Flags(lead, acl) + names
            && |ts| == n + |names|
            && ts[n].start == |lead| && ts[|ts| - 1].end == |lead| + |x|
  {
    hide IsSpace, NoSpace, AllSpace, CleanName, CleanNames, Piece, JoinNames, Tokens, Words, Shift, Later, Head, HashAt;
    var x := JoinNames(names);
    var base := Head(lead, acl).value;
    var sp := tail[..HashAt(tail, 0)];
    TokensTrailing(lead + x, sp, base);
    TokensConcat(lead, x, base);
    JoinedTokens(names);
    var fs, ns := Tokens(lead, base), Tokens(x, 0);
    var ts := fs + Shift(ns, |lead|);
    assert Tokens(lead + x + sp, base) == ts;
    WordsConcat(lead + x + sp, fs, Shift(ns, |lead|));
    assert lead + x + sp == lead + (x + sp);
    WordsPrefix(lead, x + sp, fs);
    WordsPrefix(x, sp, ns);
    forall t | t in ns ensures t.start < t.end <= |x + sp| { }
    WordsShift(lead, x + sp, ns);
    ShiftAt(ns, |lead|);
    WordsAt(lead, fs);
    WordsAt(x, ns);
    LaterIs(ns[0], |lead|);
    LaterIs(ns[|ns| - 1], |lead|);
    assert ts[|fs|] == Shift(ns, |lead|)[0];
    assert ts[|ts| - 1] == Shift(ns, |lead|)[|ns| - 1];
  }

  /** Put then get on one line: names written into a shell come back, with the
      same shell around them, exactly when the shell's flags accept them. */
  lemma WrittenLine(lead: string, names: seq<string>, tail: string, acl: string)
    requires IsShell(lead, tail, acl)
    requires names != [] && CleanNames(names)
    ensures var raw := lead + JoinNames(names) + tail;
            var e := ParseLine(raw, acl);
            && e.Some?
            && (Accepts(Flags(lead, acl), names) ==>
                  && e.value.names == names
                  && e.value.error == ScanFlags(Flags(lead, acl)).error
                  && Lead(raw, e.value) == lead && Tail(raw, e.value) == tail)
            && (After(Flags(lead, acl)) != Named && !Accepts(Flags(lead, acl), names) ==> e.value.names != names)
  {
    hide IsSpace, JoinNames, Tokens, Words, Head, HashAt, AllSpace, After, ScanFlags, TrimEnd;
    var x := JoinNames(names);
    var raw := lead + x + tail;
    ShellCode(lead, names, tail, acl);
    ShellWords(lead, names, tail, acl);
    var flags := Flags(lead, acl);
    ScanBehindFlags(flags, names);
    ScanToTheEnd(flags);
    assert (flags + names)[|flags|..] == names;
    assert x != "" by { JoinedTokens(names); }
    assert raw[..|lead|] == lead && raw[|lead| + |x|..] == tail;
    assert lead + "" == lead;
  }

  // ---- every line the parser recognises has a shell --------------------------------------------

  lemma {:induction false} SplitAtToken(s: string, i: nat, k: nat)
    requires i <= |s| && k < |Tokens(s, i)|
    ensures var st := Tokens(s, i)[k].start;
            && i <= st < |s| && !IsSpace(s[st])
            && (st == i || IsSpace(s[st - 1]))
            && Tokens(s[..st], i) == Tokens(s, i)[..k]
    decreases k
  {
    hide IsSpace, Tokens;
    var ts := Tokens(s, i);
    var j, e := FirstToken(s, i);
    if k == 0 {
      TokensNone(s[..j], i);
    } else {
      SplitAtToken(s, e, k - 1);
      var st := Tokens(s, e)[k - 1].start;
      assert ts[k].start == st;
      assert e < st;
      TokensAre(s[..st], i, j, e);
      assert ts[..k] == [Token(j, e)] + Tokens(s, e)[..k - 1];
    }
  }

  lemma FirstToken(s: string, i: nat) returns (j: nat, e: nat)
    requires i <= |s| && Tokens(s, i) != []
    ensures i <= j < e <= |s| && Tokens(s, i) == [Token(j, e)] + Tokens(s, e)
    ensures (forall x | i <= x < j :: IsSpace(s[x])) && (forall x | j <= x < e :: !IsSpace(s[x]))
    ensures e < |s| ==> IsSpace(s[e])
  {
    hide IsSpace;
    j := SkipSpaces(s, i);
    e := SkipWord(s, j);
    WordStarts(s, j);
  }

  lemma {:induction false} AfterLastToken(s: string, i: nat)
    requires i <= |s| && Tokens(s, i) != []
    ensures var e := Tokens(s, i)[|Tokens(s, i)| - 1].end;
            e <= |s| && forall k | e <= k < |s| :: IsSpace(s[k])
    decreases |s| - i
  {
    hide IsSpace;
    var ts := Tokens(s, i);
    var j, e := FirstToken(s, i);
    if Tokens(s, e) == [] {
      assert SkipSpaces(s, e) == |s|;
    } else {
      AfterLastToken(s, e);
      assert ts[|ts| - 1] == Tokens(s, e)[|ts| - 2];
    }
  }

  /** A tail cut out of a line at the end of its names. */
  lemma TailShape(raw: string, cut: nat, en: nat)
    requires en <= cut <= |raw| && (cut < |raw| ==> raw[cut] == '#')
    requires forall k | en <= k < cut :: raw[k] != '#' && IsSpace(raw[k])
    ensures HashAt(raw[en..], 0) == cut - en && AllSpace(raw[en..][..cut - en])
  {
    hide IsSpace;
    var tail := raw[en..];
    forall k | 0 <= k < cut - en ensures tail[k] != '#' && IsSpace(tail[k]) { assert tail[k] == raw[en + k]; }
    if cut < |raw| { assert tail[cut - en] == raw[cut]; }
    HashIs(tail, 0, cut - en);
  }

  /** The words of a line, cut at one of them. */
  lemma WordsCut(code: string, base: nat, first: nat)
    requires base <= |code| && first < |Tokens(code, base)|
    ensures var ts := Tokens(code, base);
            var st := ts[first].start;
            && st <= |code|
            && |Words(code, ts)| == |ts|
            && Words(code, ts) == Words(code[..st], Tokens(code[..st], base)) + Words(code, ts)[first..]
            && |Words(code[..st], Tokens(code[..st], base))| == first
  {
    hide IsSpace, Tokens, Words, Piece;
    var ts := Tokens(code, base);
    SplitAtToken(code, base, first);
    var st := ts[first].start;
    var p, fs := code[..st], ts[..first];
    assert code == p + code[st..];
    WordsPrefix(p, code[st..], fs);
    assert ts == fs + ts[first..];
    WordsConcat(code, fs, ts[first..]);
    WordsAt(code, ts);
    WordsAt(p, fs);
    assert Words(code, ts)[first..] == Words(code, ts[first..]);
  }

  /** The text up to the names still has its head, and no comment. */
  lemma LeadShape(raw: string, acl: string, en: nat, lead: string)
    requires Head(raw, acl).Some?
    requires var base := Head(raw, acl).value;
             && base <= en <= HashAt(raw, base) && en <= |lead| && base < |lead|
             && lead[..en] == raw[..en] && IsSpace(lead[base])
             && forall k | en <= k < |lead| :: lead[k] != '#'
    ensures Head(lead, acl) == Head(raw, acl)
    ensures HashAt(lead, Head(raw, acl).value) == |lead|
  {
    hide IsSpace, Head, HashAt;
    var base := Head(raw, acl).value;
    assert lead[..base] == lead[..en][..base] == raw[..base];
    HeadStable(raw, lead, acl);
    forall k | base <= k < |lead| ensures lead[k] != '#' {
      if k < en { assert lead[k] == lead[..en][k] == raw[k]; }
    }
    HashIs(lead, base, |lead|);
  }

  /** The text behind the names: blanks, then a comment or the end. */
  lemma TailOf(raw: string, base: nat, en: nat)
    requires base <= en <= |raw| && en <= HashAt(raw, base)
    requires forall k | en <= k < HashAt(raw, base) :: IsSpace(raw[k])
    ensures AllSpace(raw[en..][..HashAt(raw[en..], 0)])
  {
    hide IsSpace, AllSpace, HashAt;
    TailShape(raw, HashAt(raw, base), en);
  }

  /** What the parser found on a line with names. */
  lemma NamedParts(raw: string, acl: string, e: AclEntry)
    requires ParseLine(raw, acl) == Some(e) && e.names != []
    ensures var base := Head(raw, acl).value;
            var cut := HashAt(raw, base);
            var lead := raw[..e.start];
            && Head(raw, acl).Some? && base < e.start < e.end <= cut
            && IsSpace(raw[base]) && IsSpace(raw[e.start - 1])
            && (forall k | e.end <= k < cut :: IsSpace(raw[k]))
            && base <= |lead|
            && var flags := Words(lead, Tokens(lead, base));
            && ScanFlags(flags + e.names).first == |flags|
            && ScanFlags(flags + e.names).error == e.error
  {
    hide IsSpace, Tokens, Words, Head, ScanFlags, TrimEnd, Piece, HashAt;
    var base := Head(raw, acl).value;
    var cut := HashAt(raw, base);
    var code := raw[..cut];
    var ts := Tokens(code, base);
    WordsAt(code, ts);
    var first := ScanFlags(Words(code, ts)).first;
    SplitAtToken(code, base, first);
    AfterLastToken(code, base);
    TokensRise(code, base, first);
    WordsCut(code, base, first);
    assert raw[..e.start] == code[..e.start];
    assert raw[e.start] == code[e.start] && raw[e.start - 1] == code[e.start - 1];
    HeadThenBlank(raw, acl);
    forall k | e.end <= k < cut ensures IsSpace(raw[k]) { assert raw[k] == code[k]; }
  }

  /** The shell of a line with names. */
  lemma NamedShell(raw: string, acl: string, e: AclEntry)
    requires ParseLine(raw, acl) == Some(e) && e.names != []
    ensures IsShell(Lead(raw, e), Tail(raw, e), acl)
    ensures e.start < e.end
    ensures Accepts(Flags(Lead(raw, e), acl), e.names)
    ensures ScanFlags(Flags(Lead(raw, e), acl)).error == e.error
  {
    hide IsSpace, Tokens, Words, Head, After, ScanFlags, HashAt, AllSpace, ParseLine;
    NamedParts(raw, acl, e);
    var base, lead := Head(raw, acl).value, Lead(raw, e);
    assert lead == raw[..e.start] && lead[base] == raw[base] && lead[|lead| - 1] == raw[e.start - 1];
    LeadShape(raw, acl, e.start, lead);
    TailOf(raw, base, e.end);
    ScanBehindFlags(Flags(lead, acl), e.names);
  }

  /** What the parser found on a line without. */
  lemma NamelessParts(raw: string, acl: string, e: AclEntry)
    requires ParseLine(raw, acl) == Some(e) && e.names == []
    ensures var base := Head(raw, acl).value;
            var cut := HashAt(raw, base);
            var ws := Words(raw[..cut], Tokens(raw[..cut], base));
            && Head(raw, acl).Some? && base <= e.start == e.end <= cut
            && (forall k | e.start <= k < cut :: IsSpace(raw[k]))
            && ScanFlags(ws).first == |ws| && ScanFlags(ws).error == e.error
  {
    hide IsSpace, Tokens, Words, Head, ScanFlags, TrimEnd, Piece, HashAt;
    var base := Head(raw, acl).value;
    var cut := HashAt(raw, base);
    var code := raw[..cut];
    var ts := Tokens(code, base);
    WordsAt(code, ts);
    forall k | e.start <= k < cut ensures IsSpace(raw[k]) { assert raw[k] == code[k]; }
  }

  /** Blanks at the end may be replaced by a single one. */
  lemma SameWords(p: string, sp: string, base: nat)
    requires base <= |p| && AllSpace(sp)
    ensures Words(p + sp, Tokens(p + sp, base)) == Words(p + " ", Tokens(p + " ", base))
  {
    hide IsSpace, Tokens, Words, AllSpace;
    BlankIsSpace();
    TokensTrailing(p, sp, base);
    TokensTrailing(p, " ", base);
    WordsPrefix(p, sp, Tokens(p, base));
    WordsPrefix(p, " ", Tokens(p, base));
  }

  /** The shell of a line that names nobody. */
  lemma NamelessShell(raw: string, acl: string, e: AclEntry)
    requires ParseLine(raw, acl) == Some(e) && e.names == []
    ensures IsShell(Lead(raw, e), Tail(raw, e), acl)
    ensures After(Flags(Lead(raw, e), acl)) != Named
    ensures ScanFlags(Flags(Lead(raw, e), acl)).error == e.error
  {
    hide IsSpace, Tokens, Words, Head, After, ScanFlags, HashAt, AllSpace, ParseLine;
    NamelessParts(raw, acl, e);
    var base, en, lead := Head(raw, acl).value, e.start, Lead(raw, e);
    var cut := HashAt(raw, base);
    var p, sp := raw[..en], raw[en..cut];
    assert lead == p + " " && lead[..en] == raw[..en] && raw[..cut] == p + sp;
    BlankIsSpace();
    HeadThenBlank(raw, acl);
    assert lead[base] == if base < en then raw[base] else ' ';
    LeadShape(raw, acl, en, lead);
    TailOf(raw, base, en);
    assert AllSpace(sp) by { BlanksOf(raw, en, cut); }
    SameWords(p, sp, base);
    ScanToTheEnd(Flags(lead, acl));
  }

  lemma BlanksOf(s: string, i: nat, j: nat)
    requires i <= j <= |s| && forall k | i <= k < j :: IsSpace(s[k])
    ensures AllSpace(s[i..j])
  {
    hide IsSpace;
  }

  // ---- the whole file --------------------------------------------------------------------------

  predicate IsAcl(raw: string, acl: string) { ParseLine(raw, acl).Some? }

  /** The ACL lines of a file, in order. */
  function Find(ls: seq<string>, acl: string): seq<AclEntry> {
    if ls == [] then []
    else
      var e := ParseLine(ls[0], acl);
      (if e.Some? then [e.value] else []) + Find(ls[1..], acl)
  }

  function ParseAcl(text: string, acl: string): seq<AclEntry> {
    Find(Lines(text), acl)
  }

  function NamesOf(en: seq<AclEntry>): seq<seq<string>> {
    if en == [] then [] else [en[0].names] + NamesOf(en[1..])
  }

  /** The lines with each ACL line's names replaced in turn. */
  function Rewritten(ls: seq<string>, acl: string, nss: seq<seq<string>>): (r: seq<string>)
    requires |nss| == |Find(ls, acl)|
    ensures |r| == |ls|
    decreases |ls|
  {
    if ls == [] then []
    else
      var e := ParseLine(ls[0], acl);
      if e.Some? then [WriteLine(ls[0], e.value, nss[0])] + Rewritten(ls[1..], acl, nss[1..])
      else [ls[0]] + Rewritten(ls[1..], acl, nss)
  }

  /** None stands for the ValueErrors: counts differ, a flagged line, or an
      empty list of names. */
  function RewriteAcl(text: string, acl: string, nss: seq<seq<string>>): Option<string> {
    var en := ParseAcl(text, acl);
    if |en| != |nss| || (exists k | 0 <= k < |en| :: en[k].error.Some? || nss[k] == []) then None
    else Some(Unlines(Rewritten(Lines(text), acl, nss)))
  }

  /** What of a file the names do not touch: whole lines, and the text before
      and after the names of an ACL line. */
  datatype Fragment = Whole(line: string) | Around(lead: string, tail: string)

  function Skeleton(ls: seq<string>, acl: string): seq<Fragment> {
    if ls == [] then []
    else
      var e := ParseLine(ls[0], acl);
      [if e.Some? then Around(Lead(ls[0], e.value), Tail(ls[0], e.value)) else Whole(ls[0])] + Skeleton(ls[1..], acl)
  }

  /** The new names can be told from the flags of the lines they go to. */
  predicate AllAccepted(ls: seq<string>, acl: string, nss: seq<seq<string>>)
    requires |nss| == |Find(ls, acl)|
    decreases |ls|
  {
    ls == [] ||
    (var e := ParseLine(ls[0], acl);
     if e.Some? then LineAccepts(ls[0], acl, e.value, nss[0]) && AllAccepted(ls[1..], acl, nss[1..])
     else AllAccepted(ls[1..], acl, nss))
  }

  predicate LineAccepts(raw: string, acl: string, e: AclEntry, names: seq<string>)
    requires e.start <= |raw|
  {
    var lead := Lead(raw, e);
    Head(lead, acl).Some? && Accepts(Flags(lead, acl), names)
  }

  predicate AllClean(nss: seq<seq<string>>) {
    forall k | 0 <= k < |nss| :: nss[k] != [] && CleanNames(nss[k])
  }

  predicate NoErrors(en: seq<AclEntry>) {
    forall k | 0 <= k < |en| :: en[k].error == None
  }

  /** One line rewritten: recognised again; the names come back, in the same
      shell and without an error, exactly when the flags accept them. */
  lemma RewrittenLine(raw: string, acl: string, e: AclEntry, names: seq<string>)
    requires ParseLine(raw, acl) == Some(e) && e.error == None
    requires names != [] && CleanNames(names)
    ensures var raw' := WriteLine(raw, e, names);
            var e' := ParseLine(raw', acl);
            && e'.Some?
            && (LineAccepts(raw, acl, e, names) ==>
                  && e'.value.names == names && e'.value.error == None
                  && Lead(raw', e'.value) == Lead(raw, e) && Tail(raw', e'.value) == Tail(raw, e))
            && (!LineAccepts(raw, acl, e, names) ==> e'.value.names != names)
  {
    hide ParseLine, Lead, Tail, Flags, ScanFlags, CleanNames, After;
    if e.names != [] { NamedShell(raw, acl, e); } else { NamelessShell(raw, acl, e); }
    if e.names != [] { AcceptsNotNamed(Flags(Lead(raw, e), acl), e.names); }
    WrittenLine(Lead(raw, e), names, Tail(raw, e), acl);
  }

  lemma AcceptsNotNamed(flags: seq<string>, names: seq<string>)
    requires Accepts(flags, names)
    ensures After(flags) != Named
  {
  }

  lemma WrittenOneLine(raw: string, e: AclEntry, names: seq<string>)
    requires OneLine(raw) && e.start <= e.end <= |raw| && CleanNames(names)
    ensures OneLine(WriteLine(raw, e, names))
  {
    JoinedNoHash(names);
  }

  lemma {:induction false} RewrittenLaws(ls: seq<string>, acl: string, nss: seq<seq<string>>, mss: seq<seq<string>>)
    requires |nss| == |Find(ls, acl)| == |mss| && NoErrors(Find(ls, acl)) && AllClean(nss)
    requires forall i | 0 <= i < |ls| :: OneLine(ls[i])
    ensures var out := Rewritten(ls, acl, nss);
            && (forall i | 0 <= i < |out| :: OneLine(out[i]))
            && |Find(out, acl)| == |nss|
            && (NamesOf(Find(out, acl)) == nss <==> AllAccepted(ls, acl, nss))
            && (AllAccepted(ls, acl, nss) ==>
                  && NoErrors(Find(out, acl))
                  && Skeleton(out, acl) == Skeleton(ls, acl)
                  && Rewritten(out, acl, mss) == Rewritten(ls, acl, mss))
    decreases |ls|
  {
    hide ParseLine, Lead, Tail, LineAccepts, CleanNames, OneLine, WriteLine;
    if ls != [] {
      var raw, rest, e := ls[0], ls[1..], ParseLine(ls[0], acl);
      forall i | 0 <= i < |rest| ensures OneLine(rest[i]) { assert rest[i] == ls[i + 1]; }
      assert OneLine(raw);
      if e.Some? {
        var all := Find(ls, acl);
        assert all == [e.value] + Find(rest, acl) && all[0] == e.value && all[1..] == Find(rest, acl);
        assert NoErrors(Find(rest, acl)) by {
          forall k | 0 <= k < |all| - 1 ensures all[1..][k].error == None { assert all[1..][k] == all[k + 1]; }
        }
        assert AllClean(nss[1..]) by {
          forall k | 0 <= k < |nss| - 1 ensures nss[1..][k] != [] && CleanNames(nss[1..][k]) { assert nss[1..][k] == nss[k + 1]; }
        }
        RewrittenLaws(rest, acl, nss[1..], mss[1..]);
        RewrittenLine(raw, acl, e.value, nss[0]);
        WrittenOneLine(raw, e.value, nss[0]);
        ConsLaws(ls, acl, nss, mss, WriteLine(raw, e.value, nss[0]), Rewritten(rest, acl, nss[1..]));
      } else {
        assert Find(ls, acl) == Find(rest, acl) by { assert [] + Find(rest, acl) == Find(rest, acl); }
        RewrittenLaws(rest, acl, nss, mss);
        PlainLaws(ls, acl, nss, mss, Rewritten(rest, acl, nss));
      }
    }
  }

  lemma FindCons(raw: string, rest: seq<string>, acl: string)
    ensures Find([raw] + rest, acl) == (if IsAcl(raw, acl) then [ParseLine(raw, acl).value] else []) + Find(rest, acl)
    ensures IsAcl(raw, acl) ==>
              NamesOf(Find([raw] + rest, acl)) == [ParseLine(raw, acl).value.names] + NamesOf(Find(rest, acl))
  {
    hide ParseLine;
    assert ([raw] + rest)[1..] == rest;
    if IsAcl(raw, acl) {
      assert ([ParseLine(raw, acl).value] + Find(rest, acl))[1..] == Find(rest, acl);
    }
  }

  lemma RewriteCons(raw: string, rest: seq<string>, acl: string, mss: seq<seq<string>>)
    requires |mss| == |Find([raw] + rest, acl)|
    ensures |Find(rest, acl)| == if IsAcl(raw, acl) then |mss| - 1 else |mss|
    ensures Rewritten([raw] + rest, acl, mss)
            == if IsAcl(raw, acl) then [WriteLine(raw, ParseLine(raw, acl).value, mss[0])] + Rewritten(rest, acl, mss[1..])
               else [raw] + Rewritten(rest, acl, mss)
  {
    hide ParseLine, WriteLine;
    assert ([raw] + rest)[1..] == rest;
  }

  lemma SkeletonCons(raw: string, rest: seq<string>, acl: string)
    ensures Skeleton([raw] + rest, acl)
            == [if IsAcl(raw, acl) then Around(Lead(raw, ParseLine(raw, acl).value), Tail(raw, ParseLine(raw, acl).value))
                else Whole(raw)] + Skeleton(rest, acl)
  {
    hide ParseLine, Lead, Tail;
    assert ([raw] + rest)[1..] == rest;
  }

  lemma AcceptedCons(ls: seq<string>, acl: string, nss: seq<seq<string>>)
    requires ls != [] && |nss| == |Find(ls, acl)|
    ensures |Find(ls[1..], acl)| == if IsAcl(ls[0], acl) then |nss| - 1 else |nss|
    ensures AllAccepted(ls, acl, nss)
            <==> if IsAcl(ls[0], acl) then LineAccepts(ls[0], acl, ParseLine(ls[0], acl).value, nss[0]) && AllAccepted(ls[1..], acl, nss[1..])
                 else AllAccepted(ls[1..], acl, nss)
  {
    hide ParseLine, LineAccepts;
  }

  lemma SameWrite(raw: string, raw': string, acl: string, ms: seq<string>)
    requires IsAcl(raw, acl) && IsAcl(raw', acl)
    ensures var e, e' := ParseLine(raw, acl).value, ParseLine(raw', acl).value;
            Lead(raw', e') == Lead(raw, e) && Tail(raw', e') == Tail(raw, e)
            ==> WriteLine(raw', e', ms) == WriteLine(raw, e, ms)
  {
    hide ParseLine, Lead, Tail;
  }

  /** Putting a rewritten ACL line in front of rewritten lines. */
  lemma ConsLaws(ls: seq<string>, acl: string, nss: seq<seq<string>>, mss: seq<seq<string>>, raw': string, tail: seq<string>)
    requires ls != [] && IsAcl(ls[0], acl) && IsAcl(raw', acl)
    requires |nss| == |Find(ls, acl)| == |mss|
    requires |Find(ls[1..], acl)| == |nss| - 1 == |Find(tail, acl)|
    requires var e, e' := ParseLine(ls[0], acl).value, ParseLine(raw', acl).value;
             && (LineAccepts(ls[0], acl, e, nss[0]) ==>
                   e'.names == nss[0] && e'.error == None
                   && Lead(raw', e') == Lead(ls[0], e) && Tail(raw', e') == Tail(ls[0], e))
             && (!LineAccepts(ls[0], acl, e, nss[0]) ==> e'.names != nss[0])
    requires NamesOf(Find(tail, acl)) == nss[1..] <==> AllAccepted(ls[1..], acl, nss[1..])
    requires AllAccepted(ls[1..], acl, nss[1..]) ==>
               NoErrors(Find(tail, acl)) && Skeleton(tail, acl) == Skeleton(ls[1..], acl)
               && Rewritten(tail, acl, mss[1..]) == Rewritten(ls[1..], acl, mss[1..])
    ensures var out := [raw'] + tail;
            && |Find(out, acl)| == |nss|
            && (NamesOf(Find(out, acl)) == nss <==> AllAccepted(ls, acl, nss))
            && (AllAccepted(ls, acl, nss) ==>
                  NoErrors(Find(out, acl)) && Skeleton(out, acl) == Skeleton(ls, acl)
                  && Rewritten(out, acl, mss) == Rewritten(ls, acl, mss))
  {
    hide ParseLine, Lead, Tail, LineAccepts, Find, NamesOf, Rewritten, Skeleton, AllAccepted, WriteLine, IsAcl;
    FindCons(raw', tail, acl);
    RewriteCons(raw', tail, acl, mss);
    SkeletonCons(raw', tail, acl);
    assert ls == [ls[0]] + ls[1..];
    RewriteCons(ls[0], ls[1..], acl, mss);
    SkeletonCons(ls[0], ls[1..], acl);
    AcceptedCons(ls, acl, nss);
    assert nss == [nss[0]] + nss[1..];
    SameWrite(ls[0], raw', acl, mss[0]);
  }

  lemma PlainLaws(ls: seq<string>, acl: string, nss: seq<seq<string>>, mss: seq<seq<string>>, tail: seq<string>)
    requires ls != [] && !IsAcl(ls[0], acl)
    requires |nss| == |Find(ls, acl)| == |mss| == |Find(ls[1..], acl)| == |Find(tail, acl)|
    requires NamesOf(Find(tail, acl)) == nss <==> AllAccepted(ls[1..], acl, nss)
    requires AllAccepted(ls[1..], acl, nss) ==>
               NoErrors(Find(tail, acl)) && Skeleton(tail, acl) == Skeleton(ls[1..], acl)
               && Rewritten(tail, acl, mss) == Rewritten(ls[1..], acl, mss)
    ensures var out := [ls[0]] + tail;
            && |Find(out, acl)| == |nss|
            && (NamesOf(Find(out, acl)) == nss <==> AllAccepted(ls, acl, nss))
            && (AllAccepted(ls, acl, nss) ==>
                  NoErrors(Find(out, acl)) && Skeleton(out, acl) == Skeleton(ls, acl)
                  && Rewritten(out, acl, mss) == Rewritten(ls, acl, mss))
  {
    hide ParseLine, Lead, Tail, LineAccepts, Find, NamesOf, Rewritten, Skeleton, AllAccepted, WriteLine, IsAcl;
    FindCons(ls[0], tail, acl);
    assert [] + Find(tail, acl) == Find(tail, acl);
    RewriteCons(ls[0], tail, acl, mss);
    SkeletonCons(ls[0], tail, acl);
    assert ls == [ls[0]] + ls[1..];
    RewriteCons(ls[0], ls[1..], acl, mss);
    SkeletonCons(ls[0], ls[1..], acl);
    AcceptedCons(ls, acl, nss);
  }

  /** The laws of the file: after a rewrite, parsing gives exactly the names
      written if and only if the flags of their lines accept them; then nothing
      outside the names has changed, on any line, and a second rewrite is the
      same as doing only the second. */
  lemma RewriteLaws(text: string, acl: string, nss: seq<seq<string>>, mss: seq<seq<string>>)
    requires RewriteAcl(text, acl, nss).Some? && AllClean(nss)
    requires |mss| == |nss| && forall k | 0 <= k < |mss| :: mss[k] != []
    ensures var out := RewriteAcl(text, acl, nss).value;
            && (NamesOf(ParseAcl(out, acl)) == nss <==> AllAccepted(Lines(text), acl, nss))
            && (AllAccepted(Lines(text), acl, nss) ==>
                  && Skeleton(Lines(out), acl) == Skeleton(Lines(text), acl)
                  && RewriteAcl(out, acl, mss) == RewriteAcl(text, acl, mss))
  {
    hide ParseLine, Find, Rewritten, AllAccepted, Skeleton, NamesOf;
    var ls := Lines(text);
    RewrittenLaws(ls, acl, nss, mss);
    SplitJoin(Rewritten(ls, acl, nss));
  }

  // ---- a line whose new name is read as a flag ---------------------------------------------------

  const SNI_LEAD := "acl x req_ssl_sni "

  /** A word, and where the blanks behind it end. */
  lemma WordBehind(s: string, i: nat, w: string, j: nat)
    requires i + |w| < j <= |s| && s[i..i + |w|] == w
    requires forall k | i + |w| <= k < j :: IsSpace(s[k])
    requires j < |s| ==> !IsSpace(s[j])
    ensures AfterWord(s, i, w) == Some(j)
  {
    hide IsSpace;
    SkipSpacesIs(s, i + |w|, j);
  }

  lemma SniLeadHead()
    ensures Head(SNI_LEAD, "x") == Some(17)
  {
    var s := SNI_LEAD;
    SkipSpacesIs(s, 0, 0);
    assert s[0..3] == "acl" && s[4..5] == "x" && s[6..17] == "req_ssl_sni" && IsSpace(s[17]);
    WordBehind(s, 0, "acl", 4);
    WordBehind(s, 4, "x", 6);
    hide IsSpace, SkipSpaces, AfterWord;
  }

  lemma SniLeadIsShell()
    ensures Head(SNI_LEAD, "x") == Some(17) && IsShell(SNI_LEAD, "", "x") && Flags(SNI_LEAD, "x") == []
  {
    hide Head, Tokens, HashAt;
    SniLeadHead();
    HashIs(SNI_LEAD, 17, 18);
    HashIs("", 0, 0);
    TokensNone(SNI_LEAD, 17);
  }

  /** The name "-b" written into that line comes back as a flag, not as a name. */
  lemma DashedNameIsLost()
    ensures var text, nss := SNI_LEAD + "a", [["-b"]];
            var out := RewriteAcl(text, "x", nss);
            && NamesOf(ParseAcl(text, "x")) == [["a"]]
            && out.Some? && AllClean(nss) && NamesOf(ParseAcl(out.value, "x")) != nss
  {
    hide Head, ParseLine, IsShell, Flags, Lines;
    var text, nss := SNI_LEAD + "a", [["-b"]];
    SniLeadIsShell();
    assert CleanName("a") && CleanName("-b");
    WrittenLine(SNI_LEAD, ["a"], "", "x");
    assert JoinNames(["a"]) == "a" && SNI_LEAD + "a" + "" == text;
    var e := ParseLine(text, "x").value;
    assert Lines(text) == [text] by { LinesOfOne(text); }
    assert ParseAcl(text, "x") == [e] by { FindOne(text, "x"); }
    assert !LineAccepts(text, "x", e, ["-b"]);
    assert !AllAccepted([text], "x", nss);
    RewriteLaws(text, "x", nss, nss);
  }

  lemma LinesOfOne(text: string)
    requires OneLine(text)
    ensures Lines(text) == [text]
  {
    LinesPrefix(text, "");
    assert text + "" == text && Lines("") == [""];
  }

  lemma FindOne(raw: string, acl: string)
    requires IsAcl(raw, acl)
    ensures Find([raw], acl) == [ParseLine(raw, acl).value]
  {
    hide ParseLine;
    assert [raw][1..] == [] && Find([], acl) == [];
  }

  // ---- the loops of the original -----------------------------------------------------------------

  /** How many ACL lines stand before line i. */
  function Rank(ls: seq<string>, acl: string, i: nat): nat
    requires i <= |ls|
  {
    if i == 0 then 0 else Rank(ls, acl, i - 1) + if IsAcl(ls[i - 1], acl) then 1 else 0
  }

  lemma {:induction false} RankCons(ls: seq<string>, acl: string, i: nat)
    requires 0 < i <= |ls|
    ensures Rank(ls, acl, i) == (if IsAcl(ls[0], acl) then 1 else 0) + Rank(ls[1..], acl, i - 1)
  {
    hide IsAcl;
    if i > 1 { RankCons(ls, acl, i - 1); }
  }

  lemma {:induction false} RankMonotone(ls: seq<string>, acl: string, i: nat, j: nat)
    requires i <= j <= |ls|
    ensures Rank(ls, acl, i) <= Rank(ls, acl, j)
    decreases j - i
  {
    hide IsAcl;
    if i < j { RankMonotone(ls, acl, i, j - 1); }
  }

  lemma {:induction false} RankAll(ls: seq<string>, acl: string)
    ensures Rank(ls, acl, |ls|) == |Find(ls, acl)|
  {
    hide ParseLine;
    if ls != [] {
      RankAll(ls[1..], acl);
      RankCons(ls, acl, |ls|);
    }
  }

  predicate WrittenAt(ls: seq<string>, acl: string, nss: seq<seq<string>>, i: nat, out: string)
    requires i < |ls|
  {
    var e := ParseLine(ls[i], acl);
    if e.Some? then Rank(ls, acl, i) < |nss| && out == WriteLine(ls[i], e.value, nss[Rank(ls, acl, i)]) else out == ls[i]
  }

  /** A rewrite, line by line: each ACL line gets the list of its rank, any
      other line stays. */
  lemma {:induction false} RewrittenAt(ls: seq<string>, acl: string, nss: seq<seq<string>>, i: nat)
    requires |nss| == |Find(ls, acl)| && i < |ls|
    ensures WrittenAt(ls, acl, nss, i, Rewritten(ls, acl, nss)[i])
    decreases |ls|
  {
    hide ParseLine, WriteLine;
    if i > 0 {
      var ns := if IsAcl(ls[0], acl) then nss[1..] else nss;
      RewrittenAt(ls[1..], acl, ns, i - 1);
      RankCons(ls, acl, i);
    }
  }

  /** An entry with the number of its line. */
  datatype AclLine = AclLine(lineno: nat, entry: AclEntry)

  predicate Numbered(out: seq<AclLine>, ls: seq<string>, acl: string, n: nat)
    requires n <= |ls|
  {
    && |out| == Rank(ls, acl, n)
    && (forall k | 0 <= k < |out| ::
          out[k].lineno < n && Rank(ls, acl, out[k].lineno) == k
          && ParseLine(ls[out[k].lineno], acl) == Some(out[k].entry))
  }

  function Entries(out: seq<AclLine>): (r: seq<AclEntry>)
    ensures |r| == |out| && forall k | 0 <= k < |out| :: r[k] == out[k].entry
  {
    seq(|out|, k requires 0 <= k < |out| => out[k].entry)
  }

  method FindAclLines(ls: seq<string>, acl: string) returns (out: seq<AclLine>)
    ensures Numbered(out, ls, acl, |ls|)
    ensures Entries(out) == Find(ls, acl)
  {
    hide ParseLine;
    out := [];
    for n := 0 to |ls|
      invariant Numbered(out, ls, acl, n)
      invariant Entries(out) + Find(ls[n..], acl) == Find(ls, acl)
    {
      assert ls[n..][0] == ls[n] && ls[n..][1..] == ls[n + 1..];
      var e := ParseLine(ls[n], acl);
      if e.Some? {
        assert Entries(out + [AclLine(n, e.value)]) == Entries(out) + [e.value];
        out := out + [AclLine(n, e.value)];
      }
    }
  }

  /** rewrite_acl_text: the entries are found once, then their lines are
      edited one by one in the list of lines. */
  method RewriteAclLines(text: string, acl: string, nss: seq<seq<string>>) returns (r: Option<string>)
    ensures r == RewriteAcl(text, acl, nss)
  {
    hide ParseLine, WriteLine, Find, Rewritten, Rank;
    var lines := Lines(text);
    ghost var ls := lines;
    var entries := FindAclLines(lines, acl);
    var errors := Entries(entries);
    if |entries| != |nss| {
      return None;
    }
    for j := 0 to |entries|
      invariant |lines| == |ls|
      invariant forall k | 0 <= k < j :: errors[k].error == None && nss[k] != []
      invariant forall i | 0 <= i < |ls| ::
                  if IsAcl(ls[i], acl) && Rank(ls, acl, i) < j then WrittenAt(ls, acl, nss, i, lines[i]) else lines[i] == ls[i]
    {
      var e := entries[j];
      if e.entry.error.Some? || nss[j] == [] {
        assert errors[j] == e.entry;
        return None;
      }
      assert lines[e.lineno] == ls[e.lineno];
      SameRankSameLine(ls, acl, e.lineno);
      lines := lines[e.lineno := WriteLine(lines[e.lineno], e.entry, nss[j])];
    }
    RankAll(ls, acl);
    forall i | 0 <= i < |ls| ensures lines[i] == Rewritten(ls, acl, nss)[i] {
      RewrittenAt(ls, acl, nss, i);
      RankBelow(ls, acl, i);
    }
    assert lines == Rewritten(ls, acl, nss);
    r := Some(Unlines(lines));
  }

  lemma RankBelow(ls: seq<string>, acl: string, i: nat)
    requires i < |ls|
    ensures IsAcl(ls[i], acl) ==> Rank(ls, acl, i) < Rank(ls, acl, |ls|)
  {
    hide IsAcl;
    RankMonotone(ls, acl, i + 1, |ls|);
  }

  /** No two ACL lines have the same rank. */
  lemma SameRankSameLine(ls: seq<string>, acl: string, i: nat)
    requires i < |ls| && IsAcl(ls[i], acl)
    ensures forall k | 0 <= k < |ls| && IsAcl(ls[k], acl) :: Rank(ls, acl, k) == Rank(ls, acl, i) ==> k == i
  {
    hide IsAcl;
    forall k | 0 <= k < |ls| && IsAcl(ls[k], acl) && k != i ensures Rank(ls, acl, k) != Rank(ls, acl, i) {
      if k < i { RankMonotone(ls, acl, k + 1, i); } else { RankMonotone(ls, acl, i + 1, k); }
    }
  }
}
