/** Which ACL lines are left alone: the flags in front of the names, as a
    grammar, and what a rewrite makes of them. */
module AclFlags {
  import opened Wrappers
  import opened Text
  import opened AclText

  /** A flag, or a flag and the word behind it. */
  datatype Flag = Plain(word: string) | WithArg(word: string, arg: string)

  predicate IsFlag(f: Flag) {
    match f
    case Plain(w) => w != "" && w[0] == '-' && w != "--" && w != "-f" && w != "-m" && w != "-u"
    case WithArg(w, _) => w == "-f" || w == "-m" || w == "-u"
  }

  predicate AllFlags(fs: seq<Flag>) { forall i | 0 <= i < |fs| :: IsFlag(fs[i]) }

  function WordsOf(fs: seq<Flag>): seq<string> {
    if fs == [] then []
    else (match fs[0] case Plain(w) => [w] case WithArg(w, arg) => [w, arg]) + WordsOf(fs[1..])
  }

  /** Names from a file, or a comparison other than by the whole name. */
  predicate Forbids(f: Flag) { f.WithArg? && (f.word == "-f" || (f.word == "-m" && f.arg != "str")) }

  predicate AnyForbids(fs: seq<Flag>) { exists i | 0 <= i < |fs| :: Forbids(fs[i]) }

  /** What follows the flags: names, two dashes and then names, or one last
      flag without the word it needs. */
  datatype End = Names(names: seq<string>) | Dashes(names: seq<string>) | Cut(word: string)

  function EndWords(e: End): seq<string> {
    match e
    case Names(ns) => ns
    case Dashes(ns) => ["--"] + ns
    case Cut(w) => [w]
  }

  function EndNames(e: End): seq<string> { if e.Cut? then [] else e.names }

  predicate GoodEnd(e: End) {
    match e
    case Names(ns) => ns == [] || ns[0] == "" || ns[0][0] != '-'
    case Dashes(_) => true
    case Cut(w) => w == "-f" || w == "-m" || w == "-u"
  }

  lemma WordsEnd(ws: seq<string>)
    ensures ws == [] || !Dash(ws[0]) ==> GoodEnd(Names(ws)) && EndWords(Names(ws)) == ws
    ensures ws != [] && ws[0] == "--" ==> GoodEnd(Dashes(ws[1..])) && EndWords(Dashes(ws[1..])) == ws
    ensures |ws| == 1 && TakesArg(ws[0]) ==> GoodEnd(Cut(ws[0])) && EndWords(Cut(ws[0])) == ws
  {
  }

  lemma WordIsFlag(w: string, arg: string)
    ensures Dash(w) && w != "--" && !TakesArg(w) ==> IsFlag(Plain(w))
    ensures TakesArg(w) ==> IsFlag(WithArg(w, arg))
  {
  }

  /** Every list of words is flags and an end. */
  lemma {:induction false} Grammar(ws: seq<string>) returns (fs: seq<Flag>, e: End)
    ensures AllFlags(fs) && GoodEnd(e) && ws == WordsOf(fs) + EndWords(e)
    decreases |ws|
  {
    hide WordsOf, AllFlags, GoodEnd, EndWords, IsFlag, TakesArg;
    NoFlags();
    WordsEnd(ws);
    if ws == [] || !Dash(ws[0]) {
      fs, e := [], Names(ws);
    } else if ws[0] == "--" {
      fs, e := [], Dashes(ws[1..]);
    } else if !TakesArg(ws[0]) {
      fs, e := Grammar(ws[1..]);
      WordIsFlag(ws[0], "");
      FlagCons(Plain(ws[0]), fs);
      assert ws == [ws[0]] + ws[1..];
      fs := [Plain(ws[0])] + fs;
    } else if |ws| == 1 {
      fs, e := [], Cut(ws[0]);
    } else {
      fs, e := Grammar(ws[2..]);
      WordIsFlag(ws[0], ws[1]);
      FlagCons(WithArg(ws[0], ws[1]), fs);
      assert ws == [ws[0], ws[1]] + ws[2..];
      fs := [WithArg(ws[0], ws[1])] + fs;
    }
  }

  lemma NoFlags()
    ensures AllFlags([]) && WordsOf([]) == []
  {
  }

  lemma FlagCons(f: Flag, fs: seq<Flag>)
    requires IsFlag(f) && AllFlags(fs)
    ensures AllFlags([f] + fs)
    ensures WordsOf([f] + fs) == (match f case Plain(w) => [w] case WithArg(w, arg) => [w, arg]) + WordsOf(fs)
  {
    assert ([f] + fs)[1..] == fs;
  }

  /** How a scan goes on, by its first word. */
  lemma ScanFirst(ws: seq<string>)
    ensures ws == [] || !Dash(ws[0]) ==> ScanFlags(ws) == Scan(0, None)
    ensures ws != [] && ws[0] == "--" ==> ScanFlags(ws) == Scan(1, None)
    ensures |ws| == 1 && TakesArg(ws[0]) ==> ScanFlags(ws) == Scan(1, FlagError(ws[0], ""))
  {
  }

  lemma NoArgument(w: string)
    ensures TakesArg(w) ==> (FlagError(w, "").Some? <==> w != "-u")
  {
  }

  lemma ScanEnd(e: End)
    requires GoodEnd(e)
    ensures var ws := EndWords(e);
            ws[ScanFlags(ws).first..] == EndNames(e) && (ScanFlags(ws).error.Some? <==> e.Cut? && e.word != "-u")
  {
    hide ScanFlags, FlagError;
    ScanFirst(EndWords(e));
    match e
    case Names(ns) => assert ns[0..] == ns;
    case Dashes(ns) => assert (["--"] + ns)[1..] == ns;
    case Cut(w) => NoArgument(w);
  }

  /** One flag more in front. */
  lemma ScanOne(f: Flag, tail: seq<string>)
    requires IsFlag(f)
    ensures var here := WordsOf([f]);
            var sc, rest := ScanFlags(here + tail), ScanFlags(tail);
            sc.first == |here| + rest.first && (sc.error.Some? <==> Forbids(f) || rest.error.Some?)
  {
    assert [f][1..] == [] && WordsOf([]) == [];
    var here := WordsOf([f]);
    assert (here + tail)[|here|..] == tail;
  }

  lemma WordsCons(f: Flag, fs: seq<Flag>)
    ensures WordsOf([f] + fs) == WordsOf([f]) + WordsOf(fs)
  {
    assert ([f] + fs)[1..] == fs && [f][1..] == [];
  }

  /** The scan stops at the names, and finds fault exactly with a flag that
      forbids a rewrite, even one that lacks its word. */
  lemma {:induction false} ScanReads(fs: seq<Flag>, e: End)
    requires AllFlags(fs) && GoodEnd(e)
    ensures var ws := WordsOf(fs) + EndWords(e);
            && ws[ScanFlags(ws).first..] == EndNames(e)
            && (ScanFlags(ws).error.Some? <==> AnyForbids(fs) || (e.Cut? && e.word != "-u"))
  {
    hide ScanFlags, IsFlag, Forbids, EndWords, EndNames, GoodEnd, AnyForbids;
    if fs == [] {
      assert WordsOf([]) + EndWords(e) == EndWords(e);
      ScanEnd(e);
      NoFlagForbids();
    } else {
      var f, rest, tail := fs[0], fs[1..], WordsOf(fs[1..]) + EndWords(e);
      assert fs == [f] + rest && forall i | 0 <= i < |rest| :: rest[i] == fs[i + 1];
      ScanReads(rest, e);
      ScanOne(f, tail);
      WordsCons(f, rest);
      var here := WordsOf([f]);
      assert here + WordsOf(rest) + EndWords(e) == here + tail;
      var n := ScanFlags(tail).first;
      assert (here + tail)[|here| + n..] == tail[n..];
      AnyForbidsTail(fs);
    }
  }

  lemma NoFlagForbids()
    ensures !AnyForbids([])
  {
  }

  lemma AnyForbidsTail(fs: seq<Flag>)
    requires fs != []
    ensures AnyForbids(fs) <==> Forbids(fs[0]) || AnyForbids(fs[1..])
  {
    hide Forbids;
    forall i | 0 <= i < |fs[1..]| && Forbids(fs[1..][i]) ensures AnyForbids(fs) { assert Forbids(fs[i + 1]); }
    forall i | 0 < i < |fs| && Forbids(fs[i]) ensures AnyForbids(fs[1..]) { assert Forbids(fs[1..][i - 1]); }
  }

  /** The words of an ACL line behind its head, without a comment. */
  function CodeWords(raw: string, acl: string): seq<string>
    requires Head(raw, acl).Some?
  {
    var base := Head(raw, acl).value;
    var code := raw[..HashAt(raw, base)];
    Words(code, Tokens(code, base))
  }

  lemma LineReads(raw: string, acl: string) returns (fs: seq<Flag>, e: End)
    requires Head(raw, acl).Some?
    ensures AllFlags(fs) && GoodEnd(e) && CodeWords(raw, acl) == WordsOf(fs) + EndWords(e)
    ensures var entry := ParseLine(raw, acl);
            && entry.Some? && entry.value.names == EndNames(e)
            && (entry.value.error.Some? <==> AnyForbids(fs) || (e.Cut? && e.word != "-u"))
  {
    hide Head, Tokens, Words, HashAt, IsSpace, ScanFlags, AnyForbids;
    fs, e := Grammar(CodeWords(raw, acl));
    ScanReads(fs, e);
  }

  lemma {:induction false} FoundLine(ls: seq<string>, acl: string, i: nat)
    requires i < |ls| && IsAcl(ls[i], acl)
    ensures ParseLine(ls[i], acl).value in Find(ls, acl)
  {
    hide ParseLine;
    if i > 0 { FoundLine(ls[1..], acl, i - 1); }
  }

  /** A file with a line of the ACL whose flags forbid a rewrite is refused,
      whatever the lists of names. */
  lemma ForbiddenIsRefused(text: string, acl: string, nss: seq<seq<string>>, i: nat, fs: seq<Flag>, e: End)
    requires i < |Lines(text)| && Head(Lines(text)[i], acl).Some?
    requires AllFlags(fs) && GoodEnd(e) && CodeWords(Lines(text)[i], acl) == WordsOf(fs) + EndWords(e)
    requires AnyForbids(fs) || (e.Cut? && e.word != "-u")
    ensures RewriteAcl(text, acl, nss) == None
  {
    hide Head, Tokens, Words, HashAt, IsSpace, ScanFlags, AnyForbids, Lines, Find, Rewritten;
    var ls := Lines(text);
    ScanReads(fs, e);
    FoundLine(ls, acl, i);
    var entry := ParseLine(ls[i], acl).value;
    var k :| 0 <= k < |Find(ls, acl)| && Find(ls, acl)[k] == entry;
    assert ParseAcl(text, acl)[k].error.Some?;
  }

  lemma {:induction false} FromLine(ls: seq<string>, acl: string, e: AclEntry) returns (i: nat)
    requires e in Find(ls, acl)
    ensures i < |ls| && ParseLine(ls[i], acl) == Some(e)
  {
    hide ParseLine;
    if ParseLine(ls[0], acl) == Some(e) {
      i := 0;
    } else {
      i := FromLine(ls[1..], acl, e);
      i := i + 1;
    }
  }

  predicate Flagged(raw: string, acl: string) { IsAcl(raw, acl) && ParseLine(raw, acl).value.error.Some? }

  predicate SomeFlagged(ls: seq<string>, acl: string) { exists i | 0 <= i < |ls| :: Flagged(ls[i], acl) }

  predicate SomeError(en: seq<AclEntry>) { exists k | 0 <= k < |en| :: en[k].error.Some? }

  predicate SomeEmpty(nss: seq<seq<string>>) { exists k | 0 <= k < |nss| :: |nss[k]| == 0 }

  lemma FlaggedIff(ls: seq<string>, acl: string)
    ensures SomeError(Find(ls, acl)) <==> SomeFlagged(ls, acl)
  {
    hide ParseLine, Find;
    var en := Find(ls, acl);
    if i :| 0 <= i < |ls| && Flagged(ls[i], acl) {
      FoundLine(ls, acl, i);
      var k :| 0 <= k < |en| && en[k] == ParseLine(ls[i], acl).value;
      assert en[k].error.Some?;
    }
    forall k | 0 <= k < |en| && en[k].error.Some? ensures SomeFlagged(ls, acl) {
      var i := FromLine(ls, acl, en[k]);
      assert Flagged(ls[i], acl);
    }
  }

  lemma RefusedOf(text: string, acl: string, nss: seq<seq<string>>)
    ensures var en := ParseAcl(text, acl);
            RewriteAcl(text, acl, nss) == None <==> |nss| != |en| || SomeEmpty(nss) || SomeError(en)
  {
    hide ParseAcl, Rewritten, Unlines, Lines;
    var en := ParseAcl(text, acl);
    if |en| == |nss| {
      if RewriteAcl(text, acl, nss) == None {
        var k :| 0 <= k < |en| && (en[k].error.Some? || nss[k] == []);
        if nss[k] == [] { assert |nss[k]| == 0; }
      }
      if SomeEmpty(nss) {
        var k :| 0 <= k < |nss| && |nss[k]| == 0;
        assert en[k].error.Some? || nss[k] == [];
      }
      if SomeError(en) {
        var k :| 0 <= k < |en| && en[k].error.Some?;
        assert nss[k] == [] || en[k].error.Some?;
      }
    }
  }

  /** A rewrite is refused if and only if there are not as many lists as lines of
      the ACL, one of them is empty, or a line is flagged. */
  lemma RefusedIff(text: string, acl: string, nss: seq<seq<string>>)
    ensures RewriteAcl(text, acl, nss) == None <==>
              |nss| != |ParseAcl(text, acl)| || SomeEmpty(nss) || SomeFlagged(Lines(text), acl)
  {
    hide Find, SomeError, SomeFlagged, SomeEmpty, RewriteAcl, Lines;
    RefusedOf(text, acl, nss);
    FlaggedIff(Lines(text), acl);
  }

  // ---- which lines are lines of the ACL ---------------------------------------------------------

  /** Blanks up to i, `acl` and blanks up to j, the ACL's name and blanks up to
      k, one of the two ways to ask for the SNI, and a blank or the end. */
  predicate HeadShape(raw: string, acl: string, i: nat, j: nat, k: nat) {
    && i + 3 < j && j + |acl| < k && k + 11 <= |raw|
    && AllSpace(raw[..i]) && raw[i..i + 3] == "acl" && AllSpace(raw[i + 3..j])
    && raw[j..j + |acl|] == acl && AllSpace(raw[j + |acl|..k])
    && (raw[k..k + 11] == "req_ssl_sni" || raw[k..k + 11] == "req.ssl_sni")
    && (k + 11 == |raw| || IsSpace(raw[k + 11]))
  }

  lemma Skipped(s: string, i: nat)
    requires i <= |s|
    ensures AllSpace(s[i..SkipSpaces(s, i)])
  {
    hide IsSpace;
  }

  lemma WordHere(s: string, i: nat, w: string)
    requires AfterWord(s, i, w).Some?
    ensures s[i..i + |w|] == w && AllSpace(s[i + |w|..AfterWord(s, i, w).value])
  {
    hide IsSpace;
    Skipped(s, i + |w|);
  }

  lemma BlanksThenWord(s: string, i: nat, w: string, j: nat)
    requires i + |w| < j < |s| && s[i..i + |w|] == w && AllSpace(s[i + |w|..j]) && !IsSpace(s[j])
    ensures AfterWord(s, i, w) == Some(j)
  {
    hide IsSpace;
    forall k | i + |w| <= k < j ensures IsSpace(s[k]) { assert s[k] == s[i + |w|..j][k - i - |w|]; }
    WordBehind(s, i, w, j);
  }

  lemma HeadFound(raw: string, acl: string) returns (i: nat, j: nat, k: nat)
    requires Head(raw, acl).Some?
    ensures HeadShape(raw, acl, i, j, k) && Head(raw, acl).value == k + 11
  {
    hide IsSpace, SkipSpaces, AllSpace;
    i := SkipSpaces(raw, 0);
    Skipped(raw, 0);
    assert raw[0..i] == raw[..i];
    j := AfterWord(raw, i, "acl").value;
    WordHere(raw, i, "acl");
    k := AfterWord(raw, j, acl).value;
    WordHere(raw, j, acl);
  }

  lemma HeadThere(raw: string, acl: string, i: nat, j: nat, k: nat)
    requires acl != "" && NoSpace(acl) && HeadShape(raw, acl, i, j, k)
    ensures Head(raw, acl) == Some(k + 11)
  {
    assert raw[i] == raw[i..i + 3][0] == 'a';
    assert raw[j] == raw[j..j + |acl|][0] == acl[0];
    assert raw[k] == raw[k..k + 11][0] == 'r';
    LettersAreNoSpace();
    assert !IsSpace(acl[0]);
    hide IsSpace;
    forall x | 0 <= x < i ensures IsSpace(raw[x]) { assert raw[x] == raw[..i][x]; }
    SkipSpacesIs(raw, 0, i);
    BlanksThenWord(raw, i, "acl", j);
    BlanksThenWord(raw, j, acl, k);
    hide AfterWord, SkipSpaces, AllSpace;
  }

  lemma LettersAreNoSpace()
    ensures !IsSpace('a') && !IsSpace('r')
  {
  }

  /** A line is one of the ACL if and only if it has this shape; its words begin
      behind that. */
  lemma HeadIff(raw: string, acl: string)
    requires acl != "" && NoSpace(acl)
    ensures Head(raw, acl).Some? <==> exists i: nat, j: nat, k: nat :: HeadShape(raw, acl, i, j, k)
    ensures forall i: nat, j: nat, k: nat | HeadShape(raw, acl, i, j, k) :: Head(raw, acl) == Some(k + 11)
  {
    hide Head, HeadShape;
    if Head(raw, acl).Some? { var i, j, k := HeadFound(raw, acl); }
    forall i: nat, j: nat, k: nat | HeadShape(raw, acl, i, j, k) ensures Head(raw, acl) == Some(k + 11) {
      HeadThere(raw, acl, i, j, k);
    }
  }
}
