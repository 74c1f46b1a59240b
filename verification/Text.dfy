/** Lines and whitespace, as both configuration grammars need them. */
module Text {
  import opened Wrappers

  /** What a pattern calls white space, newline apart; other Unicode spaces are
      not part of this model. */
  predicate IsSpace(c: char) {
    || c == ' ' || c == '\t' || c == '\r'
    || c as int == 11 || c as int == 12 || 28 <= c as int <= 31 || c as int == 133 || c as int == 160
  }

  predicate AllSpace(s: string) {
    forall i | 0 <= i < |s| :: IsSpace(s[i])
  }

  predicate NoSpace(s: string) {
    forall i | 0 <= i < |s| :: !IsSpace(s[i])
  }

  predicate OneLine(s: string) {
    '\n' !in s
  }

  function SkipSpaces(s: string, i: nat): (j: nat)
    requires i <= |s|
    ensures i <= j <= |s|
    ensures forall k | i <= k < j :: IsSpace(s[k])
    ensures j < |s| ==> !IsSpace(s[j])
    decreases |s| - i
  {
    if i < |s| && IsSpace(s[i]) then SkipSpaces(s, i + 1) else i
  }

  function SkipWord(s: string, i: nat): (j: nat)
    requires i <= |s|
    ensures i <= j <= |s|
    ensures forall k | i <= k < j :: !IsSpace(s[k])
    ensures j < |s| ==> IsSpace(s[j])
    decreases |s| - i
  {
    if i < |s| && !IsSpace(s[i]) then SkipWord(s, i + 1) else i
  }

  predicate StartsAt(s: string, i: nat, w: string) {
    i + |w| <= |s| && s[i..i + |w|] == w
  }

  /** A word at position i and the white space it needs behind it. */
  function AfterWord(s: string, i: nat, w: string): (r: Option<nat>)
    ensures r.Some? ==> i + |w| < r.value <= |s|
  {
    if !StartsAt(s, i, w) then None
    else
      var j := SkipSpaces(s, i + |w|);
      if j == i + |w| then None else Some(j)
  }

  /** The end of s, white space after position i cut off. */
  function TrimEnd(s: string, i: nat): (e: nat)
    requires i <= |s|
    ensures i <= e <= |s|
    ensures forall k | e <= k < |s| :: IsSpace(s[k])
    decreases |s|
  {
    if i < |s| && IsSpace(s[|s| - 1]) then
      var e := TrimEnd(s[..|s| - 1], i);
      assert forall k | e <= k < |s| - 1 :: s[k] == s[..|s| - 1][k];
      e
    else |s|
  }

  lemma {:induction false} SkipSpacesPrefix(a: string, b: string, i: nat, n: nat)
    requires i <= n <= |a| && n <= |b| && a[..n] == b[..n]
    requires SkipSpaces(a, i) < n
    ensures SkipSpaces(b, i) == SkipSpaces(a, i)
    decreases n - i
  {
    hide IsSpace;
    assert a[i] == a[..n][i] && b[i] == b[..n][i];
    if IsSpace(a[i]) { SkipSpacesPrefix(a, b, i + 1, n); }
  }

  lemma StartsAtPrefix(a: string, b: string, i: nat, w: string, n: nat)
    requires n <= |a| && n <= |b| && a[..n] == b[..n] && i + |w| <= n
    ensures StartsAt(a, i, w) <==> StartsAt(b, i, w)
  {
    assert a[i..i + |w|] == a[..n][i..i + |w|];
    assert b[i..i + |w|] == b[..n][i..i + |w|];
  }

  lemma AfterWordStable(a: string, b: string, i: nat, w: string, n: nat)
    requires n <= |a| && n <= |b| && a[..n] == b[..n]
    requires AfterWord(a, i, w).Some? && AfterWord(a, i, w).value < n
    ensures AfterWord(b, i, w) == AfterWord(a, i, w)
  {
    hide IsSpace;
    StartsAtPrefix(a, b, i, w, n);
    SkipSpacesPrefix(a, b, i + |w|, n);
  }

  // ---- lines --------------------------------------------------------------------

  function Lines(s: string): (r: seq<string>)
    ensures |r| >= 1
    ensures forall i | 0 <= i < |r| :: OneLine(r[i])
  {
    if s == "" then [""]
    else if s[0] == '\n' then [""] + Lines(s[1..])
    else
      var r := Lines(s[1..]);
      [[s[0]] + r[0]] + r[1..]
  }

  function Unlines(ls: seq<string>): string
    requires |ls| >= 1
  {
    if |ls| == 1 then ls[0] else ls[0] + "\n" + Unlines(ls[1..])
  }

  /** Joining what was split gives the text back. */
  lemma {:induction false} JoinSplit(s: string)
    ensures Unlines(Lines(s)) == s
  {
    if s != "" {
      JoinSplit(s[1..]);
      var r := Lines(s[1..]);
      assert s == [s[0]] + s[1..];
      if s[0] == '\n' {
        assert ([""] + r)[1..] == r;
        assert Unlines([""] + r) == "" + "\n" + Unlines(r);
      } else if |r| > 1 {
        assert ([[s[0]] + r[0]] + r[1..])[1..] == r[1..];
        assert [s[0]] + (r[0] + "\n" + Unlines(r[1..])) == [s[0]] + r[0] + "\n" + Unlines(r[1..]);
      }
    }
  }

  /** Splitting what was joined gives the lines back, if none held a newline. */
  lemma {:induction false} SplitJoin(ls: seq<string>)
    requires |ls| >= 1 && forall i | 0 <= i < |ls| :: OneLine(ls[i])
    ensures Lines(Unlines(ls)) == ls
    decreases |ls|
  {
    if |ls| == 1 {
      LinesPrefix(ls[0], "");
      assert ls[0] + "" == ls[0];
    } else {
      var rest := Unlines(ls[1..]);
      forall i | 0 <= i < |ls[1..]| ensures OneLine(ls[1..][i]) {
        assert ls[1..][i] == ls[i + 1];
      }
      SplitJoin(ls[1..]);
      LinesPrefix(ls[0], "\n" + rest);
      assert ("\n" + rest)[1..] == rest;
      assert Lines("\n" + rest) == [""] + ls[1..];
      assert ls[0] + "\n" + rest == ls[0] + ("\n" + rest);
      assert ls[0] + "" == ls[0] && ([""] + ls[1..])[1..] == ls[1..];
      assert ls == [ls[0]] + ls[1..];
    }
  }

  lemma {:induction false} LinesPrefix(a: string, b: string)
    requires OneLine(a)
    ensures Lines(a + b) == [a + Lines(b)[0]] + Lines(b)[1..]
  {
    if a == "" {
      assert a + b == b && a + Lines(b)[0] == Lines(b)[0];
    } else {
      assert (a + b)[1..] == a[1..] + b;
      LinesPrefix(a[1..], b);
      assert [a[0]] + (a[1..] + Lines(b)[0]) == a + Lines(b)[0];
    }
  }

  /** Where two texts meet, the last line of the one is completed by the
      first of the other. */
  lemma {:induction false} LinesConcat(a: string, b: string)
    ensures var x, y := Lines(a), Lines(b);
            Lines(a + b) == x[..|x| - 1] + [x[|x| - 1] + y[0]] + y[1..]
  {
    hide OneLine, Lines;
    var x, y := Lines(a), Lines(b);
    if a == "" {
      assert x == [""] by { NoLine(); }
      assert a + b == b && x[..|x| - 1] == [] && x[|x| - 1] + y[0] == y[0];
      assert y == [y[0]] + y[1..];
    } else {
      LinesConcat(a[1..], b);
      assert (a + b)[1..] == a[1..] + b;
      LinesStep(a);
      LinesStep(a + b);
      var z := Lines(a[1..]);
      if a[0] == '\n' {
        assert x[..|x| - 1] == [""] + z[..|z| - 1] && x[|x| - 1] == z[|z| - 1];
      } else if |z| == 1 {
        assert x == [[a[0]] + z[0]] && x[..0] == [] && z[..0] == [];
        assert [a[0]] + (z[0] + y[0]) == x[0] + y[0];
      } else {
        assert x[..|x| - 1] == [[a[0]] + z[0]] + z[1..|z| - 1] && x[|x| - 1] == z[|z| - 1];
        assert z[..|z| - 1] == [z[0]] + z[1..|z| - 1];
      }
    }
  }

  lemma NoLine()
    ensures Lines("") == [""]
  {
  }

  lemma LinesStep(s: string)
    requires s != ""
    ensures var r := Lines(s[1..]);
            Lines(s) == if s[0] == '\n' then [""] + r else [[s[0]] + r[0]] + r[1..]
  {
    hide OneLine;
  }

  // ---- words ---------------------------------------------------------------------

  datatype Token = Token(start: nat, end: nat)

  /** The maximal runs of non-spaces from position i on. */
  function Tokens(s: string, i: nat): (r: seq<Token>)
    requires i <= |s|
    ensures forall t | t in r :: i <= t.start < t.end <= |s|
    decreases |s| - i
  {
    var j := SkipSpaces(s, i);
    if j == |s| then []
    else
      var k := SkipWord(s, j);
      assert k > j;
      [Token(j, k)] + Tokens(s, k)
  }

  function Piece(s: string, t: Token): string {
    if t.start <= t.end <= |s| then s[t.start..t.end] else ""
  }

  function Words(s: string, ts: seq<Token>): seq<string> {
    if ts == [] then [] else [Piece(s, ts[0])] + Words(s, ts[1..])
  }

  function Later(t: Token, d: nat): Token { Token(t.start + d, t.end + d) }

  function Shift(ts: seq<Token>, d: nat): seq<Token> {
    if ts == [] then [] else [Later(ts[0], d)] + Shift(ts[1..], d)
  }

  lemma {:induction false} WordsAt(s: string, ts: seq<Token>)
    ensures |Words(s, ts)| == |ts|
    ensures forall i | 0 <= i < |ts| :: Words(s, ts)[i] == Piece(s, ts[i])
  {
    hide Piece;
    if ts != [] { WordsAt(s, ts[1..]); }
  }

  lemma {:induction false} ShiftAt(ts: seq<Token>, d: nat)
    ensures |Shift(ts, d)| == |ts|
    ensures forall i | 0 <= i < |ts| :: Shift(ts, d)[i] == Later(ts[i], d)
  {
    hide Later;
    if ts != [] { ShiftAt(ts[1..], d); }
  }

  lemma {:induction false} SkipSpacesIs(s: string, i: nat, j: nat)
    requires i <= j <= |s|
    requires forall k | i <= k < j :: IsSpace(s[k])
    requires j < |s| ==> !IsSpace(s[j])
    ensures SkipSpaces(s, i) == j
    decreases j - i
  {
    hide IsSpace;
    if i < j { SkipSpacesIs(s, i + 1, j); }
  }

  lemma {:induction false} SkipWordIs(s: string, i: nat, j: nat)
    requires i <= j <= |s|
    requires forall k | i <= k < j :: !IsSpace(s[k])
    requires j < |s| ==> IsSpace(s[j])
    ensures SkipWord(s, i) == j
    decreases j - i
  {
    hide IsSpace;
    if i < j { SkipWordIs(s, i + 1, j); }
  }

  /** Starting inside leading white space changes nothing. */
  lemma TokensSkip(s: string, i: nat, j: nat)
    requires i <= j <= |s| && forall k | i <= k < j :: IsSpace(s[k])
    ensures Tokens(s, i) == Tokens(s, j)
  {
    hide IsSpace;
    SkipSpacesIs(s, i, SkipSpaces(s, j));
  }

  /** The first token, and the rest. */
  lemma TokensAre(s: string, i: nat, j: nat, k: nat)
    requires i <= j < k <= |s|
    requires forall x | i <= x < j :: IsSpace(s[x])
    requires forall x | j <= x < k :: !IsSpace(s[x])
    requires k < |s| ==> IsSpace(s[k])
    ensures Tokens(s, i) == [Token(j, k)] + Tokens(s, k)
  {
    hide IsSpace, SkipSpaces, SkipWord;
    SkipSpacesIs(s, i, j);
    SkipWordIs(s, j, k);
  }

  lemma TokensNone(s: string, i: nat)
    requires i <= |s| && forall x | i <= x < |s| :: IsSpace(s[x])
    ensures Tokens(s, i) == []
  {
    hide IsSpace, SkipSpaces, SkipWord;
    SkipSpacesIs(s, i, |s|);
  }

  lemma {:induction false} TokensInside(p: string, u: string, d: nat)
    requires d <= |u|
    ensures Tokens(p + u, |p| + d) == Shift(Tokens(u, d), |p|)
    decreases |u| - d
  {
    hide IsSpace, SkipSpaces, SkipWord, Tokens, Later, Shift;
    var s := p + u;
    var n := |p|;
    var j := SkipSpaces(u, d);
    forall x | n + d <= x < n + j ensures IsSpace(s[x]) { assert s[x] == u[x - n]; }
    if j == |u| {
      TokensNone(s, n + d);
      TokensNone(u, d);
      assert Shift([], n) == [] by { NoShift(n); }
    } else {
      var k := SkipWord(u, j);
      forall x | n + j <= x < n + k ensures !IsSpace(s[x]) { assert s[x] == u[x - n]; }
      if k < |u| { assert s[n + k] == u[k]; }
      assert k > j by { WordStarts(u, j); }
      TokensAre(s, n + d, n + j, n + k);
      TokensAre(u, d, j, k);
      TokensInside(p, u, k);
      ShiftCons(Token(j, k), Tokens(u, k), n);
      LaterIs(Token(j, k), n);
    }
  }

  lemma NoShift(d: nat)
    ensures Shift([], d) == []
  {
  }

  lemma WordStarts(s: string, j: nat)
    requires j < |s| && !IsSpace(s[j])
    ensures SkipWord(s, j) > j
  {
    hide IsSpace;
  }

  lemma ShiftCons(t: Token, ts: seq<Token>, d: nat)
    ensures Shift([t] + ts, d) == [Later(t, d)] + Shift(ts, d)
  {
    assert ([t] + ts)[1..] == ts;
  }

  /** A text cut at white space is tokenised piece by piece. */
  lemma {:induction false} TokensConcat(p: string, u: string, i: nat)
    requires i <= |p| && (i == |p| || IsSpace(p[|p| - 1]))
    ensures Tokens(p + u, i) == Tokens(p, i) + Shift(Tokens(u, 0), |p|)
    decreases |p| - i
  {
    hide IsSpace, SkipSpaces, SkipWord, Tokens, Shift;
    var s := p + u;
    assert forall k | 0 <= k < |p| :: s[k] == p[k];
    var j := SkipSpaces(p, i);
    if j == |p| {
      TokensSkip(s, i, |p|);
      TokensInside(p, u, 0);
      TokensNone(p, i);
    } else {
      var k := SkipWord(p, j);
      WordStarts(p, j);
      LastIsSpace(p, i, j, k);
      TokensAre(s, i, j, k);
      TokensAre(p, i, j, k);
      TokensConcat(p, u, k);
      var rest, shifted := Tokens(p, k), Shift(Tokens(u, 0), |p|);
      assert [Token(j, k)] + (rest + shifted) == [Token(j, k)] + rest + shifted;
    }
  }

  lemma LastIsSpace(p: string, i: nat, j: nat, k: nat)
    requires i <= j < k <= |p| && IsSpace(p[|p| - 1])
    requires forall x | j <= x < k :: !IsSpace(p[x])
    ensures k < |p|
  {
    hide IsSpace;
    var last := p[|p| - 1];
  }

  /** White space at the end adds no word. */
  lemma {:induction false} TokensTrailing(p: string, sp: string, i: nat)
    requires i <= |p| && AllSpace(sp)
    ensures Tokens(p + sp, i) == Tokens(p, i)
    decreases |p| - i
  {
    hide IsSpace, SkipSpaces, SkipWord;
    var s := p + sp;
    assert forall k | 0 <= k < |p| :: s[k] == p[k];
    assert forall k | |p| <= k < |s| :: s[k] == sp[k - |p|];
    var j := SkipSpaces(p, i);
    if j == |p| {
      TokensNone(s, i);
    } else {
      var k := SkipWord(p, j);
      assert k > j;
      TokensAre(s, i, j, k);
      TokensTrailing(p, sp, k);
      assert Tokens(p, i) == [Token(j, k)] + Tokens(p, k);
    }
  }

  /** Names as a line holds them: one blank between two. */
  function JoinNames(names: seq<string>): string {
    if names == [] then ""
    else if |names| == 1 then names[0]
    else names[0] + " " + JoinNames(names[1..])
  }

  predicate CleanName(n: string) {
    n != "" && NoSpace(n) && '#' !in n && OneLine(n)
  }

  predicate CleanNames(names: seq<string>) {
    forall i | 0 <= i < |names| :: CleanName(names[i])
  }

  lemma {:induction false} WordsShift(p: string, u: string, ts: seq<Token>)
    requires forall t | t in ts :: t.start < t.end <= |u|
    ensures Words(p + u, Shift(ts, |p|)) == Words(u, ts)
  {
    hide Piece, Later;
    if ts != [] {
      assert ts[0] in ts;
      PieceShift(p, u, ts[0]);
      WordsShift(p, u, ts[1..]);
      assert Shift(ts, |p|)[1..] == Shift(ts[1..], |p|);
    }
  }

  lemma PieceShift(p: string, u: string, t: Token)
    requires t.start < t.end <= |u|
    ensures Piece(p + u, Later(t, |p|)) == Piece(u, t)
  {
    assert (p + u)[t.start + |p|..t.end + |p|] == u[t.start..t.end];
  }

  lemma WordsCons(s: string, t: Token, ts: seq<Token>)
    ensures Words(s, [t] + ts) == [Piece(s, t)] + Words(s, ts)
  {
    hide Piece;
    assert ([t] + ts)[1..] == ts;
  }

  /** Joined names come back as words; the first starts at 0 and the last ends
      where the joined text does, white space after it or not. */
  lemma {:induction false} JoinedTokens(names: seq<string>)
    requires names != [] && CleanNames(names)
    ensures var x := JoinNames(names);
            var ts := Tokens(x, 0);
            && x != "" && !IsSpace(x[0])
            && |ts| == |names| && ts[0].start == 0 && ts[|ts| - 1].end == |x|
            && Words(x, ts) == names
    decreases |names|
  {
    hide IsSpace, SkipSpaces, SkipWord, Tokens, Piece, Words, Shift, Later;
    var x, n := JoinNames(names), names[0];
    assert CleanName(n);
    OneWord(n);
    if |names| == 1 {
      WholePiece(n, "");
      WordsCons(n, Token(0, |n|), []);
      assert [Token(0, |n|)] + [] == [Token(0, |n|)] && n + "" == n;
      assert Words(n, []) == [] by { NoWords(n); }
    } else {
      var rest := names[1..];
      forall i | 0 <= i < |rest| ensures CleanName(rest[i]) { assert rest[i] == names[i + 1]; }
      JoinedTokens(rest);
      OneMoreName(n, JoinNames(rest));
      assert names == [n] + rest;
    }
  }

  /** A name and a blank in front of other words. */
  lemma OneMoreName(n: string, u: string)
    requires n != "" && NoSpace(n) && Tokens(u, 0) != [] && |Words(u, Tokens(u, 0))| == |Tokens(u, 0)|
    ensures var x := n + " " + u;
            var ts, us := Tokens(x, 0), Tokens(u, 0);
            && |ts| == |us| + 1 && ts[0].start == 0 && ts[|us|].end == |n| + 1 + us[|us| - 1].end
            && Words(x, ts) == [n] + Words(u, us)
  {
    hide IsSpace, Tokens, Piece, Words, Shift, Later, NoSpace, AllSpace;
    var p := n + " ";
    var x, us := p + u, Tokens(u, 0);
    OneWord(n);
    BlankIsSpace();
    TokensConcat(p, u, 0);
    TokensTrailing(n, " ", 0);
    assert Tokens(x, 0) == [Token(0, |n|)] + Shift(us, |p|);
    WordsShift(p, u, us);
    assert x == n + (" " + u);
    WholePiece(n, " " + u);
    WordsCons(x, Token(0, |n|), Shift(us, |p|));
    ShiftAt(us, |p|);
    LaterIs(us[|us| - 1], |p|);
  }

  lemma LaterIs(t: Token, d: nat)
    ensures Later(t, d) == Token(t.start + d, t.end + d)
  {
  }

  lemma NoWords(s: string)
    ensures Words(s, []) == []
  {
  }

  lemma WholePiece(n: string, rest: string)
    ensures Piece(n + rest, Token(0, |n|)) == n
  {
    assert (n + rest)[0..|n|] == n;
  }

  lemma BlankIsSpace()
    ensures IsSpace(' ')
    ensures AllSpace(" ")
  {
  }

  lemma OneWord(n: string)
    requires n != "" && NoSpace(n)
    ensures Tokens(n, 0) == [Token(0, |n|)]
  {
    hide IsSpace, SkipSpaces, SkipWord;
    TokensAre(n, 0, 0, |n|);
    TokensNone(n, |n|);
  }
}
