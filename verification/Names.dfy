/** DNS names as the rotation compares them: case-insensitively, in lists that
    keep their order and spelling. */
module Names {

  function LowerChar(c: char): char {
    if 'A' <= c <= 'Z' then (c as int + 32) as char else c
  }

  function Lower(s: string): (r: string)
    ensures |r| == |s|
  {
    seq(|s|, i requires 0 <= i < |s| => LowerChar(s[i]))
  }

  /** Lower-casing twice changes nothing more. */
  lemma LowerIdempotent(s: string)
    ensures Lower(Lower(s)) == Lower(s)
  {
    assert forall i | 0 <= i < |s| :: LowerChar(LowerChar(s[i])) == LowerChar(s[i]);
  }

  function LowerNames(xs: seq<string>): (r: seq<string>)
    ensures |r| == |xs|
    ensures forall i | 0 <= i < |xs| :: r[i] == Lower(xs[i])
  {
    seq(|xs|, i requires 0 <= i < |xs| => Lower(xs[i]))
  }

  /** The names of a list as a set, spelling folded away. */
  function NameSet(xs: seq<string>): set<string> {
    set x | x in LowerNames(xs)
  }

  predicate SameNames(a: seq<string>, b: seq<string>) {
    LowerNames(a) == LowerNames(b)
  }

  type AclLines = seq<seq<string>>

  /** Do two lists of ACL lines agree, line by line and name by name? */
  predicate AclEqual(a: AclLines, b: AclLines) {
    && |a| == |b|
    && forall i | 0 <= i < |a| :: SameNames(a[i], b[i])
  }

  predicate NoEmptyLine(a: AclLines) {
    forall i | 0 <= i < |a| :: a[i] != []
  }

  predicate NoDuplicates(xs: seq<string>) {
    forall i, j | 0 <= i < j < |xs| :: Lower(xs[i]) != Lower(xs[j])
  }

  lemma InNameSet(xs: seq<string>, n: string)
    ensures n in NameSet(xs) <==> exists i :: 0 <= i < |xs| && Lower(xs[i]) == n
  {
    if n in NameSet(xs) {
      var i :| 0 <= i < |xs| && LowerNames(xs)[i] == n;
      assert Lower(xs[i]) == n;
    }
    if i :| 0 <= i < |xs| && Lower(xs[i]) == n {
      assert LowerNames(xs)[i] == n;
    }
  }

  lemma NameSetConcat(a: seq<string>, b: seq<string>)
    ensures NameSet(a + b) == NameSet(a) + NameSet(b)
  {
    forall n
      ensures n in NameSet(a + b) <==> n in NameSet(a) || n in NameSet(b)
    {
      InNameSet(a, n);
      InNameSet(b, n);
      InNameSet(a + b, n);
      if i :| 0 <= i < |a| && Lower(a[i]) == n {
        assert Lower((a + b)[i]) == n;
      }
      if i :| 0 <= i < |b| && Lower(b[i]) == n {
        assert Lower((a + b)[|a| + i]) == n;
      }
    }
  }

  lemma NameSetCons(x: string, xs: seq<string>)
    ensures NameSet([x] + xs) == {Lower(x)} + NameSet(xs)
  {
    NameSetConcat([x], xs);
    forall n ensures n in NameSet([x]) <==> n == Lower(x) {
      InNameSet([x], n);
      assert Lower([x][0]) == Lower(x);
    }
  }

  lemma SameNamesSameSet(a: seq<string>, b: seq<string>)
    requires SameNames(a, b)
    ensures NameSet(a) == NameSet(b)
  {
  }
}
