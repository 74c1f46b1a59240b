/** The compare-and-write drivers on the host's files: HAPROXY_WRITE and
    ENV_WRITE (scripts/rotate_reality_dest.py). They implement on text what the
    rotation relies on for parsed values. */
module HostFiles {
  import opened Wrappers
  import opened Names
  import opened Text
  import A = AclText
  import E = EnvText

  datatype WriteResult = WriteResult(ok: bool, conflict: bool, changed: bool)

  /** The ACL lists of a configuration. */
  function AclOf(text: string, acl: string): AclLines {
    A.NamesOf(A.ParseAcl(text, acl))
  }

  /** The target can be written and told apart from the flags of its lines. */
  predicate Readable(text: string, acl: string, target: AclLines) {
    && A.AllClean(target)
    && |target| == |A.ParseAcl(text, acl)|
    && A.AllAccepted(Lines(text), acl, target)
  }

  lemma RewriteReads(text: string, acl: string, target: AclLines)
    requires A.RewriteAcl(text, acl, target).Some? && Readable(text, acl, target)
    ensures AclOf(A.RewriteAcl(text, acl, target).value, acl) == target
    ensures A.Skeleton(Lines(A.RewriteAcl(text, acl, target).value), acl) == A.Skeleton(Lines(text), acl)
  {
    hide A.RewriteAcl, A.NamesOf, A.Skeleton, A.AllAccepted;
    A.RewriteLaws(text, acl, target, target);
  }

  /** haproxy.cfg, its temporary sibling and its last backup. */
  class HaproxyFile {
    var cfg: string
    var tmp: Option<string>
    var bak: Option<string>

    constructor (text: string)
      ensures cfg == text && tmp == None && bak == None
    {
      cfg, tmp, bak := text, None, None;
    }

    /** `checked` and `reloaded` are the outcomes of haproxy -c and of the
        reload. Either the new text is in place, or the old one is. */
    method Write(acl: string, expected: AclLines, target: AclLines, checked: bool, reloaded: bool)
      returns (r: WriteResult)
      requires tmp == None
      modifies this
      ensures tmp == None
      ensures r.conflict <==> !AclEqual(AclOf(old(cfg), acl), expected)
      ensures r.ok <==> !r.conflict && A.RewriteAcl(old(cfg), acl, target).Some?
                        && (A.RewriteAcl(old(cfg), acl, target) == Some(old(cfg)) || (checked && reloaded))
      ensures r.ok ==> A.RewriteAcl(old(cfg), acl, target) == Some(cfg)
      ensures !r.ok ==> cfg == old(cfg)
      ensures r.changed <==> cfg != old(cfg)
      ensures r.changed ==> bak == Some(old(cfg))
      ensures r.ok && Readable(old(cfg), acl, target) ==>
                AclOf(cfg, acl) == target && A.Skeleton(Lines(cfg), acl) == A.Skeleton(Lines(old(cfg)), acl)
    {
      hide A.RewriteAcl, A.NamesOf, A.Skeleton, Readable;
      var text := cfg;
      var entries := A.FindAclLines(Lines(text), acl);
      var cur := AclOf(text, acl);
      if !AclEqual(cur, expected) {
        return WriteResult(false, true, false);
      }
      var newText := A.RewriteAclLines(text, acl, target);
      if newText == None {
        return WriteResult(false, false, false);
      }
      if Readable(text, acl, target) { RewriteReads(text, acl, target); }
      if newText.value == text {
        return WriteResult(true, false, false);
      }
      tmp := newText;
      if !checked {
        tmp := None;
        return WriteResult(false, false, false);
      }
      bak := Some(cfg);
      cfg, tmp := tmp.value, None;
      if !reloaded {
        cfg := bak.value;
        return WriteResult(false, false, false);
      }
      r := WriteResult(true, false, true);
    }
  }

  /** The .env of the bot. */
  class EnvFile {
    var text: string
    var bak: Option<string>

    constructor (from: string)
      ensures text == from && bak == None
    {
      text, bak := from, None;
    }

    /** The text after a write that did not conflict is the rewritten one, and
        the answer is ok exactly when the check reads the value back. */
    method Write(key: string, expected: Option<string>, value: Option<string>) returns (r: WriteResult)
      modifies this
      ensures r.conflict <==> E.ParseEnv(old(text), key).1 <= 1 && E.ParseEnv(old(text), key).0 != expected
      ensures if E.ParseEnv(old(text), key).1 <= 1 && !r.conflict then E.RewriteEnv(old(text), key, value) == Some(text)
              else text == old(text)
      ensures r.ok <==> E.ParseEnv(old(text), key).1 <= 1 && !r.conflict && E.ParseEnv(text, key).0 == value
      ensures E.ParseEnv(old(text), key).1 <= 1 && !r.conflict && Settable(key, value) ==> r.ok
      ensures r.changed <==> text != old(text)
      ensures r.changed ==> bak == Some(old(text))
    {
      hide E.ParseEnv, E.RewriteEnv, E.GoodKey, E.CleanValue;
      var cur, count := E.ParseEnvValue(text, key);
      if count > 1 {
        return WriteResult(false, false, false);
      }
      if cur != expected {
        return WriteResult(false, true, false);
      }
      NoneOrOne(text, key, value);
      if Settable(key, value) { WriteReads(text, key, value); }
      var newText := E.RewriteEnvText(text, key, value);
      if newText.value == text {
        return WriteResult(true, false, false);
      }
      bak := Some(text);
      text := newText.value;
      var check, _ := E.ParseEnvValue(text, key);
      r := WriteResult(check == value, false, true);
    }
  }

  predicate Settable(key: string, value: Option<string>) {
    E.GoodKey(key) && (value.Some? ==> E.CleanValue(value.value))
  }

  /** A key that is not defined twice can be rewritten; and a rewrite that
      changes nothing asked for the value that was there. */
  lemma NoneOrOne(text: string, key: string, value: Option<string>)
    requires E.ParseEnv(text, key).1 <= 1
    ensures E.RewriteEnv(text, key, value).Some?
    ensures E.RewriteEnv(text, key, value) == Some(text) ==> E.ParseEnv(text, key).0 == value
  {
    hide E.Assignment, E.Appended;
    var ls := Lines(text);
    E.CountIsHits(ls, key, |ls|);
    if E.Hits(ls, key, |ls|) == [] {
      if value.Some? { AppendGrows(text, key, value.value); }
    } else if value.Some? {
      var pre, post := E.SetTouchesOnlyTheValue(text, key, value.value);
      SameMiddle(pre, E.ParseEnv(text, key).0.value, value.value, post);
    } else {
      RemoveShrinks(text, key);
    }
  }

  lemma AppendGrows(text: string, key: string, w: string)
    ensures |E.Appended(text, key, w)| > |text|
  {
  }

  lemma SameMiddle(pre: string, v: string, w: string, post: string)
    ensures pre + v + post == pre + w + post ==> v == w
  {
    if pre + v + post == pre + w + post {
      var a, b := pre + v + post, pre + w + post;
      assert |v| == |w|;
      assert v == a[|pre|..|pre| + |v|] && w == b[|pre|..|pre| + |w|];
    }
  }

  lemma RemoveShrinks(text: string, key: string)
    requires E.ParseEnv(text, key).1 == 1
    ensures E.RewriteEnv(text, key, None) != Some(text)
  {
    hide E.Assignment, E.Hits, Lines, OneLine;
    var ls := Lines(text);
    E.CountIsHits(ls, key, |ls|);
    var i := E.TheOnly(ls, key);
    var rest := ls[..i] + ls[i + 1..];
    if rest != [] {
      forall k | 0 <= k < |rest| ensures OneLine(rest[k]) { assert rest[k] == ls[if k < i then k else k + 1]; }
      SplitJoin(rest);
      assert |Lines(Unlines(rest))| < |ls|;
    } else {
      assert ls == [ls[0]];
      JoinSplit(text);
      EmptyDefinesNothing(text, key);
    }
  }

  lemma EmptyDefinesNothing(raw: string, key: string)
    requires E.Defines(raw, key)
    ensures raw != ""
  {
    hide IsSpace;
  }

  /** Whatever is set or removed is what the check after the write reads. */
  lemma WriteReads(text: string, key: string, value: Option<string>)
    requires Settable(key, value) && E.ParseEnv(text, key).1 <= 1
    ensures E.RewriteEnv(text, key, value).Some?
    ensures E.ParseEnv(E.RewriteEnv(text, key, value).value, key).0 == value
  {
    hide E.GoodKey, E.CleanValue, E.Assignment;
    if value.Some? {
      E.SetThenParse(text, key, value.value);
    } else if E.ParseEnv(text, key).1 == 1 {
      var _ := E.RemoveThenParse(text, key);
    } else {
      E.CountIsHits(Lines(text), key, |Lines(text)|);
    }
  }
}
