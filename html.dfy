/**
 * `stripHtmlTags` (helpers/commons.js:13-15): `html.replace(/<[^>]*>?/gm, "")`.
 *
 * The global regex scans left to right. At a `<` a match always succeeds: it takes
 * the `<`, every following character up to (not including) the next `>`, and that
 * `>` when there is one. Any other character is not the start of a match and is kept.
 * The `m` flag changes nothing because the pattern has no `^` or `$`.
 */
module Html {
  import opened Strings

  predicate NoOpenBracket(s: string) {
    forall i :: 0 <= i < |s| ==> s[i] != '<'
  }

  /**
   * What is left after a tag whose `<` has been consumed: `[^>]*` skips to the next
   * `>` and `>?` consumes it; with no `>` the tag runs to the end of the text.
   */
  function AfterTag(t: string): (r: string)
    ensures |r| <= |t|
  {
    if t == [] then []
    else if t[0] == '>' then t[1..]
    else AfterTag(t[1..])
  }

  /** What is left after a tag is the end of the text, unchanged. */
  lemma {:induction false} AfterTagIsSuffix(t: string)
    ensures AfterTag(t) == t[|t| - |AfterTag(t)|..]
    decreases |t|
  {
    if t != [] && t[0] != '>' {
      AfterTagIsSuffix(t[1..]);
      assert t[1..][|t| - 1 - |AfterTag(t)|..] == t[|t| - |AfterTag(t)|..];
    }
  }

  /** The text `stripHtmlTags` returns. */
  function Strip(s: string): (r: string)
    decreases |s|
  {
    if s == [] then []
    else if s[0] == '<' then Strip(AfterTag(s[1..]))
    else [s[0]] + Strip(s[1..])
  }

  /** No `<` survives: every `<` starts a match that removes it. */
  lemma {:induction false} StripRemovesOpenBrackets(s: string)
    ensures NoOpenBracket(Strip(s))
    decreases |s|
  {
    if s != [] {
      if s[0] == '<' {
        StripRemovesOpenBrackets(AfterTag(s[1..]));
      } else {
        StripRemovesOpenBrackets(s[1..]);
      }
    }
  }

  /** Text without `<` contains no match and comes back unchanged. */
  lemma {:induction false} StripKeepsTagFreeText(s: string)
    requires NoOpenBracket(s)
    ensures Strip(s) == s
    decreases |s|
  {
    if s != [] {
      assert s[0] != '<';
      StripKeepsTagFreeText(s[1..]);
    }
  }

  /** Stripping twice is the same as stripping once. */
  lemma StripIdempotent(s: string)
    ensures Strip(Strip(s)) == Strip(s)
  {
    StripRemovesOpenBrackets(s);
    StripKeepsTagFreeText(Strip(s));
  }

  /** The result keeps some characters of the input, in their order. */
  lemma {:induction false} StripIsSubsequence(s: string)
    ensures IsSubsequence(Strip(s), s)
    decreases |s|
  {
    if s != [] {
      if s[0] == '<' {
        var t := s[1..];
        var rest := AfterTag(t);
        StripIsSubsequence(rest);
        AfterTagIsSuffix(t);
        assert rest == s[|s| - |rest|..];
        SubsequenceOfSuffix(Strip(rest), s, |s| - |rest|);
      } else {
        StripIsSubsequence(s[1..]);
        assert ([s[0]] + Strip(s[1..]))[1..] == Strip(s[1..]);
      }
    }
  }

  /** Hence the result is never longer than the input. */
  lemma StripNeverLonger(s: string)
    ensures |Strip(s)| <= |s|
  {
    StripIsSubsequence(s);
    SubsequenceLength(Strip(s), s);
  }

  /** Text before the first `<` passes through, whatever follows it. */
  lemma {:induction false} StripTagFreePrefix(prefix: string, tail: string)
    requires NoOpenBracket(prefix)
    ensures Strip(prefix + tail) == prefix + Strip(tail)
    decreases |prefix|
  {
    if prefix != [] {
      var w := prefix + tail;
      assert w[0] == prefix[0] && w[0] != '<';
      assert w[1..] == prefix[1..] + tail;
      StripTagFreePrefix(prefix[1..], tail);
      calc {
        Strip(w);
        [w[0]] + Strip(w[1..]);
        [prefix[0]] + (prefix[1..] + Strip(tail));
        ([prefix[0]] + prefix[1..]) + Strip(tail);
        { assert [prefix[0]] + prefix[1..] == prefix; }
        prefix + Strip(tail);
      }
    } else {
      assert prefix + tail == tail;
    }
  }

  /** An unclosed tag removes everything from its `<` to the end. */
  lemma UnclosedTagRunsToEnd(prefix: string, tail: string)
    requires NoOpenBracket(prefix)
    requires forall i :: 0 <= i < |tail| ==> tail[i] != '>'
    ensures Strip(prefix + ("<" + tail)) == prefix
  {
    StripTagFreePrefix(prefix, "<" + tail);
    assert ("<" + tail)[1..] == tail;
    UnclosedTagIsDropped(tail);
  }

  lemma {:induction false} UnclosedTagIsDropped(tail: string)
    requires forall i :: 0 <= i < |tail| ==> tail[i] != '>'
    ensures AfterTag(tail) == []
    decreases |tail|
  {
    if tail != [] {
      UnclosedTagIsDropped(tail[1..]);
    }
  }

  /** A closed tag `<name>` is removed and the text around it is kept in order. */
  lemma ClosedTagIsRemoved(prefix: string, name: string, rest: string)
    requires NoOpenBracket(prefix)
    requires forall i :: 0 <= i < |name| ==> name[i] != '>'
    ensures Strip(prefix + ("<" + (name + (">" + rest)))) == prefix + Strip(rest)
  {
    var tag := "<" + (name + (">" + rest));
    StripTagFreePrefix(prefix, tag);
    assert tag[1..] == name + (">" + rest);
    ClosedTagBody(name, rest);
  }

  lemma {:induction false} ClosedTagBody(name: string, rest: string)
    requires forall i :: 0 <= i < |name| ==> name[i] != '>'
    ensures AfterTag(name + (">" + rest)) == rest
    decreases |name|
  {
    if name != [] {
      assert (name + (">" + rest))[1..] == name[1..] + (">" + rest);
      ClosedTagBody(name[1..], rest);
    } else {
      assert name + (">" + rest) == ">" + rest;
    }
  }

  /** `"a<b"` becomes `"a"`: the unclosed tag takes the rest of the text. */
  lemma UnclosedExample()
    ensures Strip("a<b") == "a"
  {
    assert Strip("<b") == "";
  }

  /** `"a<b>c>"` becomes `"ac>"`: the tag goes, and the `>` that no tag consumed stays. */
  lemma ClosedExample()
    ensures Strip("a<b>c>") == "ac>"
  {
    assert AfterTag("b>c>") == "c>";
    assert Strip("c>") == "c>";
  }
}
