/** The parts of Go's `strings` package that the authentication code relies on.
    Go strings are byte strings; here a string is a sequence of Unicode scalar values. */
module Strings {

  /** strings.HasPrefix */
  predicate HasPrefix(s: string, prefix: string)
  {
    |prefix| <= |s| && s[..|prefix|] == prefix
  }

  /** strings.TrimPrefix: `s` without one leading `prefix`, or `s` itself when it does not start with it. */
  function TrimPrefix(s: string, prefix: string): (r: string)
    ensures HasPrefix(s, prefix) ==> prefix + r == s
    ensures !HasPrefix(s, prefix) ==> r == s
  {
    if HasPrefix(s, prefix) then s[|prefix|..] else s
  }

  /** unicode.IsSpace: the Latin-1 spaces '\t', '\n', '\v', '\f', '\r', ' ', U+0085, U+00A0,
      and the other characters with the Unicode White_Space property. */
  predicate IsSpace(c: char)
  {
    || c == '\t' || c == '\n' || c == '\U{000B}' || c == '\U{000C}' || c == '\r' || c == ' '
    || c == '\U{0085}' || c == '\U{00A0}' || c == '\U{1680}'
    || ('\U{2000}' <= c <= '\U{200A}')
    || c == '\U{2028}' || c == '\U{2029}' || c == '\U{202F}' || c == '\U{205F}' || c == '\U{3000}'
  }

  predicate AllSpace(s: string)
  {
    forall i :: 0 <= i < |s| ==> IsSpace(s[i])
  }

  /** A string that neither begins nor ends with white space. */
  predicate Trimmed(s: string)
  {
    s == [] || (!IsSpace(s[0]) && !IsSpace(s[|s| - 1]))
  }

  /** The leading-space half of strings.TrimSpace: a suffix of `s` that has dropped exactly the leading spaces. */
  function TrimLeftSpace(s: string): (r: string)
    ensures |r| <= |s| && r == s[|s| - |r|..]
    ensures AllSpace(s[..|s| - |r|])
    ensures r == [] || !IsSpace(r[0])
    decreases |s|
  {
    if s != [] && IsSpace(s[0]) then
      var r := TrimLeftSpace(s[1..]);
      assert s[..|s| - |r|] == [s[0]] + s[1..][..|s[1..]| - |r|];
      r
    else s
  }

  /** The trailing-space half of strings.TrimSpace: a prefix of `s` that has dropped exactly the trailing spaces. */
  function TrimRightSpace(s: string): (r: string)
    ensures |r| <= |s| && r == s[..|r|]
    ensures AllSpace(s[|r|..])
    ensures r == [] || !IsSpace(r[|r| - 1])
    decreases |s|
  {
    if s != [] && IsSpace(s[|s| - 1]) then
      var r := TrimRightSpace(s[..|s| - 1]);
      assert s[|r|..] == s[..|s| - 1][|r|..] + [s[|s| - 1]];
      r
    else s
  }

  /** strings.TrimSpace: `s` without its leading and trailing white space. */
  function TrimSpace(s: string): (r: string)
    ensures Trimmed(r)
  {
    var l := TrimLeftSpace(s);
    var r := TrimRightSpace(l);
    PrefixTrimmed(l, r);
    r
  }

  /** TrimSpace only cuts: its result is a slice of the input with nothing but white space
      on either side of it. */
  lemma TrimSpaceIsSlice(s: string)
    ensures var r := TrimSpace(s);
            exists i :: 0 <= i <= |s| - |r| && r == s[i..i + |r|]
                        && AllSpace(s[..i]) && AllSpace(s[i + |r|..])
  {
    var l := TrimLeftSpace(s);
    var r := TrimRightSpace(l);
    var i := |s| - |l|;
    assert r == s[i..i + |r|];
    assert s[i + |r|..] == l[|r|..];
  }

  /** A prefix of a string not starting with white space, itself not ending with white space, is trimmed. */
  lemma PrefixTrimmed(l: string, r: string)
    requires |r| <= |l| && r == l[..|r|]
    requires l == [] || !IsSpace(l[0])
    requires r == [] || !IsSpace(r[|r| - 1])
    ensures Trimmed(r)
  {
    if r != [] {
      assert r[0] == l[0];
    }
  }

  /** Leading white space is exactly what TrimLeftSpace skips. */
  lemma {:induction false} TrimLeftSkipsSpace(pre: string, u: string)
    requires AllSpace(pre)
    ensures TrimLeftSpace(pre + u) == TrimLeftSpace(u)
    decreases |pre|
  {
    if pre == [] {
      assert pre + u == u;
    } else {
      assert (pre + u)[0] == pre[0];
      assert (pre + u)[1..] == pre[1..] + u;
      TrimLeftSkipsSpace(pre[1..], u);
    }
  }

  /** Trailing white space is exactly what TrimRightSpace skips. */
  lemma {:induction false} TrimRightSkipsSpace(u: string, post: string)
    requires AllSpace(post)
    ensures TrimRightSpace(u + post) == TrimRightSpace(u)
    decreases |post|
  {
    if post == [] {
      assert u + post == u;
    } else {
      var n := |post| - 1;
      assert (u + post)[|u + post| - 1] == post[n];
      assert (u + post)[..|u + post| - 1] == u + post[..n];
      TrimRightSkipsSpace(u, post[..n]);
    }
  }

  /** Trimming undoes padding: a trimmed string surrounded by any white space comes back unchanged. */
  lemma {:induction false} TrimSpaceOfPadded(pre: string, t: string, post: string)
    requires AllSpace(pre) && AllSpace(post) && Trimmed(t)
    ensures TrimSpace(pre + t + post) == t
  {
    assert pre + t + post == pre + (t + post);
    TrimLeftSkipsSpace(pre, t + post);
    if t == [] {
      assert t + post == post + [];
      TrimLeftSkipsSpace(post, []);
    } else {
      assert (t + post)[0] == t[0];
    }
    assert TrimLeftSpace(pre + t + post) == if t == [] then [] else t + post;
    TrimRightSkipsSpace(t, post);
  }

  /** A string made only of white space trims to the empty string. */
  lemma {:induction false} TrimSpaceOfBlank(s: string)
    requires AllSpace(s)
    ensures TrimSpace(s) == ""
  {
    assert s + "" == s;
    TrimLeftSkipsSpace(s, "");
  }
}
