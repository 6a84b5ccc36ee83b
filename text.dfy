/** `String.prototype.trim` and `trimEnd`, which app.js applies to the input. */
module Text {

  /** The characters JavaScript's trimming removes: the white-space characters
      (tab, vertical tab, form feed, the space separators of Unicode and the byte
      order mark) and the line terminators. */
  predicate IsTrimmable(c: char)
  {
    || c == '\t' || c == '\U{000B}' || c == '\U{000C}' || c == ' ' || c == '\U{00A0}' || c == '\U{FEFF}'
    || c == '\U{1680}' || ('\U{2000}' <= c <= '\U{200A}') || c == '\U{202F}' || c == '\U{205F}' || c == '\U{3000}'
    || c == '\n' || c == '\r' || c == '\U{2028}' || c == '\U{2029}'
  }

  predicate AllTrimmable(t: string)
  {
    forall k :: 0 <= k < |t| ==> IsTrimmable(t[k])
  }

  /** `s.trimEnd()`: the longest prefix of `s` that does not end in a trimmable
      character; everything cut off is trimmable. */
  function TrimEnd(s: string): (r: string)
    ensures |r| <= |s| && r == s[..|r|]
    ensures r == [] || !IsTrimmable(r[|r| - 1])
    ensures AllTrimmable(s[|r|..])
    decreases |s|
  {
    if s != [] && IsTrimmable(s[|s| - 1]) then
      var r := TrimEnd(s[..|s| - 1]);
      assert s[|r|..] == s[..|s| - 1][|r|..] + [s[|s| - 1]];
      r
    else
      s
  }

  /** `s.trimStart()`: the longest suffix of `s` that does not start with a
      trimmable character; everything cut off is trimmable. */
  function TrimStart(s: string): (r: string)
    ensures |r| <= |s| && r == s[|s| - |r|..]
    ensures r == [] || !IsTrimmable(r[0])
    ensures AllTrimmable(s[..|s| - |r|])
    decreases |s|
  {
    if s != [] && IsTrimmable(s[0]) then
      var r := TrimStart(s[1..]);
      assert s[..|s| - |r|] == [s[0]] + s[1..][..|s| - 1 - |r|];
      r
    else
      s
  }

  /** `s.trim()`: `s` without its leading and trailing trimmable characters. */
  function Trim(s: string): (r: string)
  {
    TrimStart(TrimEnd(s))
  }

  /** Where the trimmed text starts in the input. */
  function TrimOffset(s: string): nat
  {
    |TrimEnd(s)| - |Trim(s)|
  }

  /** The trimmed text is the stretch of the input at `TrimOffset(s)`, with only
      trimmable characters before and after it, and it neither starts nor ends
      with a trimmable character. */
  lemma TrimShape(s: string)
    ensures var i, r := TrimOffset(s), Trim(s);
            && i + |r| <= |s| && r == s[i..i + |r|]
            && AllTrimmable(s[..i]) && AllTrimmable(s[i + |r|..])
            && (r != [] ==> !IsTrimmable(r[0]) && !IsTrimmable(r[|r| - 1]))
  {
    TrimSlice(s);
    TrimBefore(s);
    TrimEdges(s);
  }

  lemma TrimSlice(s: string)
    ensures TrimOffset(s) + |Trim(s)| == |TrimEnd(s)| <= |s|
    ensures Trim(s) == s[TrimOffset(s)..TrimOffset(s) + |Trim(s)|]
  {
    var e := TrimEnd(s);
    PrefixSlice(s, e, |e| - |Trim(s)|, |e|);
  }

  lemma TrimBefore(s: string)
    ensures TrimOffset(s) <= |s| && AllTrimmable(s[..TrimOffset(s)])
  {
    var e := TrimEnd(s);
    PrefixSlice(s, e, 0, |e| - |Trim(s)|);
  }

  lemma TrimEdges(s: string)
    ensures Trim(s) != [] ==> !IsTrimmable(Trim(s)[0]) && !IsTrimmable(Trim(s)[|Trim(s)| - 1])
  {
    var e := TrimEnd(s);
    var r := Trim(s);
    if r != [] {
      assert r[|r| - 1] == e[|e| - 1];
    }
  }

  /** A stretch of a prefix is the same stretch of the whole. */
  lemma PrefixSlice(s: string, e: string, a: nat, b: nat)
    requires |e| <= |s| && e == s[..|e|] && a <= b <= |e|
    ensures e[a..b] == s[a..b]
  {
  }

  lemma AllTrimmableConcat(a: string, b: string)
    requires AllTrimmable(a) && AllTrimmable(b)
    ensures AllTrimmable(a + b)
  {
    forall k | 0 <= k < |a + b| ensures IsTrimmable((a + b)[k]) {
      if k >= |a| {
        assert (a + b)[k] == b[k - |a|];
      }
    }
  }

  /** The trimmed text is empty exactly when the whole input is trimmable. */
  lemma TrimEmpty(s: string)
    ensures Trim(s) == [] <==> AllTrimmable(s)
  {
    var e := TrimEnd(s);
    var r := TrimStart(e);
    if r == [] {
      assert AllTrimmable(e) by {
        assert e[..|e| - |r|] == e;
      }
      assert s == e + s[|e|..];
      AllTrimmableConcat(e, s[|e|..]);
    } else {
      assert !IsTrimmable(s[|e| - 1]) by {
        assert r[|r| - 1] == e[|e| - 1] == s[|e| - 1];
      }
    }
  }

  /** A text that neither starts nor ends with a trimmable character is its own
      trimmed form. */
  lemma TrimUntrimmedEdges(s: string)
    requires s == [] || (!IsTrimmable(s[0]) && !IsTrimmable(s[|s| - 1]))
    ensures Trim(s) == s
  {
    assert TrimEnd(s) == s;
  }

  /** Trimming twice trims nothing more. */
  lemma TrimIdempotent(s: string)
    ensures Trim(Trim(s)) == Trim(s)
  {
    var r := Trim(s);
    assert TrimEnd(r) == r;
    assert TrimStart(r) == r;
  }
}
