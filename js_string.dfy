/** `String.prototype.trim` of ECMAScript, over code points. */
module JsString {

  /** The WhiteSpace and LineTerminator code points of ECMAScript: the tab, vertical tab, form
      feed, space, no-break space and byte order mark, the space separators (category Zs), and
      line feed, carriage return, line separator and paragraph separator. */
  predicate IsJsWhitespace(c: char) {
    || c == '\t' || c == '\n' || c == '\U{000B}' || c == '\U{000C}' || c == '\r'
    || c == ' ' || c == '\U{00A0}' || c == '\U{1680}' || ('\U{2000}' <= c <= '\U{200A}')
    || c == '\U{2028}' || c == '\U{2029}' || c == '\U{202F}' || c == '\U{205F}'
    || c == '\U{3000}' || c == '\U{FEFF}'
  }

  predicate AllWhitespace(s: string) {
    forall i :: 0 <= i < |s| ==> IsJsWhitespace(s[i])
  }

  /** `s` with its leading whitespace removed: a suffix of `s` whose dropped part is all whitespace. */
  function TrimStart(s: string): (r: string)
    ensures |r| <= |s| && r == s[|s| - |r|..]
    ensures forall i :: 0 <= i < |s| - |r| ==> IsJsWhitespace(s[i])
    ensures r == [] || !IsJsWhitespace(r[0])
  {
    if |s| > 0 && IsJsWhitespace(s[0]) then
      var r := TrimStart(s[1..]);
      assert s[|s| - |r|..] == s[1..][|s| - 1 - |r|..];
      r
    else
      s
  }

  /** `s` with its trailing whitespace removed: a prefix of `s` whose dropped part is all whitespace. */
  function TrimEnd(s: string): (r: string)
    ensures |r| <= |s| && r == s[..|r|]
    ensures forall i :: |r| <= i < |s| ==> IsJsWhitespace(s[i])
    ensures r == [] || !IsJsWhitespace(r[|r| - 1])
  {
    if |s| > 0 && IsJsWhitespace(s[|s| - 1]) then
      var r := TrimEnd(s[..|s| - 1]);
      assert r == s[..|r|];
      r
    else
      s
  }

  /** `s.trim()`: empty exactly when `s` is all whitespace, otherwise it starts and ends with a
      non-whitespace character. */
  function Trim(s: string): (r: string)
    ensures |r| <= |s|
    ensures r == [] <==> AllWhitespace(s)
    ensures r != [] ==> !IsJsWhitespace(r[0]) && !IsJsWhitespace(r[|r| - 1])
  {
    TrimEmptyExactlyWhenBlank(s);
    TrimEnd(TrimStart(s))
  }

  lemma {:induction false} TrimEmptyExactlyWhenBlank(s: string)
    ensures TrimEnd(TrimStart(s)) == [] <==> AllWhitespace(s)
  {
    var t := TrimStart(s);
    var r := TrimEnd(t);
    assert r == [] ==> s == s[..|s| - |t|];
  }

  /** Padding a clean text with whitespace on both sides and trimming gives the text back. */
  lemma {:induction false} TrimStripsPadding(pre: string, s: string, post: string)
    requires AllWhitespace(pre) && AllWhitespace(post)
    requires s != [] && !IsJsWhitespace(s[0]) && !IsJsWhitespace(s[|s| - 1])
    ensures Trim(pre + s + post) == s
  {
    TrimStartDropsPadding(pre, s + post);
    assert pre + s + post == pre + (s + post);
    TrimEndDropsPadding(s, post);
  }

  lemma {:induction false} TrimStartDropsPadding(pre: string, s: string)
    requires AllWhitespace(pre)
    requires s != [] && !IsJsWhitespace(s[0])
    ensures TrimStart(pre + s) == s
  {
    if pre != [] {
      assert (pre + s)[1..] == pre[1..] + s;
      TrimStartDropsPadding(pre[1..], s);
    }
  }

  lemma {:induction false} TrimEndDropsPadding(s: string, post: string)
    requires AllWhitespace(post)
    requires s != [] && !IsJsWhitespace(s[|s| - 1])
    ensures TrimEnd(s + post) == s
  {
    if post != [] {
      assert (s + post)[..|s + post| - 1] == s + post[..|post| - 1];
      TrimEndDropsPadding(s, post[..|post| - 1]);
    }
  }

  /** Trimming twice is trimming once. */
  lemma {:induction false} TrimIdempotent(s: string)
    ensures Trim(Trim(s)) == Trim(s)
  {
    var r := Trim(s);
    if r != [] {
      TrimStripsPadding([], r, []);
      assert [] + r + [] == r;
    }
  }
}
