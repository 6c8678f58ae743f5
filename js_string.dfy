/** JavaScript's `String.prototype.trim`, which the role form uses to reject
    blank names. ECMAScript strips the WhiteSpace and LineTerminator code
    points from both ends of a string. */
module JsString {

  /** The code points ECMAScript counts as WhiteSpace (TAB, VT, FF, ZWNBSP and
      every space separator of category Zs) or as LineTerminator (LF, CR,
      LS, PS). */
  predicate IsWhitespace(c: char) {
    c in {
      '\t', '\n', '\U{000B}', '\U{000C}', '\r', ' ', '\U{00A0}', '\U{1680}',
      '\U{2000}', '\U{2001}', '\U{2002}', '\U{2003}', '\U{2004}', '\U{2005}',
      '\U{2006}', '\U{2007}', '\U{2008}', '\U{2009}', '\U{200A}',
      '\U{2028}', '\U{2029}', '\U{202F}', '\U{205F}', '\U{3000}', '\U{FEFF}'
    }
  }

  predicate AllWhitespace(s: string) {
    forall i :: 0 <= i < |s| ==> IsWhitespace(s[i])
  }

  /** Drops the leading run of whitespace: the result is a suffix of `s`
      that does not start with whitespace, and what was dropped is all
      whitespace. */
  function TrimStart(s: string): (r: string)
    ensures |r| <= |s| && r == s[|s| - |r|..]
    ensures AllWhitespace(s[..|s| - |r|])
    ensures r == [] || !IsWhitespace(r[0])
  {
    if |s| > 0 && IsWhitespace(s[0]) then
      var r := TrimStart(s[1..]);
      assert s[..|s| - |r|] == [s[0]] + s[1..][..|s| - 1 - |r|];
      r
    else s
  }

  /** Drops the trailing run of whitespace: the result is a prefix of `s`
      that does not end with whitespace, and what was dropped is all
      whitespace. */
  function TrimEnd(s: string): (r: string)
    ensures |r| <= |s| && r == s[..|r|]
    ensures AllWhitespace(s[|r|..])
    ensures r == [] || !IsWhitespace(r[|r| - 1])
  {
    if |s| > 0 && IsWhitespace(s[|s| - 1]) then
      var r := TrimEnd(s[..|s| - 1]);
      assert s[|r|..] == s[..|s| - 1][|r|..] + [s[|s| - 1]];
      r
    else s
  }

  /** `s.trim()`: neither end of the result is whitespace, and the result is
      empty exactly when every character of `s` is whitespace (the empty
      string included), which is when `!s.trim()` holds. */
  function Trim(s: string): (r: string)
    ensures r == [] || (!IsWhitespace(r[0]) && !IsWhitespace(r[|r| - 1]))
    ensures r == [] <==> AllWhitespace(s)
  {
    var t := TrimStart(s);
    var r := TrimEnd(t);
    // when r is empty, everything TrimEnd dropped (all of t) is whitespace
    assert r == [] ==> AllWhitespace(t[0..]) && s[..|s|] == s;
    assert r != [] ==> r[0] == t[0];
    r
  }
}
