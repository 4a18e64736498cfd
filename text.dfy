/** The string operations of JavaScript that the application uses:
    `String.prototype.trim` and `String.prototype.startsWith`. */
module Text {

  /** ECMAScript WhiteSpace and LineTerminator code points, the characters
      `trim` removes: TAB, VT, FF, ZWNBSP, the Unicode space separators
      (category Zs) and LF, CR, LS, PS. */
  predicate IsWhitespace(c: char)
  {
    || c == '\t' || c == '\U{B}' || c == '\U{C}' || c == '\U{FEFF}'
    || c == ' ' || c == '\U{A0}' || c == '\U{1680}'
    || ('\U{2000}' <= c <= '\U{200A}')
    || c == '\U{202F}' || c == '\U{205F}' || c == '\U{3000}'
    || IsLineTerminator(c)
  }

  /** ECMAScript LineTerminator: the characters a regular-expression `.`
      does not match. */
  predicate IsLineTerminator(c: char)
  {
    c == '\n' || c == '\r' || c == '\U{2028}' || c == '\U{2029}'
  }

  /** The string holds nothing but whitespace: `!s.trim()` (see Trim). */
  predicate IsBlank(s: string)
  {
    forall i :: 0 <= i < |s| ==> IsWhitespace(s[i])
  }

  /** Every line terminator is whitespace, and every whitespace character lies
      between TAB and ZWNBSP. */
  lemma WhitespaceBounds(c: char)
    ensures IsLineTerminator(c) ==> IsWhitespace(c)
    ensures IsWhitespace(c) ==> '\t' <= c <= '\U{FEFF}'
  {
  }

  /** Drops the leading whitespace: the result is the suffix of `s` that
      starts at its first non-whitespace character. */
  function TrimStart(s: string): (r: string)
    ensures |r| <= |s| && r == s[|s| - |r|..]
    ensures IsBlank(s[..|s| - |r|])
    ensures r == [] || !IsWhitespace(r[0])
  {
    if s == [] || !IsWhitespace(s[0]) then s
    else
      var r := TrimStart(s[1..]);
      assert s[1..][..|s[1..]| - |r|] == s[1..|s| - |r|];
      r
  }

  /** Drops the trailing whitespace: the result is the prefix of `s` that
      ends at its last non-whitespace character. */
  function TrimEnd(s: string): (r: string)
    ensures |r| <= |s| && r == s[..|r|]
    ensures IsBlank(s[|r|..])
    ensures r == [] || !IsWhitespace(r[|r| - 1])
  {
    if s == [] || !IsWhitespace(s[|s| - 1]) then s
    else
      var r := TrimEnd(s[..|s| - 1]);
      assert s[..|s| - 1][|r|..] == s[|r|..|s| - 1];
      r
  }

  /** `s.trim()`: empty exactly when every character of `s` is whitespace
      (so `!s.trim()` and `s.trim().length === 0` both mean `IsBlank(s)`), and
      otherwise it starts and ends with a non-whitespace character. */
  function Trim(s: string): (r: string)
    ensures |r| <= |s|
    ensures |r| == 0 <==> IsBlank(s)
    ensures |r| > 0 ==> !IsWhitespace(r[0]) && !IsWhitespace(r[|r| - 1])
  {
    TrimBothEnds(s);
    TrimEnd(TrimStart(s))
  }

  /** Trimming both ends leaves nothing exactly when the string is blank, and
      whatever it leaves starts and ends on a non-whitespace character. */
  lemma TrimBothEnds(s: string)
    ensures |TrimEnd(TrimStart(s))| == 0 <==> IsBlank(s)
    ensures var u := TrimEnd(TrimStart(s));
      |u| > 0 ==> !IsWhitespace(u[0]) && !IsWhitespace(u[|u| - 1])
  {
    var t := TrimStart(s);
    var u := TrimEnd(t);
    if |u| == 0 {
      BlankWhenTrimmedAway(s, t);
    } else {
      assert u[0] == t[0] && t[0] == s[|s| - |t|];
      assert !IsWhitespace(s[|s| - |t|]);
    }
  }

  /** When both trims leave nothing, TrimStart already left nothing (what it
      leaves starts on a non-whitespace character, which TrimEnd keeps), so
      the blank prefix it dropped is the whole string. */
  lemma BlankWhenTrimmedAway(s: string, t: string)
    requires t == TrimStart(s) && |TrimEnd(t)| == 0
    ensures IsBlank(s)
  {
    assert t[0..] == t;
    assert t == [];
    assert s[..|s|] == s;
  }

  /** `s.startsWith(prefix)`. */
  predicate StartsWith(s: string, prefix: string)
  {
    |prefix| <= |s| && s[..|prefix|] == prefix
  }
}
