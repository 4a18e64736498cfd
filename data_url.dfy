/** The data-URL split of App.tsx: `sourceImage.match(/^data:(.+);base64,(.+)$/)`
    yields the mime type (group 1) and the base64 payload (group 2), and the
    services build such URLs as `"data:" + mime + ";base64," + bytes`.

    The regular expression has no flags, so `^` and `$` anchor at the ends of the
    whole string and `.` matches every character except a line terminator. The
    first group is greedy: among all ways of splitting the string, the match
    uses the one with the longest mime type. */
module DataUrl {
  import opened Base
  import opened Text

  const Scheme := "data:"
  const Marker := ";base64,"

  /** The two capture groups of a successful match. */
  datatype DataUrl = DataUrl(mimeType: string, base64Data: string)

  /** `data:${mimeType};base64,${base64Data}`. */
  function Format(mimeType: string, base64Data: string): (url: string)
    ensures StartsWith(url, Scheme)
    ensures |url| == |Scheme| + |mimeType| + |Marker| + |base64Data|
  {
    Scheme + mimeType + Marker + base64Data
  }

  predicate NoLineTerminator(s: string)
  {
    forall i :: 0 <= i < |s| ==> !IsLineTerminator(s[i])
  }

  /** What it means for the regular expression to match `s` with groups
      `m` and `b`: both groups are non-empty runs of `.`-characters and the
      literal parts sit around them. */
  ghost predicate RegexSplits(s: string, m: string, b: string): (r: bool)
    ensures r ==> |s| >= |Scheme| + 1 + |Marker| + 1
  {
    && m != [] && b != []
    && NoLineTerminator(m) && NoLineTerminator(b)
    && s == Format(m, b)
  }

  /** The marker starts at index `k` of `s`, leaving at least one character
      for the mime type before it and for the payload after it. */
  predicate MarkerAt(s: string, k: int)
  {
    |Scheme| < k && k + |Marker| < |s| && s[k..k + |Marker|] == Marker
  }

  /** The largest `j` with `|Scheme| < j <= k` at which the marker starts:
      the position greedy backtracking of the first group settles on. */
  function LastMarker(s: string, k: int): (r: Option<int>)
    decreases k
    ensures r.Some? ==> r.value <= k && MarkerAt(s, r.value)
    ensures r.Some? ==> forall j :: r.value < j <= k ==> !MarkerAt(s, j)
    ensures r.None? ==> forall j :: j <= k ==> !MarkerAt(s, j)
  {
    if k <= |Scheme| then None
    else if MarkerAt(s, k) then Some(k)
    else LastMarker(s, k - 1)
  }

  /** `s.match(/^data:(.+);base64,(.+)$/)`: the two groups, or `null`. */
  function Parse(s: string): (r: Option<DataUrl>)
    ensures r.Some? ==> RegexSplits(s, r.value.mimeType, r.value.base64Data)
  {
    if !(StartsWith(s, Scheme) && NoLineTerminator(s)) then None
    else
      match LastMarker(s, |s| - |Marker| - 1)
      case None => None
      case Some(k) =>
        var d := DataUrl(s[|Scheme|..k], s[k + |Marker|..]);
        assert s == Format(d.mimeType, d.base64Data) by {
          assert s == s[..|Scheme|] + s[|Scheme|..k] + s[k..k + |Marker|] + s[k + |Marker|..];
        }
        NoLineTerminatorSlice(s, |Scheme|, k);
        NoLineTerminatorSlice(s, k + |Marker|, |s|);
        Some(d)
  }

  lemma NoLineTerminatorSlice(s: string, i: int, j: int)
    requires 0 <= i <= j <= |s| && NoLineTerminator(s)
    ensures NoLineTerminator(s[i..j])
  {
    forall n | 0 <= n < j - i ensures !IsLineTerminator(s[i..j][n]) {
      assert s[i..j][n] == s[i + n];
    }
  }

  /** Every string of the form the regular expression describes contains no
      line terminator and carries the marker right after the mime type. */
  lemma SplitShape(s: string, m: string, b: string)
    requires RegexSplits(s, m, b)
    ensures StartsWith(s, Scheme) && NoLineTerminator(s)
    ensures MarkerAt(s, |Scheme| + |m|)
  {
    var k := |Scheme| + |m|;
    assert s[..|Scheme|] == Scheme;
    assert s[k..k + |Marker|] == Marker;
    forall i | 0 <= i < |s| ensures !IsLineTerminator(s[i]) {
      if i < |Scheme| {
        assert s[i] == Scheme[i];
      } else if i < k {
        assert s[i] == m[i - |Scheme|];
      } else if i < k + |Marker| {
        assert s[i] == Marker[i - k];
      } else {
        assert s[i] == b[i - k - |Marker|];
      }
    }
  }

  /** The parse finds a match whenever the regular expression has one, and
      its mime type is the longest one possible (the group is greedy). */
  lemma ParseComplete(s: string, m: string, b: string)
    requires RegexSplits(s, m, b)
    ensures Parse(s).Some?
    ensures |m| <= |Parse(s).value.mimeType|
  {
    SplitShape(s, m, b);
    var k := |Scheme| + |m|;
    assert k <= |s| - |Marker| - 1;
    var r := LastMarker(s, |s| - |Marker| - 1);
    assert r.Some? && r.value >= k;
  }

  /** `null` exactly when no way of splitting matches the regular expression. */
  lemma ParseNoneIffNoMatch(s: string)
    ensures Parse(s).None? <==> !exists m, b :: RegexSplits(s, m, b)
  {
    if exists m, b :: RegexSplits(s, m, b) {
      var m, b :| RegexSplits(s, m, b);
      ParseComplete(s, m, b);
    }
  }

  predicate IsBase64Char(c: char)
  {
    ('A' <= c <= 'Z') || ('a' <= c <= 'z') || ('0' <= c <= '9') || c == '+' || c == '/' || c == '='
  }

  predicate IsBase64(s: string)
  {
    forall i :: 0 <= i < |s| ==> IsBase64Char(s[i])
  }

  /** In a URL built from a base64 payload no marker starts after the one
      behind the mime type: it would begin with ';', and neither the rest of
      the marker nor a base64 payload holds one. */
  lemma NoLaterMarker(m: string, b: string, j: int)
    requires IsBase64(b)
    requires |Scheme| + |m| < j
    ensures !MarkerAt(Format(m, b), j)
  {
    var s := Format(m, b);
    var k := |Scheme| + |m|;
    if j < k + |Marker| {
      assert s[j] == Marker[j - k];
    } else if j < |s| {
      assert s[j] == b[j - k - |Marker|];
      assert IsBase64Char(b[j - k - |Marker|]);
    }
  }

  /** The groups taken at the marker behind `m` are `m` and `b`. */
  lemma FormatSlices(m: string, b: string)
    ensures var s, k := Format(m, b), |Scheme| + |m|;
      k + |Marker| <= |s| && s[|Scheme|..k] == m && s[k + |Marker|..] == b
  {
    var s := Format(m, b);
    assert s == (Scheme + m) + (Marker + b);
    assert (Scheme + m)[|Scheme|..] == m;
    assert (Marker + b)[|Marker|..] == b;
  }

  /** Round trip: a URL built from a non-empty, line-terminator-free mime type
      and a non-empty base64 payload parses back into exactly those two parts. */
  lemma {:induction false} ParseFormat(m: string, b: string)
    requires m != [] && NoLineTerminator(m)
    requires b != [] && IsBase64(b)
    ensures Parse(Format(m, b)) == Some(DataUrl(m, b))
  {
    var s := Format(m, b);
    var k := |Scheme| + |m|;
    assert NoLineTerminator(b) by {
      forall i | 0 <= i < |b| ensures !IsLineTerminator(b[i]) {
        assert IsBase64Char(b[i]);
      }
    }
    assert RegexSplits(s, m, b);
    ParseComplete(s, m, b);
    var j := LastMarker(s, |s| - |Marker| - 1).value;
    if j > k {
      NoLaterMarker(m, b, j);
    }
    FormatSlices(m, b);
  }

  /** The other direction, a corollary of Parse's own contract: whatever the
      parse returns rebuilds the input. */
  lemma FormatParse(s: string)
    requires Parse(s).Some?
    ensures Format(Parse(s).value.mimeType, Parse(s).value.base64Data) == s
    ensures Parse(s).value.mimeType != [] && Parse(s).value.base64Data != []
  {
  }
}
