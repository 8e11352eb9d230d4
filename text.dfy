/** Python's `str.strip()` with no argument, on Unicode scalar values. */
module Text {

  /** The code points for which Python's `str.isspace()` holds; `strip()` removes exactly these. */
  const Whitespace: set<char> := {
    '\t', '\n', '\U{0B}', '\U{0C}', '\r', '\U{1C}', '\U{1D}', '\U{1E}', '\U{1F}', ' ',
    '\U{85}', '\U{A0}', '\U{1680}',
    '\U{2000}', '\U{2001}', '\U{2002}', '\U{2003}', '\U{2004}', '\U{2005}',
    '\U{2006}', '\U{2007}', '\U{2008}', '\U{2009}', '\U{200A}',
    '\U{2028}', '\U{2029}', '\U{202F}', '\U{205F}', '\U{3000}'
  }

  predicate IsWhitespace(c: char) {
    c in Whitespace
  }

  /** Empty or made only of whitespace: the strings the source's validators reject. */
  predicate Blank(s: string) {
    forall i :: 0 <= i < |s| ==> IsWhitespace(s[i])
  }

  /** Scanning right from `i`: the index of the first character that is not whitespace, or `|s|`. */
  function SkipBlanksForward(s: string, i: nat): (k: nat)
    requires i <= |s|
    ensures i <= k <= |s|
    ensures forall m :: i <= m < k ==> IsWhitespace(s[m])
    ensures k < |s| ==> !IsWhitespace(s[k])
    decreases |s| - i
  {
    if i == |s| || !IsWhitespace(s[i]) then i else SkipBlanksForward(s, i + 1)
  }

  /** Scanning left from `j` but not below `lo`: the end of the last character that is not
      whitespace, or `lo`. */
  function SkipBlanksBackward(s: string, lo: nat, j: nat): (k: nat)
    requires lo <= j <= |s|
    ensures lo <= k <= j
    ensures forall m :: k <= m < j ==> IsWhitespace(s[m])
    ensures k > lo ==> !IsWhitespace(s[k - 1])
  {
    if j == lo || !IsWhitespace(s[j - 1]) then j else SkipBlanksBackward(s, lo, j - 1)
  }

  /** `s.strip()`: the infix of `s` left once the whitespace at both ends is removed. */
  function Strip(s: string): (r: string)
    ensures r == [] <==> Blank(s)
    ensures r != [] ==> !IsWhitespace(r[0]) && !IsWhitespace(r[|r| - 1])
    ensures exists lead :: 0 <= lead <= |s| - |r| && s[lead..lead + |r|] == r && Blank(s[..lead]) && Blank(s[lead + |r|..])
  {
    var i := SkipBlanksForward(s, 0);
    var j := SkipBlanksBackward(s, i, |s|);
    assert Blank(s[..i]) by {
      forall m | 0 <= m < i ensures IsWhitespace(s[..i][m]) { assert s[..i][m] == s[m]; }
    }
    assert Blank(s[j..]) by {
      forall m | 0 <= m < |s| - j ensures IsWhitespace(s[j..][m]) { assert s[j..][m] == s[j + m]; }
    }
    assert i < j ==> !Blank(s) by {
      if i < j { assert !IsWhitespace(s[i]); }
    }
    s[i..j]
  }

  /** Stripping twice is stripping once. */
  lemma StripIdempotent(s: string)
    ensures Strip(Strip(s)) == Strip(s)
  {
  }
}
