/** JavaScript's `String.prototype.trim` and the "blank" test built on it. */
module Text {

  /** The white-space and line-terminator characters `trim` removes: tab,
      vertical tab, form feed, the byte-order mark, the Unicode space
      separators (U+0020, U+00A0, U+1680, U+2000..U+200A, U+202F, U+205F,
      U+3000) and the line terminators LF, CR, U+2028 and U+2029. */
  predicate IsWhitespace(c: char) {
    || c == ' ' || c == '\t' || c == '\n' || c == '\r'
    || c == '\U{000B}' || c == '\U{000C}' || c == '\U{00A0}'
    || c == '\U{1680}' || ('\U{2000}' <= c <= '\U{200A}') || c == '\U{2028}' || c == '\U{2029}'
    || c == '\U{202F}' || c == '\U{205F}' || c == '\U{3000}' || c == '\U{FEFF}'
  }

  /** Nothing but white space (the empty string included). */
  predicate IsBlank(s: string) {
    forall i :: 0 <= i < |s| ==> IsWhitespace(s[i])
  }

  /** `s` without its leading white space. */
  function TrimStart(s: string): (r: string)
    ensures |r| <= |s|
  {
    if |s| > 0 && IsWhitespace(s[0]) then TrimStart(s[1..]) else s
  }

  /** `TrimStart` drops a blank prefix and stops at the first character that
      is not white space. */
  lemma {:induction false} TrimStartSpec(s: string)
    ensures var r := TrimStart(s);
      && r == s[|s| - |r|..]
      && IsBlank(s[..|s| - |r|])
      && (|r| > 0 ==> !IsWhitespace(r[0]))
  {
    if |s| > 0 && IsWhitespace(s[0]) {
      TrimStartSpec(s[1..]);
      var r := TrimStart(s);
      var prefix, rest := s[..|s| - |r|], s[1..][..|s| - 1 - |r|];
      assert s[1..][|s| - 1 - |r|..] == s[|s| - |r|..];
      forall i | 0 <= i < |prefix| ensures IsWhitespace(prefix[i]) {
        if i > 0 {
          assert prefix[i] == rest[i - 1];
        }
      }
    }
  }

  /** `s` without its trailing white space. */
  function TrimEnd(s: string): (r: string)
    ensures |r| <= |s|
  {
    if |s| > 0 && IsWhitespace(s[|s| - 1]) then TrimEnd(s[..|s| - 1]) else s
  }

  /** `TrimEnd` drops a blank suffix and stops at the last character that is
      not white space. */
  lemma {:induction false} TrimEndSpec(s: string)
    ensures var r := TrimEnd(s);
      && r == s[..|r|]
      && IsBlank(s[|r|..])
      && (|r| > 0 ==> !IsWhitespace(r[|r| - 1]))
  {
    if |s| > 0 && IsWhitespace(s[|s| - 1]) {
      var t := s[..|s| - 1];
      TrimEndSpec(t);
      var r := TrimEnd(s);
      assert t[..|r|] == s[..|r|];
      forall i | 0 <= i < |s| - |r| ensures IsWhitespace(s[|r|..][i]) {
        if i < |s| - 1 - |r| {
          assert s[|r|..][i] == t[|r|..][i];
        }
      }
    }
  }

  /** How many leading white-space characters `trim` removes. */
  function LeadingBlanks(s: string): (n: nat)
    ensures n <= |s|
  {
    |s| - |TrimStart(s)|
  }

  /** `s.trim()`: the white space at both ends removed. */
  function Trim(s: string): (r: string)
    ensures |r| <= |s|
  {
    TrimEnd(TrimStart(s))
  }

  /** `s` is some white space, then `s.trim()`, then some white space, and
      the result neither starts nor ends with white space. */
  lemma TrimSpec(s: string)
    ensures var r := Trim(s);
      && LeadingBlanks(s) + |r| <= |s|
      && r == s[LeadingBlanks(s)..LeadingBlanks(s) + |r|]
      && IsBlank(s[..LeadingBlanks(s)]) && IsBlank(s[LeadingBlanks(s) + |r|..])
      && (|r| > 0 ==> !IsWhitespace(r[0]) && !IsWhitespace(r[|r| - 1]))
  {
    var t := TrimStart(s);
    var r := TrimEnd(t);
    TrimStartSpec(s);
    TrimEndSpec(t);
    TrimParts(s, |s| - |t|, r);
    assert |r| > 0 ==> r[0] == t[0];
  }

  /** Where the pieces of `TrimEnd(TrimStart(s))` sit inside `s`. */
  lemma TrimParts(s: string, k: int, r: string)
    requires 0 <= k <= |s| && |r| <= |s| - k
    requires r == s[k..][..|r|] && IsBlank(s[k..][|r|..])
    ensures r == s[k..k + |r|]
    ensures IsBlank(s[k + |r|..])
  {
    SliceOfSuffix(s, s[k..], k, |r|);
    BlankSuffix(s, s[k..], k, |r|);
  }

  /** Slicing the suffix `t == s[k..]` is slicing `s` shifted by `k`. */
  lemma SliceOfSuffix(s: string, t: string, k: int, n: int)
    requires 0 <= k <= |s| && t == s[k..] && 0 <= n <= |t|
    ensures t[..n] == s[k..k + n]
  {
  }

  lemma BlankSuffix(s: string, t: string, k: int, n: int)
    requires 0 <= k <= |s| && t == s[k..] && 0 <= n <= |t|
    requires IsBlank(t[n..])
    ensures IsBlank(s[k + n..])
  {
    assert s[k + n..] == t[n..];
  }

  /** `s.trim().length == 0` exactly when `s` is blank. */
  lemma TrimEmptyIffBlank(s: string)
    ensures |Trim(s)| == 0 <==> IsBlank(s)
  {
    TrimSpec(s);
    var r := Trim(s);
    var k := LeadingBlanks(s);
    if |r| == 0 {
      forall i | 0 <= i < |s| ensures IsWhitespace(s[i]) {
        if i < k {
          assert s[..k][i] == s[i];
        } else {
          assert s[k..][i - k] == s[i];
        }
      }
    } else {
      assert s[k] == r[0];
    }
  }

  /** Trimming twice is trimming once. */
  lemma TrimIdempotent(s: string)
    ensures Trim(Trim(s)) == Trim(s)
  {
    TrimSpec(s);
    var r := Trim(s);
    if |r| > 0 {
      assert TrimStart(r) == r;
      assert TrimEnd(r) == r;
    }
  }
}
