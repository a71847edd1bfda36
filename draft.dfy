/** `String.prototype.trim` and the test `if (newMessage.trim())` that
    decides whether the composer's draft is sent. */
module Draft {

  /** The code points `trim` strips: ECMAScript's WhiteSpace (tab, vertical
      tab, form feed, the byte order mark and the space separators of
      Unicode category Zs) and LineTerminator (LF, CR, U+2028, U+2029). */
  predicate IsWhitespace(c: char) {
    c == '\t' || c == '\n' || c == '\U{000B}' || c == '\U{000C}' || c == '\r' ||
    c == ' ' || c == '\U{00A0}' || c == '\U{1680}' ||
    ('\U{2000}' <= c <= '\U{200A}') ||
    c == '\U{2028}' || c == '\U{2029}' || c == '\U{202F}' || c == '\U{205F}' ||
    c == '\U{3000}' || c == '\U{FEFF}'
  }

  /** `s` with its leading whitespace removed. */
  function TrimStart(s: string): (r: string)
    ensures |r| <= |s| && r == s[|s| - |r|..]
    ensures forall i :: 0 <= i < |s| - |r| ==> IsWhitespace(s[i])
    ensures r != [] ==> !IsWhitespace(r[0])
  {
    if s != [] && IsWhitespace(s[0]) then TrimStart(s[1..]) else s
  }

  /** `s` with its trailing whitespace removed. */
  function TrimEnd(s: string): (r: string)
    ensures |r| <= |s| && r == s[..|r|]
    ensures forall i :: |r| <= i < |s| ==> IsWhitespace(s[i])
    ensures r != [] ==> !IsWhitespace(r[|r| - 1])
  {
    if s != [] && IsWhitespace(s[|s| - 1]) then TrimEnd(s[..|s| - 1]) else s
  }

  /** `r` is the slice of `s` starting at `a`, and only whitespace lies
      before and after it. */
  predicate WhitespaceAround(r: string, s: string, a: int) {
    0 <= a <= |s| - |r| && r == s[a..a + |r|] &&
    (forall i :: 0 <= i < a ==> IsWhitespace(s[i])) &&
    (forall i :: a + |r| <= i < |s| ==> IsWhitespace(s[i]))
  }

  /** `s.trim()`: a slice of `s` that neither starts nor ends with
      whitespace, with only whitespace cut off on either side. */
  function Trim(s: string): (r: string)
    ensures exists a :: WhitespaceAround(r, s, a)
    ensures r != [] ==> !IsWhitespace(r[0]) && !IsWhitespace(r[|r| - 1])
  {
    var front := TrimStart(s);
    var r := TrimEnd(front);
    PrefixOfSuffix(s, |s| - |front|, front, r);
    r
  }

  /** A prefix `r` of the suffix `front` of `s` starting at `a`, where only
      whitespace is cut off on either side, has only whitespace around it in `s`. */
  lemma PrefixOfSuffix(s: string, a: nat, front: string, r: string)
    requires a <= |s| && front == s[a..]
    requires |r| <= |front| && r == front[..|r|]
    requires forall i :: 0 <= i < a ==> IsWhitespace(s[i])
    requires forall i :: |r| <= i < |front| ==> IsWhitespace(front[i])
    ensures WhitespaceAround(r, s, a)
  {
    assert r == s[a..a + |r|];
    forall i | a + |r| <= i < |s| ensures IsWhitespace(s[i]) {
      assert s[i] == front[i - a];
    }
  }

  /** The truth value of `s.trim()`: the trimmed string is not empty. */
  predicate HasContent(s: string) {
    Trim(s) != []
  }

  /** A draft has content exactly when some character of it is not whitespace. */
  lemma HasContentIff(s: string)
    ensures HasContent(s) <==> exists i :: 0 <= i < |s| && !IsWhitespace(s[i])
  {
    var front := TrimStart(s);
    if Trim(s) != [] {
      assert front != [] && !IsWhitespace(front[0]);
      assert front[0] == s[|s| - |front|];
    }
  }
}
