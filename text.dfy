/** The .NET string primitives the core relies on: `string.IsNullOrWhiteSpace`,
  ordinal case-insensitive comparison, case-insensitive `IndexOf`,
  `TrimStart(char)` and `ToLower`.

  Case folding covers the ASCII letters only; every other character compares
  exactly (see "Left out" in README.md).
 */
module Text {
  import opened Wrappers

  /** `char.IsWhiteSpace`: the Unicode space separators, line and paragraph
      separators, U+0009..U+000D, U+0085 and U+00A0. */
  predicate IsWhiteSpace(c: char) {
    || c == ' ' || ('\t' <= c <= '\r') || c == '\U{0085}' || c == '\U{00A0}'
    || c == '\U{1680}' || ('\U{2000}' <= c <= '\U{200A}') || c == '\U{2028}' || c == '\U{2029}'
    || c == '\U{202F}' || c == '\U{205F}' || c == '\U{3000}'
  }

  /** `string.IsNullOrWhiteSpace` of a non-null string (the empty string is blank). */
  predicate IsBlank(s: string) {
    forall i | 0 <= i < |s| :: IsWhiteSpace(s[i])
  }

  /** `string.IsNullOrWhiteSpace` of a nullable string. */
  predicate IsNullOrWhiteSpace(s: Option<string>) {
    s.None? || IsBlank(s.value)
  }

  /** `string.IsNullOrEmpty` of a nullable string. */
  predicate IsNullOrEmpty(s: Option<string>) {
    s.None? || s.value == ""
  }

  function FoldChar(c: char): char {
    if 'A' <= c <= 'Z' then (c as int + 32) as char else c
  }

  /** The case-folded form of a string: what `StringComparer.OrdinalIgnoreCase`
      compares, and what `ToLower()` returns. */
  function Fold(s: string): (r: string)
    ensures |r| == |s|
    ensures forall i | 0 <= i < |s| :: r[i] == FoldChar(s[i])
  {
    seq(|s|, i requires 0 <= i < |s| => FoldChar(s[i]))
  }

  /** `a.Equals(b, StringComparison.OrdinalIgnoreCase)`. */
  predicate EqualsIgnoreCase(a: string, b: string) {
    Fold(a) == Fold(b)
  }

  /** Folding never turns a visible character into white space or back. */
  lemma FoldKeepsBlank(s: string)
    ensures IsBlank(Fold(s)) <==> IsBlank(s)
  {
    forall i | 0 <= i < |s|
      ensures IsWhiteSpace(Fold(s)[i]) <==> IsWhiteSpace(s[i])
    {
      assert Fold(s)[i] == FoldChar(s[i]);
    }
  }

  /** `pat` occurs in `s` at index `j`, ignoring case. */
  predicate MatchesAt(s: string, pat: string, j: int) {
    0 <= j && j + |pat| <= |s| && EqualsIgnoreCase(s[j..j + |pat|], pat)
  }

  /** `s.IndexOf(pat, ...IgnoreCase)` searching from index `i`: the first match
      at or after `i`, or -1 when there is none. */
  function IndexOfFrom(s: string, pat: string, i: nat): (r: int)
    requires i <= |s|
    ensures r == -1 || (i <= r && MatchesAt(s, pat, r))
    ensures forall j | i <= j && (r == -1 || j < r) :: !MatchesAt(s, pat, j)
    decreases |s| - i
  {
    if i + |pat| > |s| then -1
    else if MatchesAt(s, pat, i) then i
    else IndexOfFrom(s, pat, i + 1)
  }

  /** `s.IndexOf(pat, StringComparison.InvariantCultureIgnoreCase)`. */
  function IndexOfIgnoreCase(s: string, pat: string): (r: int)
    ensures r == -1 || MatchesAt(s, pat, r)
    ensures forall j | 0 <= j && (r == -1 || j < r) :: !MatchesAt(s, pat, j)
  {
    IndexOfFrom(s, pat, 0)
  }

  /** `s.TrimStart(c)`: the longest suffix of `s` that does not start with `c`. */
  function TrimStart(s: string, c: char): (r: string)
    ensures |r| <= |s| && r == s[|s| - |r|..]
    ensures r == [] || r[0] != c
    ensures forall i | 0 <= i < |s| - |r| :: s[i] == c
  {
    if s != [] && s[0] == c then TrimStart(s[1..], c) else s
  }
}
