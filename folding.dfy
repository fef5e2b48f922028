/** Go's `strings.EqualFold`: equality of two strings under simple Unicode case folding, rune by rune. */
module Folding {

  /** The representative of `c`'s case-fold orbit, for every orbit that holds an ASCII letter:
      `A`-`Z` fold to `a`-`z`, LATIN SMALL LETTER LONG S (U+017F) to `s` and KELVIN SIGN (U+212A) to `k`.
      Every other rune is its own representative. */
  function Fold(c: char): char
  {
    if 'A' <= c <= 'Z' then (c as int + ('a' as int - 'A' as int)) as char
    else if c == '\U{017F}' then 's'
    else if c == '\U{212A}' then 'k'
    else c
  }

  /** `strings.EqualFold(s, t)`: walk both strings together and fail on the first pair of runes that do
      not fold together; succeed when both run out at once. */
  function EqualFold(s: string, t: string): (r: bool)
    ensures r <==> |s| == |t| && forall i :: 0 <= i < |s| ==> Fold(s[i]) == Fold(t[i])
  {
    if s == [] || t == [] then s == t
    else Fold(s[0]) == Fold(t[0]) && EqualFold(s[1..], t[1..])
  }

  /** `s` with every rune replaced by its fold representative. */
  function FoldAll(s: string): (r: string)
    ensures |r| == |s| && forall i :: 0 <= i < |s| ==> r[i] == Fold(s[i])
  {
    if s == [] then [] else [Fold(s[0])] + FoldAll(s[1..])
  }
}
