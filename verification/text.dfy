/** The few Python string operations the data lake code relies on. */
module Text {

  /** `s.endswith('/')` */
  predicate EndsWithSlash(s: string) {
    |s| > 0 && s[|s| - 1] == '/'
  }

  /** The ensure-trailing-slash idiom: `s if s.endswith('/') else f'{s}/'`.
      The result is the shortest extension of `s` that ends with a slash. */
  function EnsureTrailingSlash(s: string): (r: string)
    ensures EndsWithSlash(r)
    ensures s <= r && |r| <= |s| + 1
    ensures EndsWithSlash(s) <==> r == s
  {
    if EndsWithSlash(s) then s else s + "/"
  }

  /** Normalising twice is the same as normalising once. */
  lemma EnsureTrailingSlashIdempotent(s: string)
    ensures EnsureTrailingSlash(EnsureTrailingSlash(s)) == EnsureTrailingSlash(s)
  {
  }

  /** `s.replace(from, to)` for single characters. */
  function ReplaceChar(s: string, from: char, to: char): (r: string)
    ensures |r| == |s|
    ensures from != to ==> from !in r
    ensures forall i :: 0 <= i < |s| && s[i] != from ==> r[i] == s[i]
    ensures forall i :: 0 <= i < |s| && s[i] == from ==> r[i] == to
  {
    if s == [] then []
    else [if s[0] == from then to else s[0]] + ReplaceChar(s[1..], from, to)
  }

  /** Python's `[a-zA-Z]` character class. */
  predicate IsAsciiLetter(c: char) {
    'a' <= c <= 'z' || 'A' <= c <= 'Z'
  }

  /** Python's `[0-9a-zA-Z_]` character class. */
  predicate IsWordChar(c: char) {
    IsAsciiLetter(c) || '0' <= c <= '9' || c == '_'
  }
}
