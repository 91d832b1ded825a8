/** Zone-name validation: `re.match('[a-zA-Z][0-9a-zA-Z_]+', zone_name)`
    (vre_data_lake/zone.py:42-43). `re.match` anchors the pattern at the
    start of the name only, so characters after the matched prefix are never
    inspected. */
module ZoneNames {
  import opened Optional
  import opened Text

  /** The end of the longest run of word characters starting at `i`: the
      greedy `[0-9a-zA-Z_]+` loop. */
  function WordRunEnd(s: string, i: nat): (e: nat)
    requires i <= |s|
    ensures i <= e <= |s|
    ensures forall k :: i <= k < e ==> IsWordChar(s[k])
    ensures e == |s| || !IsWordChar(s[e])
    decreases |s| - i
  {
    if i < |s| && IsWordChar(s[i]) then WordRunEnd(s, i + 1) else i
  }

  /** `re.match` of the zone-name pattern: the end of the matched span, or
      `None` when the pattern does not match at the start. */
  function PatternMatch(s: string): (r: Option<nat>)
    ensures r.Some? ==> 2 <= r.value <= |s|
    ensures r.Some? ==> IsAsciiLetter(s[0]) && forall k :: 1 <= k < r.value ==> IsWordChar(s[k])
    ensures r.Some? ==> r.value == |s| || !IsWordChar(s[r.value])
  {
    if |s| > 0 && IsAsciiLetter(s[0]) then
      var e := WordRunEnd(s, 1);
      if e >= 2 then Some(e) else None
    else None
  }

  /** The acceptance condition in plain terms: at least two characters, the
      first an ASCII letter, the second a word character. */
  predicate Accepted(s: string) {
    |s| >= 2 && IsAsciiLetter(s[0]) && IsWordChar(s[1])
  }

  /** The match succeeds exactly when the plain condition holds. */
  lemma PatternMatchAcceptsIff(s: string)
    ensures PatternMatch(s).Some? <==> Accepted(s)
  {
    if Accepted(s) {
      assert WordRunEnd(s, 1) >= 2;
    }
  }

  /** Only the first two characters matter: any tail may follow. */
  lemma AcceptedIgnoresTail(s: string, tail: string)
    requires Accepted(s)
    ensures Accepted(s[..2] + tail)
  {
  }

  /** The name the pattern is meant to describe: every character after the
      first is a word character (`^[A-Za-z][0-9A-Za-z_]+$`). */
  predicate FullyValid(s: string) {
    |s| >= 2 && IsAsciiLetter(s[0]) && forall k :: 1 <= k < |s| ==> IsWordChar(s[k])
  }

  /** Every fully valid name is accepted, and it is then matched entirely. */
  lemma FullyValidIsAccepted(s: string)
    requires FullyValid(s)
    ensures Accepted(s)
    ensures PatternMatch(s) == Some(|s|)
  {
    PatternMatchAcceptsIff(s);
  }

  /** ... but the check accepts names that are not fully valid. */
  lemma AcceptsInvalidTail()
    ensures Accepted("ab-c") && !FullyValid("ab-c")
    ensures !Accepted("a") && !Accepted("1ab") && !Accepted("a-b")
  {
    assert !IsWordChar("ab-c"[2]);
  }
}
