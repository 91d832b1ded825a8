/** IAM action names may carry wildcards: `*` stands for any run of
    characters and `?` for any single character. The permission tables use
    them for their SUPER entries (`glue:*Table*`, `glue:*Database*`); this
    module gives them a meaning so that what SUPER grants can be compared
    with what the other permissions grant. IAM compares action names without
    regard to case; this matcher is case-sensitive, which is exact for the
    names used here since every pattern and action spells its words the same
    way. */
module ActionPatterns {

  predicate IsWildcard(c: char) {
    c == '*' || c == '?'
  }

  /** Does the action pattern `p` match the action name `s`? */
  predicate Matches(p: string, s: string)
    decreases |p| + |s|
  {
    if p == [] then s == []
    else if p[0] == '*' then Matches(p[1..], s) || (s != [] && Matches(p, s[1..]))
    else s != [] && (p[0] == '?' || p[0] == s[0]) && Matches(p[1..], s[1..])
  }

  /** A pattern without wildcards matches exactly itself. */
  lemma {:induction false} LiteralMatchesItself(p: string)
    requires forall i :: 0 <= i < |p| ==> !IsWildcard(p[i])
    ensures Matches(p, p)
  {
    if p != [] {
      LiteralMatchesItself(p[1..]);
    }
  }

  /** A lone `*` matches every action name. */
  lemma {:induction false} StarMatchesAll(s: string)
    ensures Matches("*", s)
  {
    if s != [] {
      StarMatchesAll(s[1..]);
    } else {
      assert Matches("*"[1..], s);
    }
  }

  /** Matching is compositional: pattern pieces match name pieces. */
  lemma {:induction false} MatchesConcat(p1: string, s1: string, p2: string, s2: string)
    requires Matches(p1, s1) && Matches(p2, s2)
    ensures Matches(p1 + p2, s1 + s2)
    decreases |p1| + |s1|
  {
    if p1 == [] {
      assert p1 + p2 == p2;
      assert s1 + s2 == s2;
    } else if p1[0] == '*' {
      if Matches(p1[1..], s1) {
        MatchesConcat(p1[1..], s1, p2, s2);
        assert (p1 + p2)[1..] == p1[1..] + p2;
      } else {
        MatchesConcat(p1, s1[1..], p2, s2);
        assert (s1 + s2)[1..] == s1[1..] + s2;
      }
    } else {
      MatchesConcat(p1[1..], s1[1..], p2, s2);
      assert (p1 + p2)[1..] == p1[1..] + p2;
      assert (s1 + s2)[1..] == s1[1..] + s2;
    }
  }

  /** Every literal (non-wildcard) character of a pattern occurs in each
      name it matches. */
  lemma {:induction false} LiteralCharsOccur(p: string, s: string, i: nat)
    requires Matches(p, s)
    requires i < |p| && !IsWildcard(p[i])
    ensures p[i] in s
    decreases |p| + |s|
  {
    if p[0] == '*' {
      if Matches(p[1..], s) {
        LiteralCharsOccur(p[1..], s, i - 1);
      } else {
        LiteralCharsOccur(p, s[1..], i);
      }
    } else if i > 0 {
      LiteralCharsOccur(p[1..], s[1..], i - 1);
    }
  }

  /** `prefix*infix*` matches `prefix + before + infix + after`. */
  lemma InfixPatternMatches(prefix: string, infix: string, before: string, after: string)
    requires forall i :: 0 <= i < |prefix| ==> !IsWildcard(prefix[i])
    requires forall i :: 0 <= i < |infix| ==> !IsWildcard(infix[i])
    ensures Matches(prefix + "*" + infix + "*", prefix + before + infix + after)
  {
    LiteralMatchesItself(prefix);
    LiteralMatchesItself(infix);
    StarMatchesAll(before);
    StarMatchesAll(after);
    MatchesConcat(prefix, prefix, "*", before);
    MatchesConcat(prefix + "*", prefix + before, infix, infix);
    MatchesConcat(prefix + "*" + infix, prefix + before + infix, "*", after);
  }
}
