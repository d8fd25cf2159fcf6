/**
 * Text operations the resolver relies on: ASCII lower-casing of an
 * extension and the literal replace-all used for placeholder substitution.
 */
module Strings {

  /** Lower-cases one ASCII letter and leaves every other character alone. */
  function LowerChar(c: char): (r: char)
    ensures !('A' <= r <= 'Z')
    ensures !('A' <= c <= 'Z') ==> r == c
    ensures 'A' <= c <= 'Z' ==> r as int - c as int == 'a' as int - 'A' as int
  {
    if 'A' <= c <= 'Z' then (c as int - 'A' as int + 'a' as int) as char else c
  }

  /** Lower-cases a string character by character. */
  function Lower(s: string): (r: string)
    ensures |r| == |s|
    ensures forall i :: 0 <= i < |s| ==> r[i] == LowerChar(s[i])
  {
    seq(|s|, i requires 0 <= i < |s| => LowerChar(s[i]))
  }

  /** Lower-casing twice is lower-casing once. */
  lemma LowerIdempotent(s: string)
    ensures Lower(Lower(s)) == Lower(s)
  {
  }

  /** Does `pat` occur somewhere in `s`? */
  predicate Contains(s: string, pat: string)
    decreases |s|
  {
    pat <= s || (s != [] && Contains(s[1..], pat))
  }

  /** Every character of an occurring pattern is a character of the text. */
  lemma {:induction false} ContainedCharsOccur(s: string, pat: string, c: char)
    requires Contains(s, pat) && c in pat
    ensures c in s
    decreases |s|
  {
    if pat <= s {
      var i :| 0 <= i < |pat| && pat[i] == c;
      assert s[i] == c;
    } else {
      ContainedCharsOccur(s[1..], pat, c);
    }
  }

  /**
   * Replace-all with the semantics of a left-to-right scan for
   * non-overlapping occurrences: an occurrence is replaced and scanning
   * resumes after it. An empty pattern matches at every character
   * boundary, so `to` is inserted before each character and at the end.
   */
  function ReplaceAll(s: string, pat: string, to: string): (r: string)
    decreases |s|
  {
    if s == [] then (if pat == [] then to else [])
    else if pat == [] then to + [s[0]] + ReplaceAll(s[1..], pat, to)
    else if pat <= s then to + ReplaceAll(s[|pat|..], pat, to)
    else [s[0]] + ReplaceAll(s[1..], pat, to)
  }

  /** A non-empty pattern that does not occur leaves the text unchanged. */
  lemma {:induction false} ReplaceAbsent(s: string, pat: string, to: string)
    requires pat != [] && !Contains(s, pat)
    ensures ReplaceAll(s, pat, to) == s
    decreases |s|
  {
    if s != [] {
      ReplaceAbsent(s[1..], pat, to);
    }
  }

  /** Replacing every occurrence of a pattern by itself changes nothing. */
  lemma {:induction false} ReplaceBySelf(s: string, pat: string)
    ensures ReplaceAll(s, pat, pat) == s
    decreases |s|
  {
    if s == [] {
    } else if pat == [] {
      ReplaceBySelf(s[1..], pat);
    } else if pat <= s {
      ReplaceBySelf(s[|pat|..], pat);
      assert pat + s[|pat|..] == s;
    } else {
      ReplaceBySelf(s[1..], pat);
      assert [s[0]] + s[1..] == s;
    }
  }

  /** An occurrence at the front is replaced, and the rest is treated alike. */
  lemma ReplaceLeadingMatch(pat: string, s: string, to: string)
    requires pat != []
    ensures ReplaceAll(pat + s, pat, to) == to + ReplaceAll(s, pat, to)
  {
    assert pat <= pat + s;
    assert (pat + s)[|pat|..] == s;
  }

  /**
   * Text that cannot start an occurrence, because the pattern's first
   * character is not in it, passes through unchanged.
   */
  lemma {:induction false} ReplaceAfterPlain(w: string, s: string, pat: string, to: string)
    requires pat != [] && pat[0] !in w
    ensures ReplaceAll(w + s, pat, to) == w + ReplaceAll(s, pat, to)
    decreases |w|
  {
    if w == [] {
      assert w + s == s;
    } else {
      assert (w + s)[0] == w[0];
      assert !(pat <= w + s);
      assert (w + s)[1..] == w[1..] + s;
      ReplaceAfterPlain(w[1..], s, pat, to);
    }
  }

  /** A character where no occurrence starts is copied as it is. */
  lemma ReplaceSkip(c: char, s: string, pat: string, to: string)
    requires pat != [] && !(pat <= [c] + s)
    ensures ReplaceAll([c] + s, pat, to) == [c] + ReplaceAll(s, pat, to)
  {
    assert ([c] + s)[1..] == s;
  }

  /** A text missing one of the pattern's characters is left unchanged. */
  lemma ReplaceMissingChar(s: string, pat: string, c: char, to: string)
    requires c in pat && c !in s
    ensures ReplaceAll(s, pat, to) == s
  {
    if Contains(s, pat) {
      ContainedCharsOccur(s, pat, c);
    }
    ReplaceAbsent(s, pat, to);
  }
}
