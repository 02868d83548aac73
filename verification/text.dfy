/**
 * String helpers: prefixes and occurrences, and literal, global,
 * left-to-right token substitution, which is what `re.sub` does when the
 * pattern is a plain token such as `\{owner\}` and the replacement contains
 * no backslash.
 */
module Text {
  import opened Wrappers

  predicate StartsWith(s: string, prefix: string) {
    |prefix| <= |s| && s[..|prefix|] == prefix
  }

  /** Strips the literal `lit` off the front of `s`. */
  function Expect(s: string, lit: string): Option<string> {
    if StartsWith(s, lit) then Some(s[|lit|..]) else None
  }

  lemma ExpectLiteral(lit: string, rest: string)
    ensures Expect(lit + rest, lit) == Some(rest)
  {
    assert (lit + rest)[..|lit|] == lit;
    assert (lit + rest)[|lit|..] == rest;
  }

  /** `pat` occurs in `s` starting at index `i`. */
  predicate OccursAt(s: string, pat: string, i: nat) {
    i + |pat| <= |s| && s[i..i + |pat|] == pat
  }

  predicate Contains(s: string, pat: string) {
    exists i: nat | i + |pat| <= |s| :: OccursAt(s, pat, i)
  }

  /**
   * Replaces every non-overlapping occurrence of `pat`, scanning from the
   * left, by `rep`. Text produced by a replacement is never rescanned.
   */
  function ReplaceAll(s: string, pat: string, rep: string): string
    requires |pat| > 0
    decreases |s|
  {
    if |s| == 0 then ""
    else if StartsWith(s, pat) then rep + ReplaceAll(s[|pat|..], pat, rep)
    else [s[0]] + ReplaceAll(s[1..], pat, rep)
  }

  /** The parts joined with `sep` between neighbours. */
  function Join(parts: seq<string>, sep: string): string
    requires |parts| > 0
  {
    if |parts| == 1 then parts[0] else parts[0] + sep + Join(parts[1..], sep)
  }

  /** A text without any occurrence of the token is left unchanged. */
  lemma {:induction false} ReplaceAllAbsent(s: string, pat: string, rep: string)
    requires |pat| > 0
    requires !Contains(s, pat)
    ensures ReplaceAll(s, pat, rep) == s
    decreases |s|
  {
    if |s| > 0 {
      assert !OccursAt(s, pat, 0);
      assert !StartsWith(s, pat);
      forall i: nat | OccursAt(s[1..], pat, i)
        ensures false
      {
        assert s[1..][i..i + |pat|] == s[i + 1..i + 1 + |pat|];
        assert OccursAt(s, pat, i + 1);
      }
      ReplaceAllAbsent(s[1..], pat, rep);
      assert s == [s[0]] + s[1..];
    }
  }

  /**
   * Text that does not contain the token's first character is copied
   * through, and scanning resumes right after it.
   */
  lemma {:induction false} ReplaceAllSkip(x: string, y: string, pat: string, rep: string)
    requires |pat| > 0
    requires pat[0] !in x
    ensures ReplaceAll(x + y, pat, rep) == x + ReplaceAll(y, pat, rep)
    decreases |x|
  {
    if |x| > 0 {
      var s := x + y;
      assert s[0] == x[0] != pat[0];
      assert !StartsWith(s, pat);
      assert s[1..] == x[1..] + y;
      ReplaceAllSkip(x[1..], y, pat, rep);
      assert x == [x[0]] + x[1..];
    } else {
      assert x + y == y;
    }
  }

  /** A token at the front is replaced and scanning resumes after it. */
  lemma ReplaceAllToken(y: string, pat: string, rep: string)
    requires |pat| > 0
    ensures ReplaceAll(pat + y, pat, rep) == rep + ReplaceAll(y, pat, rep)
  {
    assert StartsWith(pat + y, pat);
    assert (pat + y)[|pat|..] == y;
  }

  /**
   * Substitution is global: when the literal text between the tokens does
   * not contain the token's first character, every token is replaced.
   */
  lemma {:induction false} ReplaceAllJoin(parts: seq<string>, pat: string, rep: string)
    requires |pat| > 0 && |parts| > 0
    requires forall k :: 0 <= k < |parts| ==> pat[0] !in parts[k]
    ensures ReplaceAll(Join(parts, pat), pat, rep) == Join(parts, rep)
    decreases |parts|
  {
    if |parts| == 1 {
      ReplaceAllSkip(parts[0], "", pat, rep);
      assert parts[0] + "" == parts[0];
    } else {
      var tail := Join(parts[1..], pat);
      assert Join(parts, pat) == parts[0] + (pat + tail);
      ReplaceAllSkip(parts[0], pat + tail, pat, rep);
      ReplaceAllToken(tail, pat, rep);
      ReplaceAllJoin(parts[1..], pat, rep);
      assert Join(parts, rep) == parts[0] + (rep + Join(parts[1..], rep));
    }
  }

  /** Regrouping concatenations to the right, so that literals can be stripped off the front. */
  lemma Regroup3(a: string, b: string, c: string)
    ensures a + b + c == a + (b + c)
  {
  }

  lemma Regroup5(a: string, b: string, c: string, d: string, e: string)
    ensures a + b + c + d + e == a + (b + (c + d + e))
  {
  }

  lemma Regroup13(x0: string, x1: string, x2: string, x3: string, x4: string, x5: string, x6: string,
                  x7: string, x8: string, x9: string, x10: string, x11: string, x12: string)
    ensures x0 + x1 + x2 + x3 + x4 + x5 + x6 + x7 + x8 + x9 + x10 + x11 + x12
         == x0 + (x1 + (x2 + (x3 + (x4 + (x5 + (x6 + (x7 + (x8 + (x9 + (x10 + (x11 + x12)))))))))))
  {
  }
}
