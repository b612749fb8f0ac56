/** Python `str` and `os.path` operations used by the modelled code, on
    strings as sequences of characters. */
module Strings {

  predicate StartsWith(s: string, prefix: string) {
    |prefix| <= |s| && s[..|prefix|] == prefix
  }

  /** Python's `s.endswith(suffix)`. */
  predicate EndsWith(s: string, suffix: string) {
    |suffix| <= |s| && s[|s| - |suffix|..] == suffix
  }

  /** The window of `s` starting at `i` spells `sub`. */
  predicate OccursAt(s: string, sub: string, i: int) {
    0 <= i && i + |sub| <= |s| && s[i..i + |sub|] == sub
  }

  /** Python's `sub in s`: some window of `s` spells `sub`. */
  predicate Contains(s: string, sub: string) {
    exists i | 0 <= i <= |s| :: OccursAt(s, sub, i)
  }

  /** POSIX `os.path.join(a, b)`: an absolute `b` replaces `a`; otherwise a
      separator is inserted unless `a` is empty or already ends with one. */
  function PathJoin(a: string, b: string): (p: string)
    ensures EndsWith(p, b)
    ensures !StartsWith(b, "/") ==> StartsWith(p, a)
  {
    if StartsWith(b, "/") then b
    else if a == [] || EndsWith(a, "/") then a + b
    else a + "/" + b
  }

  /** A suffix of a suffix is a suffix. */
  lemma EndsWithTrans(s: string, t: string, u: string)
    requires EndsWith(s, t) && EndsWith(t, u)
    ensures EndsWith(s, u)
  {
    assert s[|s| - |u|..] == t[|t| - |u|..];
  }

  /** Python's `s.split('.')[0]`: the text before the first dot, or all of
      `s` when it has none. */
  function BeforeFirstDot(s: string): (r: string)
    ensures StartsWith(s, r)
    ensures '.' !in r
    ensures |r| < |s| ==> s[|r|] == '.'
  {
    if s == [] then []
    else if s[0] == '.' then []
    else [s[0]] + BeforeFirstDot(s[1..])
  }

  /** A prefix is an occurrence at index 0. */
  lemma StartsWithOccurs(s: string, sub: string)
    requires StartsWith(s, sub)
    ensures Contains(s, sub)
  {
    assert OccursAt(s, sub, 0);
  }

  /** An occurrence in the tail is an occurrence in the whole string. */
  lemma ContainsTail(s: string, sub: string)
    requires |s| > 0
    ensures Contains(s[1..], sub) ==> Contains(s, sub)
  {
    if Contains(s[1..], sub) {
      var i :| 0 <= i <= |s[1..]| && OccursAt(s[1..], sub, i);
      assert s[i + 1..i + 1 + |sub|] == s[1..][i..i + |sub|];
      assert OccursAt(s, sub, i + 1);
    }
  }

  /** An occurrence in a suffix is an occurrence in the whole string. */
  lemma ContainsSuffix(s: string, k: nat, sub: string)
    requires k <= |s|
    ensures Contains(s[k..], sub) ==> Contains(s, sub)
  {
    if Contains(s[k..], sub) {
      var i :| 0 <= i <= |s[k..]| && OccursAt(s[k..], sub, i);
      assert s[i + k..i + k + |sub|] == s[k..][i..i + |sub|];
      assert OccursAt(s, sub, i + k);
    }
  }

  /** Python's `s.replace(old, new)`: every non-overlapping occurrence of
      `pat`, scanned left to right, is replaced by `rep`. */
  function ReplaceAll(s: string, pat: string, rep: string): (r: string)
    requires |pat| > 0
    ensures |pat| == |rep| ==> |r| == |s|
    ensures !Contains(s, pat) ==> r == s
    decreases |s|
  {
    if |s| == 0 then []
    else if StartsWith(s, pat) then
      StartsWithOccurs(s, pat);
      rep + ReplaceAll(s[|pat|..], pat, rep)
    else
      ContainsTail(s, pat);
      [s[0]] + ReplaceAll(s[1..], pat, rep)
  }

  /** A match of `x + pat + y` at its start, with `x` non-empty, lies
      inside `x` followed by all but the last letter of `pat`. */
  lemma EarlyMatch(x: string, y: string, pat: string)
    requires |x| > 0 && |pat| > 0
    ensures StartsWith(x + pat + y, pat) ==> Contains(x + pat[..|pat| - 1], pat)
  {
    var s := x + pat + y;
    var head := x + pat[..|pat| - 1];
    if StartsWith(s, pat) {
      assert s[..|head|] == head;
      assert head[..|pat|] == s[..|pat|];
      StartsWithOccurs(head, pat);
    }
  }

  /** At a match the pattern is replaced and the scan resumes after it. */
  lemma ReplaceAllAtMatch(s: string, pat: string, rep: string)
    requires |pat| > 0 && StartsWith(s, pat)
    ensures ReplaceAll(s, pat, rep) == rep + ReplaceAll(s[|pat|..], pat, rep)
  {
  }

  /** Without a match the first letter is kept. */
  lemma ReplaceAllKeepsLetter(s: string, pat: string, rep: string)
    requires |pat| > 0 && |s| > 0 && !StartsWith(s, pat)
    ensures ReplaceAll(s, pat, rep) == [s[0]] + ReplaceAll(s[1..], pat, rep)
  {
  }

  /** No early match in `x` means none in its tail either. */
  lemma NoEarlyMatchInTail(x: string, pat: string)
    requires |x| > 0 && |pat| > 0
    ensures !Contains(x + pat[..|pat| - 1], pat) ==> !Contains(x[1..] + pat[..|pat| - 1], pat)
  {
    var head := x + pat[..|pat| - 1];
    ContainsTail(head, pat);
    assert head[1..] == x[1..] + pat[..|pat| - 1];
  }

  /** Putting the first letter back in front of the rest of `x`. */
  lemma PrependHead(x: string, whole: string, tail: string, a: string, b: string)
    requires |x| > 0
    requires whole == [x[0]] + tail && tail == x[1..] + a + b
    ensures whole == x + a + b
  {
    assert [x[0]] + x[1..] == x;
  }

  /** Before the leftmost occurrence, letters are kept one at a time. */
  lemma KeepsLetterBeforeMatch(x: string, y: string, pat: string, rep: string)
    requires |x| > 0 && |pat| > 0
    requires !Contains(x + pat[..|pat| - 1], pat)
    ensures ReplaceAll(x + pat + y, pat, rep) == [x[0]] + ReplaceAll(x[1..] + pat + y, pat, rep)
  {
    var s := x + pat + y;
    EarlyMatch(x, y, pat);
    ReplaceAllKeepsLetter(s, pat, rep);
    assert s[1..] == x[1..] + pat + y && s[0] == x[0];
  }

  /** The leftmost occurrence is replaced and the text before it is kept:
      when `pat` does not occur before the occurrence that starts right
      after `x` (no window of `x` followed by all but the last letter of
      `pat` spells it), the replace of `x + pat + y` is `x`, then `rep`,
      then the replace of `y`. With the unchanged result on strings without
      `pat`, this fixes `ReplaceAll` occurrence by occurrence. */
  lemma {:induction false} ReplaceAllFirstOccurrence(x: string, y: string, pat: string, rep: string)
    requires |pat| > 0
    requires !Contains(x + pat[..|pat| - 1], pat)
    ensures ReplaceAll(x + pat + y, pat, rep) == x + rep + ReplaceAll(y, pat, rep)
    decreases |x|
  {
    if x == [] {
      assert x + pat + y == pat + y && (pat + y)[|pat|..] == y;
      ReplaceAllAtMatch(pat + y, pat, rep);
    } else {
      KeepsLetterBeforeMatch(x, y, pat, rep);
      NoEarlyMatchInTail(x, pat);
      ReplaceAllFirstOccurrence(x[1..], y, pat, rep);
      PrependHead(x, ReplaceAll(x + pat + y, pat, rep), ReplaceAll(x[1..] + pat + y, pat, rep),
                  rep, ReplaceAll(y, pat, rep));
    }
  }
}
