/** The two string operations config.js relies on: `String.prototype.includes`
    and `s.split('/').pop()`. */
module Text {

  /** `t` occurs in `s` starting at position `i`. */
  predicate OccursAt(s: string, t: string, i: int) {
    0 <= i <= |s| - |t| && s[i..i + |t|] == t
  }

  /** `t` occurs in `s` at some position. */
  ghost predicate Occurs(s: string, t: string) {
    exists i :: OccursAt(s, t, i)
  }

  /** `s.includes(t)`: scans `s` from the left for a position where `t` starts. */
  function Includes(s: string, t: string): (r: bool)
    ensures r <==> Occurs(s, t)
    decreases |s|
  {
    if t <= s then
      assert OccursAt(s, t, 0);
      true
    else
      s != [] && (OccursInTail(s, t); Includes(s[1..], t))
  }

  /** When `t` does not start `s`, it occurs in `s` exactly when it occurs in its tail. */
  lemma OccursInTail(s: string, t: string)
    requires s != [] && !(t <= s)
    ensures Occurs(s, t) <==> Occurs(s[1..], t)
  {
    if Occurs(s, t) {
      var i :| OccursAt(s, t, i);
      assert i != 0;
      assert s[1..][i - 1..i - 1 + |t|] == s[i..i + |t|];
      assert OccursAt(s[1..], t, i - 1);
    }
    if Occurs(s[1..], t) {
      var j :| OccursAt(s[1..], t, j);
      assert s[j + 1..j + 1 + |t|] == s[1..][j..j + |t|];
      assert OccursAt(s, t, j + 1);
    }
  }

  /** Whatever surrounds it, a string includes itself. */
  lemma {:induction false} IncludesInfix(p: string, t: string, q: string)
    ensures Includes(p + t + q, t)
    decreases |p|
  {
    if p == [] {
      assert p + t + q == t + q;
    } else {
      assert (p + t + q)[1..] == p[1..] + t + q;
      IncludesInfix(p[1..], t, q);
    }
  }

  /** `s.split('/').pop()`: the longest suffix of `s` holding no '/'. */
  function LastSegment(s: string): (f: string)
    ensures '/' !in f
    ensures |f| <= |s| && s[|s| - |f|..] == f
    ensures |f| < |s| ==> s[|s| - |f| - 1] == '/'
    decreases |s|
  {
    if s == [] || s[|s| - 1] == '/' then
      ""
    else
      var g := LastSegment(s[..|s| - 1]);
      assert s[..|s| - 1][|s| - 1 - |g|..] == s[|s| - 1 - |g|..|s| - 1];
      g + [s[|s| - 1]]
  }

  /** A name that follows a '/' and holds none is what `split('/').pop()` gives back. */
  lemma LastSegmentAfterSlash(p: string, f: string)
    requires '/' !in f
    ensures LastSegment(p + "/" + f) == f
  {
    var s := p + "/" + f;
    var g := LastSegment(s);
    assert s[|s| - |f|..] == f && s[|p|] == '/';
    // a longer g would contain the '/' before f; a shorter one would leave a '/' inside f
    assert |g| == |f|;
  }

  /** Two strings cut at their first '/' give the same parts only if they are the same. */
  lemma SlashSplitUnique(a: string, x: string, b: string, y: string)
    requires '/' !in a && '/' !in b
    requires a + "/" + x == b + "/" + y
    ensures a == b && x == y
  {
    var s := a + "/" + x;
    assert s[|a|] == '/' && s[..|a|] == a && s[|a| + 1..] == x;
    assert s[|b|] == '/' && s[..|b|] == b && s[|b| + 1..] == y;
  }

  /** A common prefix cancels. */
  lemma PrefixCancel(h: string, x: string, y: string)
    requires h + x == h + y
    ensures x == y
  {
    assert x == (h + x)[|h|..];
    assert y == (h + y)[|h|..];
  }

  /** A common suffix cancels. */
  lemma SuffixCancel(x: string, y: string, t: string)
    requires x + t == y + t
    ensures x == y
  {
    assert x == (x + t)[..|x|];
    assert y == (y + t)[..|y|];
  }
}
