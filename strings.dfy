/** The Python string operations the bot relies on: `startswith`, `split` and `rsplit(sep, 1)`. */
module Strings {
  import opened Wrappers

  /** `s.startswith(p)`. */
  predicate StartsWith(s: string, p: string) {
    |p| <= |s| && s[..|p|] == p
  }

  /**
   * `s.rsplit(c, 1)` when `c` occurs in `s`: the text before and after the
   * LAST occurrence of `c`; None when `c` does not occur.
   */
  function SplitLast(s: string, c: char): (r: Option<(string, string)>)
    ensures r.None? <==> c !in s
    ensures r.Some? ==> s == r.value.0 + [c] + r.value.1 && c !in r.value.1
  {
    if |s| == 0 then None
    else
      var init, last := s[..|s| - 1], s[|s| - 1];
      assert s == init + [last];
      if last == c then Some((init, ""))
      else match SplitLast(init, c)
        case None => None
        case Some((a, b)) => Some((a, b + [last]))
  }

  /** Splitting `a + [c] + b` on its last `c` gives back `a` and `b` whenever `b` has no `c`. */
  lemma {:induction false} SplitLastOfJoin(a: string, c: char, b: string)
    requires c !in b
    ensures SplitLast(a + [c] + b, c) == Some((a, b))
    decreases |b|
  {
    var s := a + [c] + b;
    if |b| > 0 {
      var b0 := b[..|b| - 1];
      assert s[..|s| - 1] == a + [c] + b0;
      assert b0 + [b[|b| - 1]] == b;
      SplitLastOfJoin(a, c, b0);
    } else {
      assert s[..|s| - 1] == a;
    }
  }

  /** `s.split(c)`: the pieces between occurrences of `c`, always at least one. */
  function SplitAll(s: string, c: char): (r: seq<string>)
    ensures |r| >= 1
  {
    if |s| == 0 then [""]
    else
      var rest := SplitAll(s[1..], c);
      if s[0] == c then [""] + rest else [[s[0]] + rest[0]] + rest[1..]
  }

  lemma {:induction false} SplitAllWithout(a: string, c: char)
    requires c !in a
    ensures SplitAll(a, c) == [a]
  {
    if |a| > 0 {
      SplitAllWithout(a[1..], c);
      assert [a[0]] + a[1..] == a;
    }
  }

  lemma {:induction false} SplitAllJoin(a: string, c: char, b: string)
    requires c !in a
    ensures SplitAll(a + [c] + b, c) == [a] + SplitAll(b, c)
  {
    var s := a + [c] + b;
    if |a| == 0 {
      assert s[1..] == b;
    } else {
      assert s[1..] == a[1..] + [c] + b;
      SplitAllJoin(a[1..], c, b);
      assert [a[0]] + a[1..] == a;
    }
  }
}
