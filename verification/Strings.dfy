/** Cutting strings at a character, shared by the modules that read text. */
module Strings {
  import opened Wrappers

  predicate IsDigit(c: char) { '0' <= c <= '9' }

  /** What comes before and after the first `c`. */
  function SplitOnce(s: string, c: char): Option<(string, string)> {
    if s == "" then None
    else if s[0] == c then Some(("", s[1..]))
    else
      match SplitOnce(s[1..], c)
      case None => None
      case Some((a, b)) => Some(([s[0]] + a, b))
  }

  lemma {:induction false} SplitOnceFindsFirst(a: string, b: string, c: char)
    requires c !in a
    ensures SplitOnce(a + [c] + b, c) == Some((a, b))
    decreases |a|
  {
    if a == "" {
      assert a + [c] + b == [c] + b;
    } else {
      assert (a + [c] + b)[1..] == a[1..] + [c] + b;
      SplitOnceFindsFirst(a[1..], b, c);
      assert a == [a[0]] + a[1..];
    }
  }

  lemma {:induction false} SplitOnceFindsNone(s: string, c: char)
    requires c !in s
    ensures SplitOnce(s, c) == None
    decreases |s|
  {
    if s != "" {
      SplitOnceFindsNone(s[1..], c);
    }
  }

  lemma {:induction false} SplitOnceIs(s: string, c: char)
    ensures SplitOnce(s, c).Some? <==> c in s
    ensures SplitOnce(s, c).Some? ==>
              var (before, after) := SplitOnce(s, c).value;
              s == before + [c] + after && c !in before
    decreases |s|
  {
    if s != "" && s[0] != c {
      SplitOnceIs(s[1..], c);
      assert s == [s[0]] + s[1..];
    } else if s != "" {
      assert s == [c] + s[1..];
    }
  }
}
