/**
 Character-level helpers for the places where the node passes text through a
 C string (`c_str()`): such text ends at its first NUL character.
 */
module CStrings {

  const NUL: char := '\0'

  /** The text a reader of `s.c_str()` sees: `s` up to, not including, its first NUL. */
  function CStr(s: string): (r: string)
    ensures |r| <= |s| && r == s[..|r|]
    ensures NUL !in r
    ensures |r| < |s| ==> s[|r|] == NUL
  {
    if |s| == 0 || s[0] == NUL then "" else [s[0]] + CStr(s[1..])
  }

  /** Truncation changes nothing exactly when there is no NUL to truncate at. */
  lemma CStrIdentity(s: string)
    ensures CStr(s) == s <==> NUL !in s
  {
  }

  /** A NUL-free prefix survives truncation intact; only the tail can be cut. */
  lemma {:induction false} CStrAppend(a: string, b: string)
    requires NUL !in a
    ensures CStr(a + b) == a + CStr(b)
  {
    if |a| > 0 {
      assert (a + b)[0] == a[0];
      assert (a + b)[1..] == a[1..] + b;
      CStrAppend(a[1..], b);
      assert [a[0]] + (a[1..] + CStr(b)) == a + CStr(b);
    } else {
      assert a + b == b;
    }
  }

  /** Index of the first `c` in `s`, or `|s|` when there is none. */
  function IndexOf(s: string, c: char): (i: nat)
    ensures i <= |s|
    ensures c !in s[..i]
    ensures i < |s| ==> s[i] == c
  {
    if |s| == 0 then 0
    else if s[0] == c then 0
    else 1 + IndexOf(s[1..], c)
  }

  /** The first `c` of `a + b` is the first of `b` when `a` has none and `b` starts with one. */
  lemma {:induction false} IndexOfAfter(a: string, b: string, c: char)
    requires c !in a
    requires |b| > 0 && b[0] == c
    ensures IndexOf(a + b, c) == |a|
  {
    if |a| == 0 {
      assert a + b == b;
    } else {
      assert (a + b)[0] == a[0];
      assert (a + b)[1..] == a[1..] + b;
      IndexOfAfter(a[1..], b, c);
    }
  }

  /** Splitting at the first `c`: what comes before it, and what follows it. */
  lemma SplitAtFirst(a: string, c: char, b: string)
    requires c !in a
    ensures IndexOf(a + [c] + b, c) == |a|
    ensures (a + [c] + b)[..|a|] == a
    ensures (a + [c] + b)[|a| + 1..] == b
  {
    IndexOfAfter(a, [c] + b, c);
    assert a + [c] + b == a + ([c] + b);
  }

}
