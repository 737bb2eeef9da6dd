/** Generic sequence facts, stated over an arbitrary element type so that proofs using them never look inside the elements. */
module SeqFacts {

  lemma ConcatAssoc<T>(a: seq<T>, b: seq<T>, c: seq<T>)
    ensures (a + b) + c == a + (b + c)
  {
  }

  lemma ConsIndex<T>(x: T, s: seq<T>, k: int)
    requires 0 < k <= |s|
    ensures ([x] + s)[k] == s[k - 1]
  {
  }

  /** A sequence that extends `s` agrees with `s` on every index and every prefix of `s`. */
  lemma ExtendsAgrees<T>(s: seq<T>, t: seq<T>)
    requires |s| <= |t| && t[..|s|] == s
    ensures forall n :: 0 <= n <= |s| ==> t[..n] == s[..n]
    ensures forall j :: 0 <= j < |s| ==> t[j] == s[j]
  {
    forall j | 0 <= j < |s|
      ensures t[j] == s[j]
    {
      assert t[..|s|][j] == t[j];
    }
  }

  /** Slicing within a suffix is slicing the whole sequence at shifted positions. */
  lemma SuffixSlices<T>(s: seq<T>, i: nat, k: nat)
    requires i + k <= |s|
    ensures s[i..][..k] == s[i..i + k]
    ensures s[i..][k..] == s[i + k..]
  {
  }

}
