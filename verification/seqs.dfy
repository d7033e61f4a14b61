/** Small facts about strings, stated once so that larger proofs can cite them. */
module Seqs {
  /** Regrouping a concatenation of three strings. */
  lemma ConcatAssoc(a: string, b: string, c: string)
    ensures a + (b + c) == (a + b) + c
  {
  }

  /** Dropping a prefix `a` and then `j` more characters leaves `b[j..]`. */
  lemma DropPrefix(a: string, b: string, j: nat)
    requires j <= |b|
    ensures (a + b)[|a| + j..] == b[j..]
  {
  }

  /** If the text from `off` on is `a + b`, then `a` sits at `off` and `b` follows it. */
  lemma SplitAt(s: string, off: nat, a: string, b: string)
    requires off <= |s| && s[off..] == a + b
    ensures off + |a| <= |s|
    ensures s[off..off + |a|] == a
    ensures s[off + |a|..] == b
  {
    assert s[off..off + |a|] == s[off..][..|a|];
    assert s[off + |a|..] == s[off..][|a|..];
  }
}
