/** Facts about sequences and sets that the proofs call by name. */
module Seqs {

  lemma ConcatAssoc<T>(a: seq<T>, b: seq<T>, c: seq<T>)
    ensures a + (b + c) == (a + b) + c
  {
  }

  lemma CutAtIndex<T>(s: seq<T>, i: nat, j: nat)
    requires i <= j <= |s|
    ensures s[i..] == s[i..j] + s[j..]
  {
  }

  lemma SplitAtPrefix<T>(a: seq<T>, s: seq<T>)
    requires a <= s
    ensures s == a + s[|a|..]
  {
  }

  lemma SetGrows(a: set<int>, b: set<int>, x: int, isIn: bool)
    requires x !in a && b == (if isIn then a + {x} else a)
    ensures |b| == |a| + if isIn then 1 else 0
  {
  }
}
