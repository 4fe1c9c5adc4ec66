/** Facts about slices of sequences that the FIFO proofs use. */
module SeqFacts {

  /** Two sequences that agree below `p` have the same slices there, so a
      slice across `p` splits into the part of either and the rest. */
  lemma SliceAcross<T>(s: seq<T>, t: seq<T>, a: nat, p: nat, e: nat)
    requires a <= p <= e <= |s| && p <= |t| && s[..p] == t[..p]
    ensures s[a..e] == t[a..p] + s[p..e]
  {
    assert s[a..p] == s[..p][a..] == t[..p][a..] == t[a..p];
    assert s[a..e] == s[a..p] + s[p..e];
  }

  /** Dropping `j` elements of a slice starts the slice `j` later. */
  lemma DropOfSlice<T>(s: seq<T>, a: nat, e: nat, j: nat)
    requires a + j <= e <= |s|
    ensures s[a..e][j..] == s[a + j..e]
  {
  }
}
