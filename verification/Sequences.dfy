/** Ranges of positions and the slicing facts the proofs share. */
module Sequences {

  /** The n numbers from `from` on. */
  function Consecutive(from: nat, n: nat): (r: seq<nat>)
    ensures |r| == n && forall i :: 0 <= i < n ==> r[i] == from + i
  {
    seq(n, i requires 0 <= i => from + i)
  }

  ghost predicate Increasing(p: seq<nat>) {
    forall i, j :: 0 <= i < j < |p| ==> p[i] < p[j]
  }

  /** The first i of several sequences, joined. */
  function Flat<T>(parts: seq<seq<T>>, i: nat): seq<T>
    requires i <= |parts|
  {
    if i == 0 then [] else Flat(parts, i - 1) + parts[i - 1]
  }

  lemma SliceOfSlice<T>(s: seq<T>, a: nat, size: nat, n: nat)
    requires n <= size && a + size <= |s|
    ensures s[a..a + size][..n] == s[a..a + n]
  {
  }

  lemma AdjacentSlices<T>(s: seq<T>, a: nat, n: nat)
    requires a + n <= |s|
    ensures s[..a] + s[a..a + n] == s[..a + n]
  {
  }

  lemma Associative<T>(a: seq<T>, b: seq<T>, c: seq<T>)
    ensures (a + b) + c == a + (b + c)
  {
  }
}
