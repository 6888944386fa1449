/**
 * Flattening a sequence of sequences, as React does with the nested arrays a
 * nested `map` returns, and the position of each inner element in the result.
 */
module Sequences {

  /** The concatenation of the inner sequences, in order. */
  function Flatten<T>(ss: seq<seq<T>>): seq<T> {
    if ss == [] then [] else ss[0] + Flatten(ss[1..])
  }

  /** The total length of the first `i` inner sequences. */
  function Offset<T>(ss: seq<seq<T>>, i: nat): nat
    requires i <= |ss|
  {
    if i == 0 then 0 else Offset(ss, i - 1) + |ss[i - 1]|
  }

  /** The offset of the inner sequences of `ss[1..]` shifted by the first one's length. */
  lemma {:induction false} OffsetTail<T>(ss: seq<seq<T>>, i: nat)
    requires 1 <= i <= |ss|
    ensures Offset(ss, i) == |ss[0]| + Offset(ss[1..], i - 1)
  {
    if i > 1 {
      OffsetTail(ss, i - 1);
    }
  }

  /** The flattened sequence is as long as all inner sequences together. */
  lemma {:induction false} FlattenLength<T>(ss: seq<seq<T>>)
    ensures |Flatten(ss)| == Offset(ss, |ss|)
  {
    if ss != [] {
      FlattenLength(ss[1..]);
      OffsetTail(ss, |ss|);
    }
  }

  /** Element `j` of inner sequence `i` sits at position `Offset(ss, i) + j`. */
  lemma {:induction false} FlattenAt<T>(ss: seq<seq<T>>, i: nat, j: nat)
    requires i < |ss| && j < |ss[i]|
    ensures Offset(ss, i) + j < |Flatten(ss)|
    ensures Flatten(ss)[Offset(ss, i) + j] == ss[i][j]
  {
    FlattenLength(ss);
    OffsetMonotone(ss, i + 1, |ss|);
    if i > 0 {
      FlattenAt(ss[1..], i - 1, j);
      OffsetTail(ss, i);
    }
  }

  /** Offsets grow with the index. */
  lemma {:induction false} OffsetMonotone<T>(ss: seq<seq<T>>, i: nat, k: nat)
    requires i <= k <= |ss|
    ensures Offset(ss, i) <= Offset(ss, k)
  {
    if i < k {
      OffsetMonotone(ss, i, k - 1);
    }
  }

  /** Every position of the flattened sequence comes from exactly one inner sequence. */
  lemma {:induction false} Locate<T>(ss: seq<seq<T>>, k: nat) returns (i: nat, j: nat)
    requires k < |Flatten(ss)|
    ensures i < |ss| && j < |ss[i]|
    ensures k == Offset(ss, i) + j
  {
    FlattenLength(ss);
    i := 0;
    while Offset(ss, i + 1) <= k
      invariant i < |ss| && Offset(ss, i) <= k
      decreases |ss| - i
    {
      if i + 1 == |ss| {
        assert false;
      }
      i := i + 1;
    }
    j := k - Offset(ss, i);
  }

  /** Distinct (outer, inner) index pairs sit at distinct positions. */
  lemma {:induction false} OffsetInjective<T>(ss: seq<seq<T>>, i: nat, j: nat, i': nat, j': nat)
    requires i < |ss| && j < |ss[i]| && i' < |ss| && j' < |ss[i']|
    requires Offset(ss, i) + j == Offset(ss, i') + j'
    ensures i == i' && j == j'
  {
    if i < i' {
      OffsetMonotone(ss, i + 1, i');
      assert false;
    } else if i' < i {
      OffsetMonotone(ss, i' + 1, i);
      assert false;
    }
  }
}
