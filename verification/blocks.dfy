/** Concatenation of a sequence of sequences, and where an element of a
    block lands when every block has the same length. */
module Blocks {

  function Flatten<T>(blocks: seq<seq<T>>): seq<T> {
    if blocks == [] then [] else blocks[0] + Flatten(blocks[1..])
  }

  lemma {:induction false} FlattenAppend<T>(a: seq<seq<T>>, b: seq<seq<T>>)
    ensures Flatten(a + b) == Flatten(a) + Flatten(b)
    decreases |a|
  {
    if a == [] {
      assert a + b == b;
    } else {
      assert (a + b)[1..] == a[1..] + b;
      FlattenAppend(a[1..], b);
    }
  }

  /** Every block has n elements. */
  predicate Uniform<T>(blocks: seq<seq<T>>, n: nat) {
    forall k :: 0 <= k < |blocks| ==> |blocks[k]| == n
  }

  lemma MulBound(k: int, b: int, n: int, m: int)
    requires 0 <= k < b && 0 <= m < n
    ensures 0 <= k * n + m < b * n
  {
    assert k * n <= (b - 1) * n;
    assert b * n == (b - 1) * n + n;
  }

  lemma Shift(k: int, n: int, m: int, i: int)
    requires 1 <= k && 0 <= m < n && i == k * n + m
    ensures i - n == (k - 1) * n + m
  {
    assert k * n == (k - 1) * n + n;
  }

  lemma MulSucc(b: int, n: int, p: int)
    requires p == b * n
    ensures p + n == (b + 1) * n
  {}

  lemma {:induction false} FlattenLength<T>(blocks: seq<seq<T>>, n: nat)
    requires Uniform(blocks, n)
    ensures |Flatten(blocks)| == |blocks| * n
    decreases |blocks|
  {
    if blocks != [] {
      FlattenLength(blocks[1..], n);
      MulSucc(|blocks[1..]|, n, |Flatten(blocks[1..])|);
    }
  }

  lemma {:induction false} FlattenAt<T>(blocks: seq<seq<T>>, n: nat, k: nat, m: nat, i: int)
    requires Uniform(blocks, n)
    requires k < |blocks| && m < n && i == k * n + m
    ensures 0 <= i < |Flatten(blocks)|
    ensures Flatten(blocks)[i] == blocks[k][m]
    decreases k
  {
    FlattenLength(blocks, n);
    MulBound(k, |blocks|, n, m);
    if k > 0 {
      var rest := blocks[1..];
      Shift(k, n, m, i);
      FlattenAt(rest, n, k - 1, m, i - n);
      assert blocks[k] == rest[k - 1];
    }
  }

  /** Element m of block k sits at k * n + m of f. */
  ghost predicate Placed<T>(f: seq<T>, blocks: seq<seq<T>>, n: nat, k: nat, m: nat)
    requires k < |blocks| && m < |blocks[k]|
  {
    k * n + m < |f| && f[k * n + m] == blocks[k][m]
  }

  /** With blocks of a common length n, the concatenation has |blocks| * n
      elements and element m of block k sits at k * n + m. */
  lemma {:induction false} FlattenUniform<T>(blocks: seq<seq<T>>, n: nat)
    requires Uniform(blocks, n)
    ensures |Flatten(blocks)| == |blocks| * n
    ensures forall k: nat, m: nat :: k < |blocks| && m < n ==> Placed(Flatten(blocks), blocks, n, k, m)
  {
    FlattenLength(blocks, n);
    forall k: nat, m: nat | k < |blocks| && m < n
      ensures Placed(Flatten(blocks), blocks, n, k, m)
    {
      FlattenAt(blocks, n, k, m, k * n + m);
    }
  }
}
