/** Merkle roots and inclusion branches (core/block.go). */
module Merkle {
  import opened Types
  import opened Bits

  function TxIds(env: Env, txs: seq<Tx>): (ids: seq<Hash>)
    ensures |ids| == |txs|
    ensures forall i :: 0 <= i < |txs| ==> ids[i] == env.txId(txs[i])
  {
    if txs == [] then [] else TxIds(env, txs[..|txs| - 1]) + [env.txId(txs[|txs| - 1])]
  }

  /** Odd layers repeat their last node. */
  function Pad(layer: seq<Hash>): (r: seq<Hash>)
    requires |layer| > 0
    ensures |r| % 2 == 0 && |layer| <= |r| <= |layer| + 1
    ensures forall i :: 0 <= i < |layer| ==> r[i] == layer[i]
  {
    if |layer| % 2 == 1 then layer + [layer[|layer| - 1]] else layer
  }

  /** The first `n` parents of a padded layer. */
  function Parents(pair: (Hash, Hash) -> Hash, padded: seq<Hash>, n: nat): (r: seq<Hash>)
    requires 2 * n <= |padded|
    ensures |r| == n
    ensures forall i :: 0 <= i < n ==> r[i] == pair(padded[2 * i], padded[2 * i + 1])
  {
    if n == 0 then [] else Parents(pair, padded, n - 1) + [pair(padded[2 * n - 2], padded[2 * n - 1])]
  }

  function NextLayer(pair: (Hash, Hash) -> Hash, layer: seq<Hash>): (r: seq<Hash>)
    requires |layer| > 0
    ensures |r| == (|layer| + 1) / 2
  {
    Parents(pair, Pad(layer), |Pad(layer)| / 2)
  }

  function Root(pair: (Hash, Hash) -> Hash, layer: seq<Hash>): Hash
    decreases |layer|
  {
    if |layer| == 0 then ZERO_HASH
    else if |layer| == 1 then layer[0]
    else Root(pair, NextLayer(pair, layer))
  }

  function Sibling(position: nat): nat {
    if position % 2 == 0 then position + 1 else position - 1
  }

  /** Siblings on the way from a leaf to the root. */
  function Branch(pair: (Hash, Hash) -> Hash, layer: seq<Hash>, position: nat): seq<Hash>
    requires position < |layer|
    decreases |layer|
  {
    if |layer| == 1 then []
    else [Pad(layer)[Sibling(position)]] + Branch(pair, NextLayer(pair, layer), position / 2)
  }

  /** Fold a branch back up; `None` when the branch is too short for the index. */
  function FoldBranch(pair: (Hash, Hash) -> Hash, leaf: Hash, position: nat, branch: seq<Hash>): Option<Hash>
    decreases |branch|
  {
    if branch == [] then (if position == 0 then Some(leaf) else None)
    else
      var parent := if position % 2 == 0 then pair(leaf, branch[0]) else pair(branch[0], leaf);
      FoldBranch(pair, parent, position / 2, branch[1..])
  }

  lemma {:induction false} ParentOf(pair: (Hash, Hash) -> Hash, layer: seq<Hash>, position: nat)
    requires position < |layer| && |layer| > 1
    ensures NextLayer(pair, layer)[position / 2] ==
            if position % 2 == 0 then pair(layer[position], Pad(layer)[Sibling(position)])
            else pair(Pad(layer)[Sibling(position)], layer[position])
  {
    var half := position / 2;
    if position % 2 == 0 {
      assert 2 * half == position;
    } else {
      assert 2 * half + 1 == position;
    }
  }

  /** Every leaf's branch rebuilds the root, whatever the number of leaves. */
  lemma {:induction false} BranchProvesInclusion(pair: (Hash, Hash) -> Hash, layer: seq<Hash>, position: nat)
    requires position < |layer|
    ensures FoldBranch(pair, layer[position], position, Branch(pair, layer, position)) == Some(Root(pair, layer))
    decreases |layer|
  {
    if |layer| > 1 {
      hide Pad, NextLayer, Sibling;
      var next := NextLayer(pair, layer);
      ParentOf(pair, layer, position);
      BranchProvesInclusion(pair, next, position / 2);
      var branch := Branch(pair, layer, position);
      assert branch[1..] == Branch(pair, next, position / 2);
    }
  }

  /** A branch has at most one node per doubling of the leaf count. */
  lemma {:induction false} BranchLength(pair: (Hash, Hash) -> Hash, layer: seq<Hash>, position: nat, k: nat)
    requires position < |layer| <= Pow2(k)
    ensures |Branch(pair, layer, position)| <= k
    decreases |layer|
  {
    if |layer| > 1 {
      BranchLength(pair, NextLayer(pair, layer), position / 2, k - 1);
    }
  }

  // ---- the loops ----

  method ComputeRoot(env: Env, txs: seq<Tx>) returns (root: Hash)
    ensures root == Root(env.pair, TxIds(env, txs))
  {
    if |txs| == 0 {
      return ZERO_HASH;
    }
    var layer := TxIds(env, txs);
    while |layer| > 1
      invariant |layer| >= 1
      invariant Root(env.pair, layer) == Root(env.pair, TxIds(env, txs))
      decreases |layer|
    {
      layer := ComputeNextLayer(env, layer);
    }
    root := layer[0];
  }

  method ComputeNextLayer(env: Env, layer: seq<Hash>) returns (next: seq<Hash>)
    requires |layer| > 0
    ensures next == NextLayer(env.pair, layer)
  {
    var padded := layer;
    if |padded| % 2 == 1 {
      padded := padded + [padded[|padded| - 1]];
    }
    next := [];
    var i := 0;
    while i < |padded|
      invariant 0 <= i <= |padded| && i % 2 == 0
      invariant next == Parents(env.pair, padded, i / 2)
      decreases |padded| - i
    {
      next := next + [env.pair(padded[i], padded[i + 1])];
      i := i + 2;
    }
  }

  lemma {:induction false} Reassociate(a: seq<Hash>, x: Hash, b: seq<Hash>)
    ensures (a + [x]) + b == a + ([x] + b)
  {
  }

  method ComputeBranch(env: Env, txs: seq<Tx>, index: int) returns (r: Option<seq<Hash>>)
    ensures r == if 0 <= index < |txs| then Some(Branch(env.pair, TxIds(env, txs), index)) else None
  {
    hide Pad, NextLayer;
    if |txs| == 0 || index < 0 || index >= |txs| {
      return None;
    }
    var layer := TxIds(env, txs);
    var branch := [];
    var position := index;
    while |layer| > 1
      invariant 0 <= position < |layer|
      invariant branch + Branch(env.pair, layer, position) == Branch(env.pair, TxIds(env, txs), index)
      decreases |layer|
    {
      var padded := Pad(layer);
      Reassociate(branch, padded[Sibling(position)], Branch(env.pair, NextLayer(env.pair, layer), position / 2));
      branch := branch + [padded[Sibling(position)]];
      layer := ComputeNextLayer(env, layer);
      position := position / 2;
    }
    assert branch + [] == branch;
    r := Some(branch);
  }

  method RootFromBranch(env: Env, leaf: Hash, index: int, branch: seq<Hash>) returns (r: Option<Hash>)
    ensures r == if index < 0 then None else FoldBranch(env.pair, leaf, index, branch)
  {
    if index < 0 {
      return None;
    }
    var root, position := leaf, index;
    var k := 0;
    while k < |branch|
      invariant 0 <= k <= |branch| && position >= 0
      invariant FoldBranch(env.pair, root, position, branch[k..]) == FoldBranch(env.pair, leaf, index, branch)
    {
      if position % 2 == 0 {
        root := env.pair(root, branch[k]);
      } else {
        root := env.pair(branch[k], root);
      }
      position := position / 2;
      assert branch[k..][1..] == branch[k + 1..];
      k := k + 1;
    }
    if position != 0 {
      return None;
    }
    r := Some(root);
  }
}
