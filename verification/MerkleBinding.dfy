/** When a Merkle root identifies the list below it (core/block.go, core/chain.go). */
module MerkleBinding {
  import opened Types
  import opened Ledger
  import opened Merkle

  type Pairing = (Hash, Hash) -> Hash

  /** Every node computed on the way from a layer to its root. */
  ghost function Nodes(pair: Pairing, layer: seq<Hash>): set<Hash>
    decreases |layer|
  {
    (set i | 0 <= i < |layer| :: layer[i]) + (if |layer| > 1 then Nodes(pair, NextLayer(pair, layer)) else {})
  }

  /** No two different pairs of these nodes hash alike. */
  ghost predicate CollisionFree(pair: Pairing, nodes: set<Hash>) {
    forall a, b, c, d :: a in nodes && b in nodes && c in nodes && d in nodes && pair(a, b) == pair(c, d) ==> a == c && b == d
  }

  ghost predicate Distinct(layer: seq<Hash>) {
    forall i, j :: 0 <= i < j < |layer| ==> layer[i] != layer[j]
  }

  /** No leaf is the hash of a pair of these nodes. */
  ghost predicate Leaves(pair: Pairing, layer: seq<Hash>, nodes: set<Hash>) {
    forall i, a, b :: 0 <= i < |layer| && a in nodes && b in nodes ==> layer[i] != pair(a, b)
  }

  // ---- one layer ----

  /** The second child of node `i` of the next layer. */
  function Right(layer: seq<Hash>, i: nat): Hash
    requires 2 * i < |layer|
  {
    if 2 * i + 1 < |layer| then layer[2 * i + 1] else layer[2 * i]
  }

  lemma {:induction false} NodeAt(pair: Pairing, layer: seq<Hash>, i: nat)
    requires |layer| > 0 && i < |NextLayer(pair, layer)|
    ensures 2 * i < |layer|
    ensures NextLayer(pair, layer)[i] == pair(layer[2 * i], Right(layer, i))
  {
  }

  lemma {:induction false} ChildrenAreNodes(pair: Pairing, layer: seq<Hash>, i: nat)
    requires 2 * i < |layer|
    ensures layer[2 * i] in Nodes(pair, layer) && Right(layer, i) in Nodes(pair, layer)
  {
    hide NextLayer;
  }

  lemma {:induction false} UpperNodes(pair: Pairing, layer: seq<Hash>)
    requires |layer| > 1
    ensures Nodes(pair, NextLayer(pair, layer)) <= Nodes(pair, layer)
    ensures 0 < |NextLayer(pair, layer)| < |layer|
  {
  }

  lemma {:induction false} SameParts(pair: Pairing, nodes: set<Hash>, a: Hash, b: Hash, c: Hash, d: Hash)
    requires CollisionFree(pair, nodes) && a in nodes && b in nodes && c in nodes && d in nodes && pair(a, b) == pair(c, d)
    ensures a == c && b == d
  {
  }

  lemma {:induction false} SameNode(pair: Pairing, nodes: set<Hash>, x: seq<Hash>, y: seq<Hash>, i: nat, j: nat)
    requires CollisionFree(pair, nodes) && Nodes(pair, x) <= nodes && Nodes(pair, y) <= nodes && |x| > 0 && |y| > 0
    requires i < |NextLayer(pair, x)| && j < |NextLayer(pair, y)| && NextLayer(pair, x)[i] == NextLayer(pair, y)[j]
    ensures 2 * i < |x| && 2 * j < |y| && x[2 * i] == y[2 * j] && Right(x, i) == Right(y, j)
  {
    hide NextLayer, CollisionFree, Nodes, Right;
    NodeAt(pair, x, i);
    NodeAt(pair, y, j);
    ChildrenAreNodes(pair, x, i);
    ChildrenAreNodes(pair, y, j);
    SameParts(pair, nodes, x[2 * i], Right(x, i), y[2 * j], Right(y, j));
  }

  lemma {:induction false} NextDistinct(pair: Pairing, nodes: set<Hash>, layer: seq<Hash>)
    requires CollisionFree(pair, nodes) && Nodes(pair, layer) <= nodes && Distinct(layer) && |layer| > 0
    ensures Distinct(NextLayer(pair, layer))
  {
    hide NextLayer, CollisionFree, Nodes;
    var up := NextLayer(pair, layer);
    forall i, j | 0 <= i < j < |up| ensures up[i] != up[j] {
      if up[i] == up[j] {
        SameNode(pair, nodes, layer, layer, i, j);
      }
    }
  }

  lemma {:induction false} SameLength(pair: Pairing, nodes: set<Hash>, x: seq<Hash>, y: seq<Hash>)
    requires CollisionFree(pair, nodes) && Nodes(pair, x) <= nodes && Nodes(pair, y) <= nodes
    requires Distinct(x) && Distinct(y) && |x| > 0 && |y| > 0 && NextLayer(pair, x) == NextLayer(pair, y)
    ensures |x| == |y| && |NextLayer(pair, x)| == (|x| + 1) / 2
  {
    hide CollisionFree, Nodes;
    var last := |NextLayer(pair, x)| - 1;
    SameNode(pair, nodes, x, y, last, last);
  }

  /** Distinct layers with the same parents are the same layer: padding cannot be mistaken for a node. */
  lemma {:induction false} NextBinds(pair: Pairing, nodes: set<Hash>, x: seq<Hash>, y: seq<Hash>)
    requires CollisionFree(pair, nodes) && Nodes(pair, x) <= nodes && Nodes(pair, y) <= nodes
    requires Distinct(x) && Distinct(y) && |x| > 0 && |y| > 0 && NextLayer(pair, x) == NextLayer(pair, y)
    ensures x == y
  {
    SameLength(pair, nodes, x, y);
    hide NextLayer, CollisionFree, Nodes, Distinct, Right;
    forall k | 0 <= k < |x| ensures x[k] == y[k] {
      var i := k / 2;
      SameNode(pair, nodes, x, y, i, i);
      SameChild(x, y, i, k);
    }
  }

  lemma {:induction false} SameChild(x: seq<Hash>, y: seq<Hash>, i: nat, k: nat)
    requires |x| == |y| && k < |x| && 2 * i <= k <= 2 * i + 1 && x[2 * i] == y[2 * i] && Right(x, i) == Right(y, i)
    ensures x[k] == y[k]
  {
  }

  // ---- all layers ----

  /** `x` is `y` or one of the layers computed above it. */
  ghost predicate Above(pair: Pairing, x: seq<Hash>, y: seq<Hash>)
    decreases |y|
  {
    x == y || (|y| > 1 && Above(pair, x, NextLayer(pair, y)))
  }

  lemma {:induction false} TopIsAbove(pair: Pairing, y: seq<Hash>)
    requires |y| > 0
    ensures Above(pair, [Root(pair, y)], y)
    decreases |y|
  {
    if |y| == 1 {
      assert [y[0]] == y;
    } else {
      TopIsAbove(pair, NextLayer(pair, y));
    }
  }

  /** If the parents of `x` are a layer above `y`, then so is `x` itself, unless they are `y`. */
  lemma {:induction false} BelowIsAbove(pair: Pairing, nodes: set<Hash>, x: seq<Hash>, y: seq<Hash>)
    requires CollisionFree(pair, nodes) && Nodes(pair, x) <= nodes && Nodes(pair, y) <= nodes
    requires Distinct(x) && Distinct(y) && |x| > 1 && |y| > 0
    requires Above(pair, NextLayer(pair, x), y) && NextLayer(pair, x) != y
    ensures Above(pair, x, y)
    decreases |y|
  {
    hide NextLayer, CollisionFree, Distinct, Nodes;
    var up := NextLayer(pair, y);
    NextDistinct(pair, nodes, y);
    if NextLayer(pair, x) == up {
      NextBinds(pair, nodes, x, y);
    } else {
      UpperNodes(pair, y);
      BelowIsAbove(pair, nodes, x, up);
    }
  }

  /** Lists of distinct nodes with one root lie one above the other. */
  lemma {:induction false} SameRootNested(pair: Pairing, nodes: set<Hash>, x: seq<Hash>, y: seq<Hash>)
    requires CollisionFree(pair, nodes) && Nodes(pair, x) <= nodes && Nodes(pair, y) <= nodes
    requires Distinct(x) && Distinct(y) && |x| > 0 && |y| > 0 && Root(pair, x) == Root(pair, y)
    ensures Above(pair, x, y) || Above(pair, y, x)
    decreases |x| + |y|
  {
    hide NextLayer, CollisionFree, Distinct, Nodes;
    if |x| == 1 {
      assert x == [Root(pair, x)];
      TopIsAbove(pair, y);
    } else if |y| == 1 {
      assert y == [Root(pair, y)];
      TopIsAbove(pair, x);
    } else {
      var x', y' := NextLayer(pair, x), NextLayer(pair, y);
      NextDistinct(pair, nodes, x);
      NextDistinct(pair, nodes, y);
      UpperNodes(pair, x);
      UpperNodes(pair, y);
      SameRootNested(pair, nodes, x', y');
      if x' == y' {
        NextBinds(pair, nodes, x, y);
      } else if Above(pair, x', y') {
        BelowIsAbove(pair, nodes, x, y');
      } else {
        BelowIsAbove(pair, nodes, y, x');
      }
    }
  }

  lemma {:induction false} AboveIsComputed(pair: Pairing, x: seq<Hash>, y: seq<Hash>) returns (a: Hash, b: Hash)
    requires Above(pair, x, y) && x != y
    ensures |x| > 0 && a in Nodes(pair, y) && b in Nodes(pair, y) && x[0] == pair(a, b)
    decreases |y|
  {
    hide NextLayer, Nodes;
    var up := NextLayer(pair, y);
    UpperNodes(pair, y);
    if x == up {
      NodeAt(pair, y, 0);
      ChildrenAreNodes(pair, y, 0);
      a, b := y[0], Right(y, 0);
    } else {
      a, b := AboveIsComputed(pair, x, up);
    }
  }

  /** Two lists of distinct leaves with the same root are the same list, as long as no two pairs of the nodes computed for them
      collide and no leaf is itself the hash of a pair of them. */
  lemma {:induction false} RootBinds(pair: Pairing, x: seq<Hash>, y: seq<Hash>)
    requires CollisionFree(pair, Nodes(pair, x) + Nodes(pair, y)) && Distinct(x) && Distinct(y) && |x| > 0 && |y| > 0
    requires Leaves(pair, x, Nodes(pair, y)) && Leaves(pair, y, Nodes(pair, x)) && Root(pair, x) == Root(pair, y)
    ensures x == y
  {
    hide CollisionFree, Distinct, Root, Above, Nodes;
    SameRootNested(pair, Nodes(pair, x) + Nodes(pair, y), x, y);
    if x != y {
      if Above(pair, x, y) {
        var a, b := AboveIsComputed(pair, x, y);
      } else {
        var a, b := AboveIsComputed(pair, y, x);
      }
    }
  }

  /** Without distinctness it does not: repeating the last of three leaves gives the same root. */
  lemma {:induction false} RepeatedTailCollides(pair: Pairing, a: Hash, b: Hash, c: Hash)
    ensures Root(pair, [a, b, c]) == Root(pair, [a, b, c, c])
  {
    var x, y := [a, b, c], [a, b, c, c];
    NodeAt(pair, x, 0);
    NodeAt(pair, x, 1);
    NodeAt(pair, y, 0);
    NodeAt(pair, y, 1);
    assert NextLayer(pair, x) == NextLayer(pair, y);
  }

  // ---- blocks ----

  /** The hashes that occur for these two lists do not collide: ids tell their transactions apart, and neither nodes nor ids are
      mistaken for one another. */
  ghost predicate NoCollision(env: Env, s: seq<Tx>, t: seq<Tx>) {
    var x, y := TxIds(env, s), TxIds(env, t);
    && CollisionFree(env.pair, Nodes(env.pair, x) + Nodes(env.pair, y))
    && Leaves(env.pair, x, Nodes(env.pair, y)) && Leaves(env.pair, y, Nodes(env.pair, x))
    && (forall i, j :: 0 <= i < |s| && 0 <= j < |t| && env.txId(s[i]) == env.txId(t[j]) ==> s[i] == t[j])
  }

  /** Sanity demands distinct ids, so short of a hash collision a root commits to one sane list of transactions only. */
  lemma {:induction false} RootCommitsToBlock(env: Env, s: seq<Tx>, t: seq<Tx>)
    requires NoCollision(env, s, t) && SaneTxs(env, s) && SaneTxs(env, t)
    requires Root(env.pair, TxIds(env, s)) == Root(env.pair, TxIds(env, t))
    ensures s == t
  {
    hide CollisionFree, Root, GoodOutputs, Nodes, Leaves;
    var x, y := TxIds(env, s), TxIds(env, t);
    assert Distinct(x) && Distinct(y);
    RootBinds(env.pair, x, y);
    forall i | 0 <= i < |s| ensures s[i] == t[i] {
      assert x[i] == y[i];
    }
  }
}
