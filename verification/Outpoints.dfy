/** The null outpoint is never unspent, because block size bounds the number of outputs (core/chain.go, core/tx.go). */
module Outpoints {
  import opened Types
  import opened Money
  import opened Params
  import opened Ledger
  import opened Difficulty
  import opened Consensus
  import opened Invariant
  import opened Reachable
  import opened Wire
  import opened Varint

  const NULL_INDEX := 0xffff_ffff

  ghost predicate FewOutputs(b: Block) {
    forall i :: 0 <= i < |b.txs| ==> |b.txs[i].outs| <= NULL_INDEX
  }

  lemma {:induction false} TxLength(t: Tx)
    ensures 28 * |t.outs| <= |TxBytes(t)|
  {
    hide LE, PutUvarint, InsBytes, OutsBytes, VarBytes;
    OutsLength(t.outs);
  }

  lemma {:induction false} TxsLength(txs: seq<Tx>, i: nat)
    requires i < |txs|
    ensures 28 * |txs[i].outs| <= |TxsBytes(txs)|
  {
    hide TxBytes, PutUvarint;
    if i == 0 {
      TxLength(txs[0]);
    } else {
      TxsLength(txs[1..], i - 1);
    }
  }

  /** A block within the size limit has far fewer outputs than the null index. */
  lemma {:induction false} SmallBlock(b: Block)
    requires |BlockBytes(b)| <= MAX_BLOCK_BYTES
    ensures FewOutputs(b)
  {
    hide HeaderBytes, PutUvarint, TxsBytes;
    forall i | 0 <= i < |b.txs| ensures |b.txs[i].outs| <= NULL_INDEX {
      TxsLength(b.txs, i);
    }
  }

  // ---- indexes stay below the output counts ----

  ghost predicate LowIndexes(u: Utxo) {
    forall op :: op in u ==> op.idx < NULL_INDEX
  }

  lemma {:induction false} AddLow(u: Utxo, id: Hash, outs: seq<TxOut>, n: nat, height: int, coinbase: bool)
    requires n <= |outs| && n <= NULL_INDEX && LowIndexes(u)
    ensures LowIndexes(AddOutputs(u, id, outs, n, height, coinbase))
  {
    if n > 0 {
      AddLow(u, id, outs, n - 1, height, coinbase);
    }
  }

  lemma {:induction false} RemoveLow(u: Utxo, ins: seq<TxIn>, n: nat)
    requires n <= |ins| && LowIndexes(u)
    ensures LowIndexes(RemoveInputs(u, ins, n))
  {
    if n > 0 {
      RemoveLow(u, ins, n - 1);
    }
  }

  lemma {:induction false} SpendLow(env: Env, u: Utxo, tx: Tx, height: int, coinbase: bool)
    requires LowIndexes(u) && |tx.outs| <= NULL_INDEX
    ensures LowIndexes(SpendAndCreate(env, u, tx, height, coinbase))
  {
    hide LowIndexes, AddOutputs, RemoveInputs;
    RemoveLow(u, tx.ins, |tx.ins|);
    AddLow(u, env.txId(tx), tx.outs, |tx.outs|, height, coinbase);
    AddLow(RemoveInputs(u, tx.ins, |tx.ins|), env.txId(tx), tx.outs, |tx.outs|, height, coinbase);
  }

  lemma {:induction false} ApplyTxsLow(env: Env, maturity: int, u: Utxo, txs: seq<Tx>, n: nat, height: int)
    requires 0 < n <= |txs| && LowIndexes(u) && (forall i :: 0 <= i < |txs| ==> |txs[i].outs| <= NULL_INDEX)
    ensures match ApplyTxs(env, maturity, u, txs, n, height) case Err(_) => true case Ok(a) => LowIndexes(a.utxo)
  {
    hide LowIndexes, CheckTx, SpendAndCreate;
    if n > 1 {
      ApplyTxsLow(env, maturity, u, txs, n - 1, height);
      var before := ApplyTxs(env, maturity, u, txs, n - 1, height);
      if before.Ok? {
        SpendLow(env, before.value.utxo, txs[n - 1], height, false);
      }
    }
  }

  lemma {:induction false} ApplyBlockLow(env: Env, maturity: int, u: Utxo, b: Block, height: nat)
    requires LowIndexes(u) && FewOutputs(b) && |b.txs| > 0
    ensures match ApplyBlock(env, maturity, u, b, height) case Err(_) => true case Ok(v) => LowIndexes(v)
  {
    hide LowIndexes, ApplyTxs, SpendAndCreate, CheckOutputs, SubsidyAt;
    ApplyTxsLow(env, maturity, u, b.txs, |b.txs|, height);
    var applied := ApplyTxs(env, maturity, u, b.txs, |b.txs|, height);
    if applied.Ok? {
      SpendLow(env, applied.value.utxo, b.txs[0], height, true);
    }
  }

  lemma {:induction false} ReplayLow(env: Env, maturity: int, blocks: seq<Block>)
    requires forall i :: 0 <= i < |blocks| ==> FewOutputs(blocks[i])
    ensures match Replay(env, maturity, blocks) case Err(_) => true case Ok(u) => LowIndexes(u)
  {
    hide ApplyBlock, SaneTxs, FewOutputs;
    if blocks != [] {
      var n := |blocks| - 1;
      ReplayLow(env, maturity, blocks[..n]);
      var before := Replay(env, maturity, blocks[..n]);
      if before.Ok? && SaneTxs(env, blocks[n].txs) {
        SaneNonempty(env, blocks[n].txs);
        ApplyBlockLow(env, maturity, before.value, blocks[n], n);
      }
    }
  }

  // ---- on the chain ----

  lemma {:induction false} EntrySmall(r: Rules, ix: Index, id: Hash, clock: int)
    requires UsableParams(r.p) && IndexOk(r, ix, clock) && id in ix
    ensures FewOutputs(ix[id].block)
  {
    hide UsableParams, HeaderFault, BranchReplays, Branch, MaxTarget, BlockWork, FewOutputs, BlockBytes;
    var e := ix[id];
    assert EntryOk(r, ix, e, clock);
    if e.height > 0 {
      FaultFacts(r, Branch(ix, ix[e.block.header.prevBlock]), e.block, clock, false);
      SmallBlock(e.block);
    } else {
      GenesisSmall(r);
    }
  }

  lemma {:induction false} GenesisSmall(r: Rules)
    ensures FewOutputs(GenesisBlock(r))
  {
    hide TxRoot, SubsidyAt;
  }

  /** In every state that satisfies the invariant, hence in every reachable one, no unspent output carries the null outpoint. */
  lemma {:induction false} NoNullOutput(r: Rules, s: State, clock: int)
    requires UsableParams(r.p) && Inv(r, s, clock)
    ensures OutPoint(ZERO_HASH, NULL_INDEX) !in s.utxo
  {
    hide UsableParams, EntryOk, MempoolOk, Replay, FewOutputs, Branch;
    var path := Branch(s.index, s.tip);
    forall h | 0 <= h < |path| ensures FewOutputs(path[h].block) {
      BranchMembers(r, s.index, s.tip, h, clock);
      EntrySmall(r, s.index, path[h].id, clock);
    }
    ReplayLow(r.env, r.p.coinbaseMaturity, Blocks(path));
  }
}
