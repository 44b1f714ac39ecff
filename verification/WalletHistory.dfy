/** The history scan reconstructs the UTXO set exactly, and fails only on a repeated transaction id. */
module WalletHistory {
  import opened Types
  import opened Money
  import opened Ledger
  import opened Supply
  import opened WalletView

  // ---- one ordinary transaction ----

  lemma {:induction false} MarkKeeps(created: Created, owners: set<Pkh>, ins: seq<TxIn>)
    requires MarkInputs(created, owners, ins, |ins|).Ok?
    ensures var c := MarkInputs(created, owners, ins, |ins|).value.created;
            && (WholeTxs(created) ==> WholeTxs(c)) && SeenIds(c) == SeenIds(created)
            && (forall id :: Unseen(c, id) <==> Unseen(created, id))
  {
    hide MarkInputs, Prevs;
    MarkInputsShape(created, owners, ins, |ins|);
  }

  /** A transaction the set accepts scans without error exactly when its id is new, and then history and set
      still agree. */
  lemma {:induction false} SpendScan(env: Env, maturity: int, owners: set<Pkh>, created: Created, u: Utxo, skip: set<Hash>,
                                     tx: Tx, height: int)
    requires Agree(created, u, skip) && WholeTxs(created) && (forall op :: op in u ==> op.txId !in skip)
    requires !tx.IsCoinbase() && TxValid(env, maturity, u, tx, height) && env.txId(tx) !in skip
    ensures ScanTx(env, owners, created, tx, height).Ok? <==> Unseen(created, env.txId(tx))
    ensures Unseen(created, env.txId(tx)) ==>
              var c := ScanTx(env, owners, created, tx, height).value;
              && Agree(c, SpendAndCreate(env, u, tx, height, false), skip)
              && WholeTxs(c) && SeenIds(c) == SeenIds(created) + {env.txId(tx)}
              && KeepsSkipped(created, c, u, skip)
  {
    hide MarkInputs, RecordOutputs, TxValid, Agree, WholeTxs, Unseen, SeenIds, RemoveInputs, AddOutputs, GoodOutputs;
    var id := env.txId(tx);
    ValidParts(env, maturity, u, tx, height);
    MarkSucceeds(env, maturity, created, u, skip, owners, tx, |tx.ins|, height);
    var marked := MarkInputs(created, owners, tx.ins, |tx.ins|).value.created;
    MarkKeeps(created, owners, tx.ins);
    MarkAgrees(created, u, skip, owners, tx.ins);
    RecordIff(marked, owners, id, tx.outs, height, false);
    if Unseen(created, id) {
      RecordAgrees(marked, RemoveInputs(u, tx.ins, |tx.ins|), skip, owners, id, tx.outs, height, false);
      SkippedKept(env, maturity, owners, created, u, skip, tx, height);
    }
  }

  lemma {:induction false} ValidParts(env: Env, maturity: int, u: Utxo, tx: Tx, height: int)
    requires TxValid(env, maturity, u, tx, height)
    ensures |tx.ins| > 0 && |tx.outs| > 0 && GoodOutputs(tx.outs, |tx.outs|)
    ensures forall i :: 0 <= i < |tx.ins| ==> tx.ins[i].prev in u
  {
    forall i | 0 <= i < |tx.ins| ensures tx.ins[i].prev in u {
      assert SpendableBy(env, maturity, u, tx, i, height);
    }
  }

  /** Outputs of the skipped ids are left exactly as they were. */
  ghost predicate KeepsSkipped(created: Created, c: Created, u: Utxo, skip: set<Hash>) {
    forall op: OutPoint :: op.txId in skip ==> (op in c <==> op in created) && (op in c ==> c[op] == created[op])
  }

  lemma {:induction false} SkippedKept(env: Env, maturity: int, owners: set<Pkh>, created: Created, u: Utxo, skip: set<Hash>,
                                       tx: Tx, height: int)
    requires TxValid(env, maturity, u, tx, height) && (forall op :: op in u ==> op.txId !in skip)
    requires env.txId(tx) !in skip
    requires MarkInputs(created, owners, tx.ins, |tx.ins|).Ok?
    requires RecordOutputs(MarkInputs(created, owners, tx.ins, |tx.ins|).value.created, owners, env.txId(tx), tx.outs,
                           |tx.outs|, height, false).Ok?
    ensures KeepsSkipped(created, RecordOutputs(MarkInputs(created, owners, tx.ins, |tx.ins|).value.created, owners,
                                                env.txId(tx), tx.outs, |tx.outs|, height, false).value.created, u, skip)
  {
    hide MarkInputs, RecordOutputs, TxValid;
    ValidParts(env, maturity, u, tx, height);
    MarkInputsShape(created, owners, tx.ins, |tx.ins|);
    var marked := MarkInputs(created, owners, tx.ins, |tx.ins|).value.created;
    RecordOutputsShape(marked, owners, env.txId(tx), tx.outs, |tx.outs|, height, false);
  }

  // ---- one block ----

  /** The coinbase's outputs are in the history, unspent, and nothing else carries its id. */
  ghost predicate CoinbaseHeld(created: Created, id: Hash, outs: seq<TxOut>, height: int) {
    forall op: OutPoint :: op.txId == id ==>
      (op in created <==> op.idx < |outs|)
      && (op in created ==> created[op] == Out(Entry(outs[op.idx].value, outs[op.idx].pkh, height, true), false))
  }

  /** Mid-block agreement: the scan has already recorded the coinbase, the set has not. */
  ghost predicate Midway(created: Created, u: Utxo, id: Hash, outs: seq<TxOut>, height: int) {
    && Agree(created, u, {id}) && WholeTxs(created) && CoinbaseHeld(created, id, outs, height)
    && (forall op :: op in u ==> op.txId != id)
  }

  lemma {:induction false} CoinbaseScan(env: Env, owners: set<Pkh>, created: Created, u: Utxo, cb: Tx, height: int)
    requires Agree(created, u, {}) && WholeTxs(created)
    requires cb.IsCoinbase() && |cb.outs| > 0 && GoodOutputs(cb.outs, |cb.outs|)
    ensures ScanTx(env, owners, created, cb, height).Ok? <==> Unseen(created, env.txId(cb))
    ensures Unseen(created, env.txId(cb)) ==>
              var c := ScanTx(env, owners, created, cb, height).value;
              Midway(c, u, env.txId(cb), cb.outs, height) && SeenIds(c) == SeenIds(created) + {env.txId(cb)}
  {
    hide RecordOutputs, WholeTxs, SeenIds, GoodOutputs;
    var id := env.txId(cb);
    RecordIff(created, owners, id, cb.outs, height, true);
    if Unseen(created, id) {
      RecordOutputsShape(created, owners, id, cb.outs, |cb.outs|, height, true);
      var c := ScanTx(env, owners, created, cb, height).value;
      assert forall op: OutPoint :: op.txId == id ==> op == OutPoint(id, op.idx);
    }
  }

  lemma {:induction false} MidwayStep(env: Env, maturity: int, owners: set<Pkh>, created: Created, u: Utxo, cbId: Hash,
                                      cbOuts: seq<TxOut>, tx: Tx, height: int)
    requires Midway(created, u, cbId, cbOuts, height)
    requires !tx.IsCoinbase() && TxValid(env, maturity, u, tx, height) && env.txId(tx) != cbId
    ensures ScanTx(env, owners, created, tx, height).Ok? <==> Unseen(created, env.txId(tx))
    ensures Unseen(created, env.txId(tx)) ==>
              var c := ScanTx(env, owners, created, tx, height).value;
              && Midway(c, SpendAndCreate(env, u, tx, height, false), cbId, cbOuts, height)
              && SeenIds(c) == SeenIds(created) + {env.txId(tx)}
  {
    hide ScanTx, TxValid, Agree, WholeTxs, Unseen, SeenIds, RemoveInputs, AddOutputs;
    SpendScan(env, maturity, owners, created, u, {cbId}, tx, height);
    RemovedValues(u, tx.ins, |tx.ins|);
    AddOutputsShape(RemoveInputs(u, tx.ins, |tx.ins|), env.txId(tx), tx.outs, |tx.outs|, height, false);
  }

  ghost function TxIdSet(env: Env, txs: seq<Tx>, n: nat): set<Hash>
    requires n <= |txs|
  {
    set i | 0 <= i < n :: env.txId(txs[i])
  }

  ghost predicate NewIds(env: Env, created: Created, txs: seq<Tx>, n: nat)
    requires n <= |txs|
  {
    forall i :: 0 <= i < n ==> env.txId(txs[i]) !in SeenIds(created)
  }

  lemma {:induction false} BlockStart(env: Env, maturity: int, owners: set<Pkh>, created: Created, u: Utxo, txs: seq<Tx>, height: int)
    requires 1 <= |txs| && Agree(created, u, {}) && WholeTxs(created) && SaneTxs(env, txs)
    ensures ScanTxs(env, owners, created, txs, 1, height).Ok? <==> NewIds(env, created, txs, 1)
    ensures NewIds(env, created, txs, 1) ==>
              var c := ScanTxs(env, owners, created, txs, 1, height).value;
              && Midway(c, u, env.txId(txs[0]), txs[0].outs, height)
              && SeenIds(c) == SeenIds(created) + TxIdSet(env, txs, 1)
  {
    hide ScanTx, Agree, WholeTxs, SeenIds, Midway, GoodOutputs, DistinctPrevs, SpentIns;
    assert ScanTxs(env, owners, created, txs, 0, height) == Ok(created);
    CoinbaseScan(env, owners, created, u, txs[0], height);
    UnseenIff(created, env.txId(txs[0]));
    assert TxIdSet(env, txs, 1) == {env.txId(txs[0])};
  }

  /** Scanning a valid block's transactions, coinbase first. */
  lemma {:induction false} BlockMidway(env: Env, maturity: int, owners: set<Pkh>, created: Created, u: Utxo, txs: seq<Tx>, n: nat,
                                       height: int)
    requires 1 <= n <= |txs| && Agree(created, u, {}) && WholeTxs(created) && SaneTxs(env, txs)
    requires ApplyTxs(env, maturity, u, txs, n, height).Ok?
    ensures ScanTxs(env, owners, created, txs, n, height).Ok? <==> NewIds(env, created, txs, n)
    ensures NewIds(env, created, txs, n) ==>
              var c := ScanTxs(env, owners, created, txs, n, height).value;
              && Midway(c, ApplyTxs(env, maturity, u, txs, n, height).value.utxo, env.txId(txs[0]), txs[0].outs, height)
              && SeenIds(c) == SeenIds(created) + TxIdSet(env, txs, n)
  {
    hide ScanTx, TxValid, CheckTx, Agree, WholeTxs, SeenIds, Midway, SpendAndCreate, GoodOutputs, DistinctPrevs, SpentIns;
    if n == 1 {
      BlockStart(env, maturity, owners, created, u, txs, height);
    } else {
      BlockMidway(env, maturity, owners, created, u, txs, n - 1, height);
      var sofar := ApplyTxs(env, maturity, u, txs, n - 1, height).value;
      CheckTxIff(env, maturity, sofar.utxo, txs[n - 1], height);
      if NewIds(env, created, txs, n - 1) {
        var c := ScanTxs(env, owners, created, txs, n - 1, height).value;
        MidwayStep(env, maturity, owners, c, sofar.utxo, env.txId(txs[0]), txs[0].outs, txs[n - 1], height);
        UnseenIff(c, env.txId(txs[n - 1]));
        assert TxIdSet(env, txs, n) == TxIdSet(env, txs, n - 1) + {env.txId(txs[n - 1])};
      }
    }
  }

  lemma {:induction false} MidwayEnd(created: Created, u: Utxo, id: Hash, outs: seq<TxOut>, height: int)
    requires Midway(created, u, id, outs, height)
    ensures Agree(created, AddOutputs(u, id, outs, |outs|, height, true), {})
  {
    hide AddOutputs, WholeTxs;
    AddOutputsShape(u, id, outs, |outs|, height, true);
    var v := AddOutputs(u, id, outs, |outs|, height, true);
    forall op: OutPoint ensures (op in v <==> op in created && !created[op].spent) && (op in v ==> created[op].entry == v[op]) {
      if op.txId == id && op.idx < |outs| {
        assert op == OutPoint(id, op.idx);
      }
    }
  }

  lemma {:induction false} BlockScan(env: Env, maturity: int, owners: set<Pkh>, created: Created, u: Utxo, b: Block, height: nat)
    requires Agree(created, u, {}) && WholeTxs(created) && SaneTxs(env, b.txs)
    requires |b.txs| > 0 && ApplyBlock(env, maturity, u, b, height).Ok?
    ensures ScanTxs(env, owners, created, b.txs, |b.txs|, height).Ok? <==> NewIds(env, created, b.txs, |b.txs|)
    ensures NewIds(env, created, b.txs, |b.txs|) ==>
              var c := ScanTxs(env, owners, created, b.txs, |b.txs|, height).value;
              && Agree(c, ApplyBlock(env, maturity, u, b, height).value, {}) && WholeTxs(c)
              && SeenIds(c) == SeenIds(created) + TxIdSet(env, b.txs, |b.txs|)
  {
    hide ScanTxs, ApplyTxs, Agree, WholeTxs, SeenIds, SaneTxs, NewIds, AddOutputs, CheckOutputs, SubsidyAt;
    BlockMidway(env, maturity, owners, created, u, b.txs, |b.txs|, height);
    if NewIds(env, created, b.txs, |b.txs|) {
      var c := ScanTxs(env, owners, created, b.txs, |b.txs|, height).value;
      MidwayEnd(c, ApplyTxs(env, maturity, u, b.txs, |b.txs|, height).value.utxo, env.txId(b.txs[0]), b.txs[0].outs, height);
    }
  }

  // ---- the whole chain ----

  ghost function ChainIds(env: Env, blocks: seq<Block>): set<Hash> {
    if blocks == [] then {}
    else ChainIds(env, blocks[..|blocks| - 1]) + TxIdSet(env, blocks[|blocks| - 1].txs, |blocks[|blocks| - 1].txs|)
  }

  /** No block repeats the id of a transaction in an earlier block. */
  ghost predicate NoRepeats(env: Env, blocks: seq<Block>) {
    blocks == [] ||
    (&& NoRepeats(env, blocks[..|blocks| - 1])
     && NoneOf(env, blocks[|blocks| - 1].txs, ChainIds(env, blocks[..|blocks| - 1])))
  }

  ghost predicate NoneOf(env: Env, txs: seq<Tx>, ids: set<Hash>) {
    forall i :: 0 <= i < |txs| ==> env.txId(txs[i]) !in ids
  }

  /** On a chain that validates, the scan succeeds exactly when no transaction id repeats, and then the unspent
      part of the history is the UTXO set. */
  lemma {:induction false} ChainScan(env: Env, maturity: int, owners: set<Pkh>, blocks: seq<Block>)
    requires Replay(env, maturity, blocks).Ok?
    ensures ScanChain(env, owners, blocks).Ok? <==> NoRepeats(env, blocks)
    ensures NoRepeats(env, blocks) ==>
              var c := ScanChain(env, owners, blocks).value;
              && Agree(c, Replay(env, maturity, blocks).value, {})
              && WholeTxs(c) && SeenIds(c) == ChainIds(env, blocks)
  {
    hide ScanTxs, ApplyBlock, Agree, WholeTxs, SeenIds, TxIdSet;
    if blocks == [] {
      EmptyScan();
    } else {
      var init, last := blocks[..|blocks| - 1], blocks[|blocks| - 1];
      ChainScan(env, maturity, owners, init);
      if NoRepeats(env, init) {
        BlockScan(env, maturity, owners, ScanChain(env, owners, init).value, Replay(env, maturity, init).value, last, |init|);
      }
    }
  }

  lemma {:induction false} EmptyScan()
    ensures Agree(map[], map[], {}) && WholeTxs(map[]) && SeenIds(map[]) == {}
  {
  }
}
