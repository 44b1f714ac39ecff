/** Conservation of money: no sequence of valid blocks puts more into the UTXO set than the subsidy minted. */
module Supply {
  import opened Types
  import opened Money
  import opened Ledger

  /** Sum of every entry's value. */
  ghost function Total(u: Utxo): int {
    if u == map[] then 0
    else var op :| op in u; u[op].value + Total(u - {op})
  }

  ghost predicate Positive(u: Utxo) {
    forall op :: op in u ==> 1 <= u[op].value <= MAX_MONEY
  }

  /** The sum does not depend on the order in which entries are taken. */
  lemma {:induction false} TotalRemove(u: Utxo, k: OutPoint)
    requires k in u
    ensures Total(u) == u[k].value + Total(u - {k})
    decreases |u|
  {
    var op :| op in u && Total(u) == u[op].value + Total(u - {op});
    if op != k {
      TotalRemove(u - {op}, k);
      TotalRemove(u - {k}, op);
      assert u - {op} - {k} == u - {k} - {op};
    }
  }

  lemma {:induction false} TotalNonneg(u: Utxo)
    requires Positive(u)
    ensures Total(u) >= 0
    decreases |u|
  {
    if u != map[] {
      var op :| op in u;
      TotalRemove(u, op);
      TotalNonneg(u - {op});
    }
  }

  /** Writing an entry adds its value, less whatever it replaces. */
  lemma {:induction false} TotalWrite(u: Utxo, op: OutPoint, e: Entry)
    ensures Total(u[op := e]) == Total(u) + e.value - ValueAt(u, op)
  {
    TotalRemove(u[op := e], op);
    if op in u {
      TotalRemove(u, op);
      assert u[op := e] - {op} == u - {op};
    } else {
      assert u[op := e] - {op} == u;
    }
  }

  lemma {:induction false} RemovedValues(u: Utxo, ins: seq<TxIn>, n: nat)
    requires n <= |ins|
    ensures RemoveInputs(u, ins, n) == u - Prevs(ins, n)
  {
    if n > 0 {
      RemovedValues(u, ins, n - 1);
      assert Prevs(ins, n) == Prevs(ins, n - 1) + {ins[n - 1].prev};
    } else {
      assert u - {} == u;
    }
  }

  /** Spending distinct existing outputs removes exactly their total. */
  lemma {:induction false} RemoveInputsTotal(u: Utxo, ins: seq<TxIn>, n: nat)
    requires n <= |ins| && DistinctPrevs(ins, n)
    requires forall i :: 0 <= i < n ==> ins[i].prev in u
    ensures Total(RemoveInputs(u, ins, n)) == Total(u) - SpendSum(u, ins, n)
  {
    if n > 0 {
      RemoveInputsTotal(u, ins, n - 1);
      RemovedValues(u, ins, n - 1);
      var prev := ins[n - 1].prev;
      assert prev !in Prevs(ins, n - 1);
      TotalRemove(RemoveInputs(u, ins, n - 1), prev);
    }
  }

  /** Creating outputs adds at most their total: an output that reuses an outpoint destroys the old one. */
  lemma {:induction false} AddOutputsTotal(u: Utxo, id: Hash, outs: seq<TxOut>, n: nat, height: int, coinbase: bool)
    requires n <= |outs| && Positive(u)
    requires forall i :: 0 <= i < n ==> 1 <= outs[i].value <= MAX_MONEY
    ensures Positive(AddOutputs(u, id, outs, n, height, coinbase))
    ensures Total(AddOutputs(u, id, outs, n, height, coinbase)) <= Total(u) + OutSum(outs, n)
  {
    if n > 0 {
      AddOutputsTotal(u, id, outs, n - 1, height, coinbase);
      TotalWrite(AddOutputs(u, id, outs, n - 1, height, coinbase), OutPoint(id, n - 1),
                 Entry(outs[n - 1].value, outs[n - 1].pkh, height, coinbase));
    }
  }

  /** ... and exactly their total when the transaction id is new to the set. */
  lemma {:induction false} AddFreshOutputsTotal(u: Utxo, id: Hash, outs: seq<TxOut>, n: nat, height: int, coinbase: bool)
    requires n <= |outs|
    requires forall op :: op in u ==> op.txId != id
    ensures Total(AddOutputs(u, id, outs, n, height, coinbase)) == Total(u) + OutSum(outs, n)
    ensures forall op :: op in AddOutputs(u, id, outs, n, height, coinbase) ==>
              op in u || (op.txId == id && op.idx < n)
  {
    if n > 0 {
      AddFreshOutputsTotal(u, id, outs, n - 1, height, coinbase);
      TotalWrite(AddOutputs(u, id, outs, n - 1, height, coinbase), OutPoint(id, n - 1),
                 Entry(outs[n - 1].value, outs[n - 1].pkh, height, coinbase));
    }
  }

  lemma {:induction false} SpendTotal(env: Env, maturity: int, u: Utxo, tx: Tx, height: int)
    requires Positive(u) && TxValid(env, maturity, u, tx, height)
    ensures Positive(SpendAndCreate(env, u, tx, height, false))
    ensures Total(SpendAndCreate(env, u, tx, height, false)) + Fee(u, tx) <= Total(u)
  {
    forall i | 0 <= i < |tx.ins| ensures tx.ins[i].prev in u {
      assert SpendableBy(env, maturity, u, tx, i, height);
    }
    RemoveInputsTotal(u, tx.ins, |tx.ins|);
    RemovedValues(u, tx.ins, |tx.ins|);
    AddOutputsTotal(RemoveInputs(u, tx.ins, |tx.ins|), env.txId(tx), tx.outs, |tx.outs|, height, false);
  }

  lemma {:induction false} ApplyTxsTotal(env: Env, maturity: int, u: Utxo, txs: seq<Tx>, n: nat, height: int)
    requires n <= |txs| && Positive(u)
    requires ApplyTxs(env, maturity, u, txs, n, height).Ok?
    ensures var a := ApplyTxs(env, maturity, u, txs, n, height).value;
            Positive(a.utxo) && a.fees >= 0 && Total(a.utxo) + a.fees <= Total(u)
  {
    if n > 1 {
      ApplyTxsTotal(env, maturity, u, txs, n - 1, height);
      var sofar := ApplyTxs(env, maturity, u, txs, n - 1, height).value;
      CheckTxIff(env, maturity, sofar.utxo, txs[n - 1], height);
      SpendTotal(env, maturity, sofar.utxo, txs[n - 1], height);
    }
  }

  /** A valid block adds at most its height's subsidy: fees are only moved, never created. */
  lemma {:induction false} ApplyBlockTotal(env: Env, maturity: int, u: Utxo, b: Block, height: nat)
    requires |b.txs| > 0 && Positive(u)
    requires ApplyBlock(env, maturity, u, b, height).Ok?
    ensures Positive(ApplyBlock(env, maturity, u, b, height).value)
    ensures Total(ApplyBlock(env, maturity, u, b, height).value) <= Total(u) + SubsidyAt(height)
  {
    ApplyTxsTotal(env, maturity, u, b.txs, |b.txs|, height);
    var a := ApplyTxs(env, maturity, u, b.txs, |b.txs|, height).value;
    var coinbase := b.txs[0];
    CheckOutputsIff(coinbase.outs, |coinbase.outs|);
    AddOutputsTotal(a.utxo, env.txId(coinbase), coinbase.outs, |coinbase.outs|, height, true);
  }

  lemma {:induction false} EmptyTotal()
    ensures Positive(map[]) && Total(map[]) == 0
  {
  }

  /** The supply bound: whatever chain of blocks validates, its UTXO set is worth at most what was minted. */
  lemma {:induction false} ReplaySupply(env: Env, maturity: int, blocks: seq<Block>)
    requires Replay(env, maturity, blocks).Ok?
    ensures Positive(Replay(env, maturity, blocks).value)
    ensures Total(Replay(env, maturity, blocks).value) <= MintedBy(|blocks|) <= MAX_MONEY
  {
    hide ApplyBlock, SubsidyAt, Positive, Total, DistinctIds, DistinctPrevs, GoodOutputs;
    MintedWithinCap(|blocks|);
    if blocks == [] {
      EmptyTotal();
    } else {
      ReplaySupply(env, maturity, blocks[..|blocks| - 1]);
      var u := Replay(env, maturity, blocks[..|blocks| - 1]).value;
      ApplyBlockTotal(env, maturity, u, blocks[|blocks| - 1], |blocks| - 1);
    }
  }

  // ---- range errors that cannot happen ----

  lemma {:induction false} NoInputRangeError(env: Env, maturity: int, u: Utxo, tx: Tx, n: nat, height: int)
    requires n <= |tx.ins| && Positive(u) && Total(u) <= MAX_MONEY
    ensures CheckInputs(env, maturity, u, tx, n, height) != Err(InputTotalRange)
    ensures CheckInputs(env, maturity, u, tx, n, height) != Err(InputValueRange)
  {
    if n > 0 {
      NoInputRangeError(env, maturity, u, tx, n - 1, height);
      CheckInputsIff(env, maturity, u, tx, n - 1, height);
      var prev := tx.ins[n - 1].prev;
      if InputsOk(env, maturity, u, tx, n - 1, height) && prev !in Prevs(tx.ins, n - 1) && prev in u {
        InputPrefixWithinTotal(env, maturity, u, tx, n, height);
        SpendSumNonneg(env, maturity, u, tx, n - 1, height);
      }
    }
  }

  lemma {:induction false} InputPrefixWithinTotal(env: Env, maturity: int, u: Utxo, tx: Tx, n: nat, height: int)
    requires 0 < n <= |tx.ins| && Positive(u)
    requires InputsOk(env, maturity, u, tx, n - 1, height)
    requires tx.ins[n - 1].prev in u && tx.ins[n - 1].prev !in Prevs(tx.ins, n - 1)
    ensures SpendSum(u, tx.ins, n) <= Total(u)
  {
    forall i | 0 <= i < n ensures tx.ins[i].prev in u {
      if i < n - 1 {
        assert SpendableBy(env, maturity, u, tx, i, height);
      }
    }
    RemoveInputsTotal(u, tx.ins, n);
    RemovedValues(u, tx.ins, n);
    TotalNonneg(RemoveInputs(u, tx.ins, n));
  }

  predicate RangeError(e: TxError) {
    e in {InputValueRange, InputTotalRange, FeeRange, AggregateFeeRange, AllowedRange}
  }

  /** With the supply bound in force, three of the money-range errors of a transaction are dead code. */
  lemma {:induction false} NoTxRangeError(env: Env, maturity: int, u: Utxo, tx: Tx, height: int)
    requires Positive(u) && Total(u) <= MAX_MONEY
    ensures CheckTx(env, maturity, u, tx, height).Err? ==> !RangeError(CheckTx(env, maturity, u, tx, height).error)
  {
    NoInputRangeError(env, maturity, u, tx, |tx.ins|, height);
    InputErrors(env, maturity, u, tx, |tx.ins|, height);
    OutputErrors(tx.outs, |tx.outs|);
    CheckInputsIff(env, maturity, u, tx, |tx.ins|, height);
    CheckOutputsIff(tx.outs, |tx.outs|);
  }

  lemma {:induction false} InputErrors(env: Env, maturity: int, u: Utxo, tx: Tx, n: nat, height: int)
    requires n <= |tx.ins|
    ensures CheckInputs(env, maturity, u, tx, n, height).Err? ==>
              CheckInputs(env, maturity, u, tx, n, height).error in
                {DuplicateInput, InputMissing, InputValueRange, CoinbaseImmature, BadPubKeySize,
                 WrongOwner, BadSignature, InputTotalRange}
  {
    if n > 0 {
      InputErrors(env, maturity, u, tx, n - 1, height);
    }
  }

  lemma {:induction false} OutputErrors(outs: seq<TxOut>, n: nat)
    requires n <= |outs|
    ensures CheckOutputs(outs, n).Err? ==>
              CheckOutputs(outs, n).error in {NegativeOutput, ZeroOutput, OutputRange, OutputTotalRange}
  {
    if n > 0 {
      OutputErrors(outs, n - 1);
    }
  }

  lemma {:induction false} NoTxsRangeError(env: Env, maturity: int, u: Utxo, txs: seq<Tx>, n: nat, height: int)
    requires n <= |txs| && Positive(u) && Total(u) <= MAX_MONEY
    ensures ApplyTxs(env, maturity, u, txs, n, height).Err? ==>
              !RangeError(ApplyTxs(env, maturity, u, txs, n, height).error)
  {
    if n > 1 {
      NoTxsRangeError(env, maturity, u, txs, n - 1, height);
      var prior := ApplyTxs(env, maturity, u, txs, n - 1, height);
      if prior.Ok? {
        ApplyTxsTotal(env, maturity, u, txs, n - 1, height);
        var sofar := prior.value;
        NoTxRangeError(env, maturity, sofar.utxo, txs[n - 1], height);
        CheckTxIff(env, maturity, sofar.utxo, txs[n - 1], height);
        if TxValid(env, maturity, sofar.utxo, txs[n - 1], height) {
          SpendTotal(env, maturity, sofar.utxo, txs[n - 1], height);
          TotalNonneg(SpendAndCreate(env, sofar.utxo, txs[n - 1], height, false));
        }
      }
    }
  }

  lemma {:induction false} AllowedFits(height: nat, fees: int)
    requires 0 <= fees <= MintedBy(height)
    ensures CheckedAdd(SubsidyAt(height), fees) == Some(SubsidyAt(height) + fees)
  {
    MintedWithinCap(height + 1);
    assert MintedBy(height + 1) == MintedBy(height) + SubsidyAt(height);
  }

  /** On top of any supply-bounded set, a block is never refused by the aggregate-fee, subsidy-plus-fees,
      input-value, input-total or fee range checks. */
  lemma {:induction false} NoBlockRangeError(env: Env, maturity: int, u: Utxo, b: Block, height: nat)
    requires |b.txs| > 0 && Positive(u) && Total(u) <= MintedBy(height)
    ensures ApplyBlock(env, maturity, u, b, height).Err? ==>
              !RangeError(ApplyBlock(env, maturity, u, b, height).error)
  {
    MintedWithinCap(height);
    NoTxsRangeError(env, maturity, u, b.txs, |b.txs|, height);
    OutputErrors(b.txs[0].outs, |b.txs[0].outs|);
    var r := ApplyTxs(env, maturity, u, b.txs, |b.txs|, height);
    if r.Ok? {
      ApplyTxsTotal(env, maturity, u, b.txs, |b.txs|, height);
      TotalNonneg(r.value.utxo);
      AllowedFits(height, r.value.fees);
    }
  }
}
