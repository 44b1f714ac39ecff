/** The wallet view as one computation: history scan, mempool pass and listing (core/wallet_view.go). */
module WalletLoops {
  import opened Types
  import opened Money
  import opened Supply
  import opened WalletView
  import opened WalletTheorems

  // ---- the mempool pass ----

  lemma {:induction false} InputsErrorSticks(created: Created, owners: set<Pkh>, taken: set<OutPoint>, ins: seq<TxIn>, k: nat, n: nat)
    requires k <= n <= |ins| && ReserveInputs(created, owners, taken, ins, k).Err?
    ensures ReserveInputs(created, owners, taken, ins, n) == ReserveInputs(created, owners, taken, ins, k)
  {
    if k < n {
      InputsErrorSticks(created, owners, taken, ins, k, n - 1);
    }
  }

  lemma {:induction false} OutputsErrorSticks(owners: set<Pkh>, outs: seq<TxOut>, k: nat, n: nat)
    requires k <= n <= |outs| && OwnedOutputs(owners, outs, k).None?
    ensures OwnedOutputs(owners, outs, n).None?
  {
    if k < n {
      OutputsErrorSticks(owners, outs, k, n - 1);
    }
  }

  lemma {:induction false} ReserveErrorSticks(created: Created, owners: set<Pkh>, pool: seq<Tx>, k: nat, n: nat)
    requires k <= n <= |pool| && Reserve(created, owners, pool, k).Err?
    ensures Reserve(created, owners, pool, n) == Reserve(created, owners, pool, k)
  {
    hide ReserveInputs, PoolOutputsOk;
    if k < n {
      ReserveErrorSticks(created, owners, pool, k, n - 1);
    }
  }

  method CheckPoolOutputs(owners: set<Pkh>, outs: seq<TxOut>) returns (ok: bool)
    ensures ok == PoolOutputsOk(owners, outs)
  {
    var owned, i := 0, 0;
    while i < |outs|
      invariant 0 <= i <= |outs| && OwnedOutputs(owners, outs, i) == Some(owned)
    {
      var o := outs[i];
      var bad := !MoneyRange(o.value);
      if !bad && o.pkh in owners {
        match CheckedAdd(owned, o.value)
        case None => bad := true;
        case Some(sum) =>
          bad := o.value <= 0;
          owned := sum;
      }
      if bad {
        OutputsErrorSticks(owners, outs, i + 1, |outs|);
        return false;
      }
      i := i + 1;
    }
    return true;
  }

  method ReserveInputsOf(created: Created, owners: set<Pkh>, given: set<OutPoint>, ins: seq<TxIn>) returns (res: Result<set<OutPoint>, ViewError>)
    ensures match ReserveInputs(created, owners, given, ins, |ins|)
            case Err(e) => res == Err(e)
            case Ok((taken, _)) => res == Ok(taken)
  {
    var taken, owned, i := given, 0, 0;
    while i < |ins|
      invariant 0 <= i <= |ins| && ReserveInputs(created, owners, given, ins, i) == Ok((taken, owned))
    {
      var op := ins[i].prev;
      var failure := None;
      if op !in created || created[op].spent {
        failure := Some(UnknownOutput);
      } else if op in taken {
        failure := Some(MultipleSpenders);
      } else {
        taken := taken + {op};
        if created[op].entry.pkh in owners {
          match CheckedAdd(owned, created[op].entry.value)
          case None => failure := Some(ViewRange);
          case Some(sum) => owned := sum;
        }
      }
      if failure.Some? {
        InputsErrorSticks(created, owners, given, ins, i + 1, |ins|);
        return Err(failure.value);
      }
      i := i + 1;
    }
    return Ok(taken);
  }

  method ReserveMempool(created: Created, owners: set<Pkh>, pool: seq<Tx>) returns (res: Result<set<OutPoint>, ViewError>)
    ensures res == Reserve(created, owners, pool, |pool|)
  {
    hide ReserveInputs, PoolOutputsOk;
    var taken: set<OutPoint>, i := {}, 0;
    while i < |pool|
      invariant 0 <= i <= |pool| && Reserve(created, owners, pool, i) == Ok(taken)
    {
      var next := ReserveInputsOf(created, owners, taken, pool[i].ins);
      if next.Err? {
        ReserveErrorSticks(created, owners, pool, i + 1, |pool|);
        return next;
      }
      var ok := CheckPoolOutputs(owners, pool[i].outs);
      if !ok {
        ReserveErrorSticks(created, owners, pool, i + 1, |pool|);
        return Err(ViewRange);
      }
      taken := next.value;
      i := i + 1;
    }
    return Ok(taken);
  }

  // ---- recorded values are in range ----

  ghost predicate InRange(created: Created) {
    forall op :: op in created ==> 0 <= created[op].entry.value <= MAX_MONEY
  }

  lemma {:induction false} MarkInRange(created: Created, owners: set<Pkh>, ins: seq<TxIn>, n: nat)
    requires n <= |ins| && InRange(created)
    ensures match MarkInputs(created, owners, ins, n) case Err(_) => true case Ok(s) => InRange(s.created)
  {
    if n > 0 {
      MarkInRange(created, owners, ins, n - 1);
    }
  }

  lemma {:induction false} RecordInRange(created: Created, owners: set<Pkh>, id: Hash, outs: seq<TxOut>, n: nat, height: int, coinbase: bool)
    requires n <= |outs| && InRange(created)
    ensures match RecordOutputs(created, owners, id, outs, n, height, coinbase) case Err(_) => true case Ok(s) => InRange(s.created)
  {
    if n > 0 {
      RecordInRange(created, owners, id, outs, n - 1, height, coinbase);
    }
  }

  lemma {:induction false} TxInRange(env: Env, owners: set<Pkh>, created: Created, tx: Tx, height: int)
    requires InRange(created)
    ensures match ScanTx(env, owners, created, tx, height) case Err(_) => true case Ok(c) => InRange(c)
  {
    hide MarkInputs, RecordOutputs, InRange;
    MarkInRange(created, owners, tx.ins, |tx.ins|);
    var marked := MarkInputs(created, owners, tx.ins, |tx.ins|);
    if marked.Ok? {
      RecordInRange(marked.value.created, owners, env.txId(tx), tx.outs, |tx.outs|, height, tx.IsCoinbase());
    }
    RecordInRange(created, owners, env.txId(tx), tx.outs, |tx.outs|, height, tx.IsCoinbase());
  }

  lemma {:induction false} TxsInRange(env: Env, owners: set<Pkh>, created: Created, txs: seq<Tx>, n: nat, height: int)
    requires n <= |txs| && InRange(created)
    ensures match ScanTxs(env, owners, created, txs, n, height) case Err(_) => true case Ok(c) => InRange(c)
  {
    hide ScanTx, InRange;
    if n > 0 {
      TxsInRange(env, owners, created, txs, n - 1, height);
      var before := ScanTxs(env, owners, created, txs, n - 1, height);
      if before.Ok? {
        TxInRange(env, owners, before.value, txs[n - 1], height);
      }
    }
  }

  lemma {:induction false} ChainInRange(env: Env, owners: set<Pkh>, blocks: seq<Block>)
    ensures match ScanChain(env, owners, blocks) case Err(_) => true case Ok(c) => InRange(c)
  {
    hide ScanTxs;
    if blocks != [] {
      var n := |blocks| - 1;
      ChainInRange(env, owners, blocks[..n]);
      var before := ScanChain(env, owners, blocks[..n]);
      if before.Ok? {
        TxsInRange(env, owners, before.value, blocks[n].txs, |blocks[n].txs|, n);
      }
    }
  }

  /** `walletViewForOwnersLocked`, without the activity list. */
  method ComputeView(env: Env, maturity: int, owners: set<Pkh>, blocks: seq<Block>, pool: seq<Tx>) returns (res: Result<Holdings, ViewError>)
    ensures res == WalletViewOf(env, maturity, owners, blocks, pool)
  {
    hide ScanChain, Reserve, SpendableOf, ImmatureOf, Total;
    var scanned := ScanHistory(env, owners, blocks);
    if scanned.Err? {
      return Err(scanned.error);
    }
    ChainInRange(env, owners, blocks);
    var taken := ReserveMempool(scanned.value, owners, pool);
    if taken.Err? {
      return Err(taken.error);
    }
    res := ListOutputs(scanned.value, owners, taken.value, |blocks| - 1, maturity);
  }
}
