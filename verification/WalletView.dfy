/** The wallet's view of the chain (core/wallet_view.go): a scan of the whole main-chain history that never
    consults the UTXO set, and what it has to do with that set. */
module WalletView {
  import opened Types
  import opened Money
  import opened Ledger
  import opened Supply

  /** One output of the history, with whether a later input has consumed it. */
  datatype Out = Out(entry: Entry, spent: bool)

  type Created = map<OutPoint, Out>

  datatype ViewError = UnknownOutput | MultipleSpenders | RepeatedOutpoint | ViewRange

  datatype Scan = Scan(created: Created, owned: int)

  // ---- the scan ----

  /** Mark the first `n` inputs as spent, totalling those the wallet owns. */
  function MarkInputs(created: Created, owners: set<Pkh>, ins: seq<TxIn>, n: nat): Result<Scan, ViewError>
    requires n <= |ins|
  {
    if n == 0 then Ok(Scan(created, 0))
    else
      match MarkInputs(created, owners, ins, n - 1)
      case Err(e) => Err(e)
      case Ok(sofar) =>
        var op := ins[n - 1].prev;
        if op !in sofar.created then Err(UnknownOutput)
        else if sofar.created[op].spent then Err(MultipleSpenders)
        else
          var out := sofar.created[op];
          var marked := sofar.created[op := out.(spent := true)];
          if out.entry.pkh !in owners then Ok(Scan(marked, sofar.owned))
          else match CheckedAdd(sofar.owned, out.entry.value)
               case None => Err(ViewRange)
               case Some(total) => Ok(Scan(marked, total))
  }

  /** Record the first `n` outputs, totalling those the wallet owns. */
  function RecordOutputs(created: Created, owners: set<Pkh>, id: Hash, outs: seq<TxOut>, n: nat, height: int, coinbase: bool)
    : Result<Scan, ViewError>
    requires n <= |outs|
  {
    if n == 0 then Ok(Scan(created, 0))
    else
      match RecordOutputs(created, owners, id, outs, n - 1, height, coinbase)
      case Err(e) => Err(e)
      case Ok(sofar) =>
        var o := outs[n - 1];
        var op := OutPoint(id, n - 1);
        if !MoneyRange(o.value) then Err(ViewRange)
        else if op in sofar.created then Err(RepeatedOutpoint)
        else
          var grown := sofar.created[op := Out(Entry(o.value, o.pkh, height, coinbase), false)];
          if o.pkh !in owners then Ok(Scan(grown, sofar.owned))
          else if o.value <= 0 then Err(ViewRange)
          else match CheckedAdd(sofar.owned, o.value)
               case None => Err(ViewRange)
               case Some(total) => Ok(Scan(grown, total))
  }

  function ScanTx(env: Env, owners: set<Pkh>, created: Created, tx: Tx, height: int): Result<Created, ViewError> {
    match (if tx.IsCoinbase() then Ok(Scan(created, 0)) else MarkInputs(created, owners, tx.ins, |tx.ins|))
    case Err(e) => Err(e)
    case Ok(marked) =>
      match RecordOutputs(marked.created, owners, env.txId(tx), tx.outs, |tx.outs|, height, tx.IsCoinbase())
      case Err(e) => Err(e)
      case Ok(done) => Ok(done.created)
  }

  function ScanTxs(env: Env, owners: set<Pkh>, created: Created, txs: seq<Tx>, n: nat, height: int): Result<Created, ViewError>
    requires n <= |txs|
  {
    if n == 0 then Ok(created)
    else
      match ScanTxs(env, owners, created, txs, n - 1, height)
      case Err(e) => Err(e)
      case Ok(sofar) => ScanTx(env, owners, sofar, txs[n - 1], height)
  }

  /** The history scan over the main chain, genesis first. */
  function ScanChain(env: Env, owners: set<Pkh>, blocks: seq<Block>): Result<Created, ViewError> {
    if blocks == [] then Ok(map[])
    else
      var last := blocks[|blocks| - 1];
      match ScanChain(env, owners, blocks[..|blocks| - 1])
      case Err(e) => Err(e)
      case Ok(sofar) => ScanTxs(env, owners, sofar, last.txs, |last.txs|, |blocks| - 1)
  }

  // ---- how the scan relates to a UTXO set ----

  /** Away from `skip`, unspent history and UTXO set are the same outputs. */
  ghost predicate Agree(created: Created, u: Utxo, skip: set<Hash>) {
    forall op: OutPoint :: op.txId !in skip ==>
      (op in u <==> op in created && !created[op].spent) && (op in u ==> created[op].entry == u[op])
  }

  /** A transaction appears in the history from its first output on. */
  ghost predicate WholeTxs(created: Created) {
    forall op :: op in created ==> OutPoint(op.txId, 0) in created
  }

  ghost predicate Unseen(created: Created, id: Hash) {
    forall op :: op in created ==> op.txId != id
  }

  lemma {:induction false} MarkInputsShape(created: Created, owners: set<Pkh>, ins: seq<TxIn>, n: nat)
    requires n <= |ins| && MarkInputs(created, owners, ins, n).Ok?
    ensures var c := MarkInputs(created, owners, ins, n).value.created;
            && c.Keys == created.Keys
            && (forall i :: 0 <= i < n ==> ins[i].prev in created && !created[ins[i].prev].spent)
            && (forall op :: op in created ==>
                  (c[op].entry == created[op].entry && (c[op].spent <==> created[op].spent || op in Prevs(ins, n))))
  {
    if n > 0 {
      MarkInputsShape(created, owners, ins, n - 1);
      assert Prevs(ins, n) == Prevs(ins, n - 1) + {ins[n - 1].prev};
    }
  }

  lemma {:induction false} RecordOutputsShape(created: Created, owners: set<Pkh>, id: Hash, outs: seq<TxOut>, n: nat,
                                              height: int, coinbase: bool)
    requires n <= |outs| && RecordOutputs(created, owners, id, outs, n, height, coinbase).Ok?
    ensures var c := RecordOutputs(created, owners, id, outs, n, height, coinbase).value.created;
            && (forall op: OutPoint :: op.txId != id ==> (op in c <==> op in created) && (op in c ==> c[op] == created[op]))
            && (forall i :: 0 <= i < n ==>
                  (&& OutPoint(id, i) !in created && OutPoint(id, i) in c
                   && c[OutPoint(id, i)] == Out(Entry(outs[i].value, outs[i].pkh, height, coinbase), false)))
            && (forall op: OutPoint :: op.txId == id && op in c ==> op in created || op.idx < n)
            && (forall op :: op in created ==> op in c)
  {
    if n > 0 {
      RecordOutputsShape(created, owners, id, outs, n - 1, height, coinbase);
    }
  }

  lemma {:induction false} AddOutputsShape(u: Utxo, id: Hash, outs: seq<TxOut>, n: nat, height: int, coinbase: bool)
    requires n <= |outs|
    ensures var v := AddOutputs(u, id, outs, n, height, coinbase);
            && (forall op: OutPoint :: op.txId != id ==> (op in v <==> op in u) && (op in v ==> v[op] == u[op]))
            && (forall i :: 0 <= i < n ==>
                  (OutPoint(id, i) in v && v[OutPoint(id, i)] == Entry(outs[i].value, outs[i].pkh, height, coinbase)))
            && (forall op: OutPoint :: op.txId == id && op in v ==> op in u || op.idx < n)
  {
    if n > 0 {
      AddOutputsShape(u, id, outs, n - 1, height, coinbase);
    }
  }

  /** Spending through the history and through the set keeps them in agreement. */
  lemma {:induction false} MarkAgrees(created: Created, u: Utxo, skip: set<Hash>, owners: set<Pkh>, ins: seq<TxIn>)
    requires Agree(created, u, skip) && MarkInputs(created, owners, ins, |ins|).Ok?
    ensures Agree(MarkInputs(created, owners, ins, |ins|).value.created, RemoveInputs(u, ins, |ins|), skip)
  {
    hide MarkInputs, RemoveInputs, Prevs;
    MarkInputsShape(created, owners, ins, |ins|);
    RemovedValues(u, ins, |ins|);
  }

  lemma {:induction false} RecordAgrees(created: Created, u: Utxo, skip: set<Hash>, owners: set<Pkh>, id: Hash, outs: seq<TxOut>,
                                        height: int, coinbase: bool)
    requires Agree(created, u, skip) && id !in skip && Unseen(created, id)
    requires RecordOutputs(created, owners, id, outs, |outs|, height, coinbase).Ok?
    ensures Agree(RecordOutputs(created, owners, id, outs, |outs|, height, coinbase).value.created,
                  AddOutputs(u, id, outs, |outs|, height, coinbase), skip)
  {
    hide RecordOutputs, AddOutputs;
    RecordOutputsShape(created, owners, id, outs, |outs|, height, coinbase);
    AddOutputsShape(u, id, outs, |outs|, height, coinbase);
    var c := RecordOutputs(created, owners, id, outs, |outs|, height, coinbase).value.created;
    var v := AddOutputs(u, id, outs, |outs|, height, coinbase);
    forall op: OutPoint | op.txId == id
      ensures (op in v <==> op in c && !c[op].spent) && (op in v ==> c[op].entry == v[op])
    {
      assert op !in u;
      if op.idx < |outs| {
        assert op == OutPoint(id, op.idx);
      }
    }
  }

  // ---- when each part of the scan succeeds ----

  /** Inputs the set would accept are found unspent in the history, and their owned total stays in range. */
  lemma {:induction false} MarkSucceeds(env: Env, maturity: int, created: Created, u: Utxo, skip: set<Hash>, owners: set<Pkh>,
                                        tx: Tx, n: nat, height: int)
    requires n <= |tx.ins| && Agree(created, u, skip) && TxValid(env, maturity, u, tx, height)
    requires forall op :: op in u ==> op.txId !in skip
    ensures MarkInputs(created, owners, tx.ins, n).Ok?
    ensures 0 <= MarkInputs(created, owners, tx.ins, n).value.owned <= SpendSum(u, tx.ins, n)
  {
    if n > 0 {
      MarkSucceeds(env, maturity, created, u, skip, owners, tx, n - 1, height);
      MarkInputsShape(created, owners, tx.ins, n - 1);
      var op := tx.ins[n - 1].prev;
      assert SpendableBy(env, maturity, u, tx, n - 1, height);
      assert op !in Prevs(tx.ins, n - 1);
      SpendPrefix(env, maturity, u, tx, n, height);
    }
  }

  lemma {:induction false} SpendPrefix(env: Env, maturity: int, u: Utxo, tx: Tx, n: nat, height: int)
    requires n <= |tx.ins| && TxValid(env, maturity, u, tx, height)
    ensures SpendSum(u, tx.ins, n) <= MAX_MONEY
  {
    SpendGrows(env, maturity, u, tx, n, |tx.ins|, height);
  }

  lemma {:induction false} SpendGrows(env: Env, maturity: int, u: Utxo, tx: Tx, n: nat, m: nat, height: int)
    requires n <= m <= |tx.ins| && TxValid(env, maturity, u, tx, height)
    ensures SpendSum(u, tx.ins, n) <= SpendSum(u, tx.ins, m)
  {
    if n < m {
      SpendGrows(env, maturity, u, tx, n, m - 1, height);
      assert SpendableBy(env, maturity, u, tx, m - 1, height);
    }
  }

  lemma {:induction false} RecordSucceeds(created: Created, owners: set<Pkh>, id: Hash, outs: seq<TxOut>, n: nat,
                                          height: int, coinbase: bool)
    requires n <= |outs| && GoodOutputs(outs, |outs|) && Unseen(created, id)
    ensures RecordOutputs(created, owners, id, outs, n, height, coinbase).Ok?
    ensures 0 <= RecordOutputs(created, owners, id, outs, n, height, coinbase).value.owned <= OutSum(outs, n)
  {
    if n > 0 {
      RecordSucceeds(created, owners, id, outs, n - 1, height, coinbase);
      RecordOutputsShape(created, owners, id, outs, n - 1, height, coinbase);
      OutGrows(outs, n, |outs|);
    }
  }

  lemma {:induction false} OutGrows(outs: seq<TxOut>, n: nat, m: nat)
    requires n <= m <= |outs| && GoodOutputs(outs, |outs|)
    ensures OutSum(outs, n) <= OutSum(outs, m)
  {
    if n < m {
      OutGrows(outs, n, m - 1);
    }
  }

  lemma {:induction false} RecordFails(created: Created, owners: set<Pkh>, id: Hash, outs: seq<TxOut>, n: nat,
                                       height: int, coinbase: bool)
    requires 0 < n <= |outs| && OutPoint(id, 0) in created
    ensures RecordOutputs(created, owners, id, outs, n, height, coinbase).Err?
  {
    if n > 1 {
      RecordFails(created, owners, id, outs, n - 1, height, coinbase);
    } else {
      assert RecordOutputs(created, owners, id, outs, 0, height, coinbase) == Ok(Scan(created, 0));
    }
  }

  /** Ids of the transactions in the history. */
  ghost function SeenIds(created: Created): set<Hash> {
    set op | op in created :: op.txId
  }

  lemma {:induction false} UnseenIff(created: Created, id: Hash)
    ensures Unseen(created, id) <==> id !in SeenIds(created)
  {
  }

  /** One transaction's outputs are recorded exactly when its id is new to the history. */
  lemma {:induction false} RecordIff(created: Created, owners: set<Pkh>, id: Hash, outs: seq<TxOut>, height: int, coinbase: bool)
    requires |outs| > 0 && GoodOutputs(outs, |outs|) && WholeTxs(created)
    ensures RecordOutputs(created, owners, id, outs, |outs|, height, coinbase).Ok? <==> Unseen(created, id)
    ensures Unseen(created, id) ==>
              var c := RecordOutputs(created, owners, id, outs, |outs|, height, coinbase).value.created;
              WholeTxs(c) && SeenIds(c) == SeenIds(created) + {id}
  {
    hide RecordOutputs, GoodOutputs;
    if Unseen(created, id) {
      RecordSucceeds(created, owners, id, outs, |outs|, height, coinbase);
      RecordOutputsShape(created, owners, id, outs, |outs|, height, coinbase);
      var c := RecordOutputs(created, owners, id, outs, |outs|, height, coinbase).value.created;
      assert OutPoint(id, 0) in c;
      RecordedIds(created, c, id, |outs|);
    } else {
      var op :| op in created && op.txId == id;
      RecordFails(created, owners, id, outs, |outs|, height, coinbase);
    }
  }

  lemma {:induction false} RecordedIds(created: Created, c: Created, id: Hash, n: nat)
    requires forall op: OutPoint :: op.txId != id ==> (op in c <==> op in created)
    requires OutPoint(id, 0) in c && Unseen(created, id) && WholeTxs(created)
    requires forall op :: op in created ==> op in c
    ensures WholeTxs(c) && SeenIds(c) == SeenIds(created) + {id}
  {
    forall x | x in SeenIds(created) + {id} ensures x in SeenIds(c) {
      if x == id {
        assert OutPoint(id, 0).txId == id;
      } else {
        var op :| op in created && op.txId == x;
        assert op in c;
      }
    }
  }
}
