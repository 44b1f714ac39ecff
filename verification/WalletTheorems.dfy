/** The finished wallet view: exactly the owned part of the UTXO set, split by maturity, with exact totals. */
module WalletTheorems {
  import opened Types
  import opened Money
  import opened Ledger
  import opened Supply
  import opened Params
  import opened Difficulty
  import opened Consensus
  import opened Invariant
  import opened Template
  import opened WalletView
  import opened WalletHistory

  /** A wallet view, without the activity list. */
  datatype Holdings = Holdings(spendable: Utxo, spendableUnits: int, immature: Utxo, immatureUnits: int)

  predicate Mature(e: Entry, tipHeight: int, maturity: int) {
    !e.coinbase || tipHeight - e.height + 1 >= maturity
  }

  // ---- the mempool pass ----

  /** Outpoints spent by the first `n` listed mempool transactions, checked against the history. */
  function Reserve(created: Created, owners: set<Pkh>, pool: seq<Tx>, n: nat): Result<set<OutPoint>, ViewError>
    requires n <= |pool|
  {
    if n == 0 then Ok({})
    else
      match Reserve(created, owners, pool, n - 1)
      case Err(e) => Err(e)
      case Ok(taken) =>
        match ReserveInputs(created, owners, taken, pool[n - 1].ins, |pool[n - 1].ins|)
        case Err(e) => Err(e)
        case Ok((taken', _)) => if PoolOutputsOk(owners, pool[n - 1].outs) then Ok(taken') else Err(ViewRange)
  }

  function ReserveInputs(created: Created, owners: set<Pkh>, taken: set<OutPoint>, ins: seq<TxIn>, n: nat)
    : Result<(set<OutPoint>, int), ViewError>
    requires n <= |ins|
  {
    if n == 0 then Ok((taken, 0))
    else
      match ReserveInputs(created, owners, taken, ins, n - 1)
      case Err(e) => Err(e)
      case Ok((sofar, owned)) =>
        var op := ins[n - 1].prev;
        if op !in created || created[op].spent then Err(UnknownOutput)
        else if op in sofar then Err(MultipleSpenders)
        else if created[op].entry.pkh !in owners then Ok((sofar + {op}, owned))
        else match CheckedAdd(owned, created[op].entry.value)
             case None => Err(ViewRange)
             case Some(total) => Ok((sofar + {op}, total))
  }

  function OwnedOutputs(owners: set<Pkh>, outs: seq<TxOut>, n: nat): Option<int>
    requires n <= |outs|
  {
    if n == 0 then Some(0)
    else
      match OwnedOutputs(owners, outs, n - 1)
      case None => None
      case Some(sum) =>
        if !MoneyRange(outs[n - 1].value) then None
        else if outs[n - 1].pkh !in owners then Some(sum)
        else if outs[n - 1].value <= 0 then None
        else CheckedAdd(sum, outs[n - 1].value)
  }

  predicate PoolOutputsOk(owners: set<Pkh>, outs: seq<TxOut>) {
    OwnedOutputs(owners, outs, |outs|).Some?
  }

  lemma {:induction false} GoodPoolOutputs(owners: set<Pkh>, outs: seq<TxOut>, n: nat)
    requires n <= |outs| && GoodOutputs(outs, |outs|)
    ensures OwnedOutputs(owners, outs, n).Some? && 0 <= OwnedOutputs(owners, outs, n).value <= OutSum(outs, n)
  {
    if n > 0 {
      GoodPoolOutputs(owners, outs, n - 1);
      OutGrows(outs, n, |outs|);
    }
  }

  lemma {:induction false} ReserveInputsOk(env: Env, maturity: int, created: Created, u: Utxo, owners: set<Pkh>,
                                           taken: set<OutPoint>, tx: Tx, n: nat, height: int)
    requires n <= |tx.ins| && Agree(created, u, {}) && TxValid(env, maturity, u, tx, height)
    requires forall i :: 0 <= i < |tx.ins| ==> tx.ins[i].prev !in taken
    ensures var res := ReserveInputs(created, owners, taken, tx.ins, n);
            && res.Ok? && res.value.0 == taken + Prevs(tx.ins, n) && 0 <= res.value.1 <= SpendSum(u, tx.ins, n)
  {
    if n > 0 {
      ReserveInputsOk(env, maturity, created, u, owners, taken, tx, n - 1, height);
      var op := tx.ins[n - 1].prev;
      assert SpendableBy(env, maturity, u, tx, n - 1, height);
      assert op !in Prevs(tx.ins, n - 1);
      assert Prevs(tx.ins, n) == Prevs(tx.ins, n - 1) + {op};
      SpendPrefix(env, maturity, u, tx, n, height);
    }
  }

  /** Everything the first `n` listed transactions spend. */
  ghost function PoolSpends(pool: seq<Tx>, n: nat): set<OutPoint>
    requires n <= |pool|
  {
    if n == 0 then {} else PoolSpends(pool, n - 1) + Prevs(pool[n - 1].ins, |pool[n - 1].ins|)
  }

  lemma {:induction false} PoolSpendsOf(pool: seq<Tx>, n: nat, op: OutPoint) returns (k: nat, i: nat)
    requires n <= |pool| && op in PoolSpends(pool, n)
    ensures k < n && i < |pool[k].ins| && pool[k].ins[i].prev == op
  {
    if op in PoolSpends(pool, n - 1) {
      k, i := PoolSpendsOf(pool, n - 1, op);
    } else {
      k := n - 1;
      i :| 0 <= i < |pool[k].ins| && pool[k].ins[i].prev == op;
    }
  }

  /** Valid transactions that do not compete are all reserved without error. */
  lemma {:induction false} ReserveOk(env: Env, maturity: int, created: Created, u: Utxo, owners: set<Pkh>, pool: seq<Tx>, n: nat,
                                     height: int)
    requires n <= |pool| && Agree(created, u, {})
    requires forall i :: 0 <= i < |pool| ==> TxValid(env, maturity, u, pool[i], height)
    requires forall i, j :: 0 <= i < j < |pool| ==> Disjoint(pool[i], pool[j])
    ensures Reserve(created, owners, pool, n) == Ok(PoolSpends(pool, n))
  {
    hide TxValid, Agree, ReserveInputs, Disjoint, Prevs;
    if n > 0 {
      ReserveOk(env, maturity, created, u, owners, pool, n - 1, height);
      var tx := pool[n - 1];
      forall j | 0 <= j < |tx.ins| ensures tx.ins[j].prev !in PoolSpends(pool, n - 1) {
        if tx.ins[j].prev in PoolSpends(pool, n - 1) {
          var k, i := PoolSpendsOf(pool, n - 1, tx.ins[j].prev);
          NotShared(pool[k], tx, i, j);
        }
      }
      ReserveInputsOk(env, maturity, created, u, owners, PoolSpends(pool, n - 1), tx, |tx.ins|, height);
      ValidParts(env, maturity, u, tx, height);
      GoodPoolOutputs(owners, tx.outs, |tx.outs|);
    }
  }

  lemma {:induction false} NotShared(a: Tx, b: Tx, i: nat, j: nat)
    requires Disjoint(a, b) && i < |a.ins| && j < |b.ins|
    ensures a.ins[i].prev != b.ins[j].prev
  {
  }

  // ---- the listing pass ----

  predicate Lists(created: Created, owners: set<Pkh>, op: OutPoint)
    requires op in created
  {
    created[op].entry.pkh in owners && !created[op].spent
  }

  ghost function SpendableOf(created: Created, owners: set<Pkh>, taken: set<OutPoint>, tipHeight: int, maturity: int): Utxo {
    map op | op in created && Lists(created, owners, op) && Mature(created[op].entry, tipHeight, maturity) && op !in taken
      :: created[op].entry
  }

  ghost function ImmatureOf(created: Created, owners: set<Pkh>, tipHeight: int, maturity: int): Utxo {
    map op | op in created && Lists(created, owners, op) && !Mature(created[op].entry, tipHeight, maturity)
      :: created[op].entry
  }

  /** Walk the history once, listing owned unspent outputs and totalling them under range checks. */
  method ListOutputs(created: Created, owners: set<Pkh>, taken: set<OutPoint>, tipHeight: int, maturity: int)
    returns (res: Result<Holdings, ViewError>)
    requires forall op :: op in created ==> 0 <= created[op].entry.value <= MAX_MONEY
    ensures res.Ok? <==> Total(SpendableOf(created, owners, taken, tipHeight, maturity)) <= MAX_MONEY
                         && Total(ImmatureOf(created, owners, tipHeight, maturity)) <= MAX_MONEY
    ensures res.Err? ==> res.error == ViewRange
    ensures res.Ok? ==> res.value == Holdings(SpendableOf(created, owners, taken, tipHeight, maturity),
                                          Total(SpendableOf(created, owners, taken, tipHeight, maturity)),
                                          ImmatureOf(created, owners, tipHeight, maturity),
                                          Total(ImmatureOf(created, owners, tipHeight, maturity)))
  {
    hide Total, SpendableOf, ImmatureOf, Visited;
    ghost var wantS := SpendableOf(created, owners, taken, tipHeight, maturity);
    ghost var wantI := ImmatureOf(created, owners, tipHeight, maturity);
    var spendable: Utxo, immature: Utxo := map[], map[];
    var spendableUnits, immatureUnits := 0, 0;
    var todo := created.Keys;
    EmptyTotal();
    Classified(created, owners, taken, tipHeight, maturity);
    NothingVisited(wantS, todo);
    NothingVisited(wantI, todo);
    while todo != {}
      invariant todo <= created.Keys && Visited(wantS, spendable, todo) && Visited(wantI, immature, todo)
      invariant spendableUnits == Total(spendable) && 0 <= spendableUnits <= MAX_MONEY
      invariant immatureUnits == Total(immature) && 0 <= immatureUnits <= MAX_MONEY
      decreases |todo|
    {
      var op :| op in todo;
      VisitNext(wantS, spendable, todo, op);
      VisitNext(wantI, immature, todo, op);
      todo := todo - {op};
      var out := created[op];
      if out.entry.pkh in owners && !out.spent {
        if out.entry.coinbase && tipHeight - out.entry.height + 1 < maturity {
          TotalWrite(immature, op, out.entry);
          immature := immature[op := out.entry];
          match CheckedAdd(immatureUnits, out.entry.value)
          case None =>
            VisitedTotal(wantI, immature, todo);
            return Err(ViewRange);
          case Some(sum) => immatureUnits := sum;
        } else if op !in taken {
          TotalWrite(spendable, op, out.entry);
          spendable := spendable[op := out.entry];
          match CheckedAdd(spendableUnits, out.entry.value)
          case None =>
            VisitedTotal(wantS, spendable, todo);
            return Err(ViewRange);
          case Some(sum) => spendableUnits := sum;
        }
      }
    }
    AllVisited(wantS, spendable);
    AllVisited(wantI, immature);
    res := Ok(Holdings(spendable, spendableUnits, immature, immatureUnits));
  }

  /** `have` is the part of `want` already visited. */
  ghost predicate Visited(want: Utxo, have: Utxo, todo: set<OutPoint>) {
    && (forall op :: op in have <==> op in want && op !in todo)
    && (forall op :: op in have ==> have[op] == want[op])
  }

  /** Which outputs each list wants. */
  lemma {:induction false} Classified(created: Created, owners: set<Pkh>, taken: set<OutPoint>, tipHeight: int, maturity: int)
    ensures var s, i := SpendableOf(created, owners, taken, tipHeight, maturity), ImmatureOf(created, owners, tipHeight, maturity);
            && (forall op :: op in s ==> op in created && s[op] == created[op].entry)
            && (forall op :: op in i ==> op in created && i[op] == created[op].entry)
            && (forall op :: op in created ==>
                  && (op in s <==> Lists(created, owners, op) && Mature(created[op].entry, tipHeight, maturity) && op !in taken)
                  && (op in i <==> Lists(created, owners, op) && !Mature(created[op].entry, tipHeight, maturity)))
  {
  }

  lemma {:induction false} NothingVisited(want: Utxo, todo: set<OutPoint>)
    requires forall op :: op in want ==> op in todo
    ensures Visited(want, map[], todo)
  {
  }

  lemma {:induction false} VisitNext(want: Utxo, have: Utxo, todo: set<OutPoint>, op: OutPoint)
    requires Visited(want, have, todo) && op in todo
    ensures op in want ==> Visited(want, have[op := want[op]], todo - {op}) && op !in have
    ensures op !in want ==> Visited(want, have, todo - {op})
  {
  }

  lemma {:induction false} VisitedTotal(want: Utxo, have: Utxo, todo: set<OutPoint>)
    requires Visited(want, have, todo) && (forall op :: op in want ==> want[op].value >= 0)
    ensures Total(have) <= Total(want)
  {
    hide Total;
    TotalOfPart(have, want);
  }

  lemma {:induction false} AllVisited(want: Utxo, have: Utxo)
    requires Visited(want, have, {})
    ensures have == want
  {
  }

  lemma {:induction false} TotalOfPart(a: Utxo, b: Utxo)
    requires forall op :: op in a ==> op in b && a[op] == b[op]
    requires forall op :: op in b ==> b[op].value >= 0
    ensures Total(a) <= Total(b)
    decreases |b|
  {
    hide Total;
    if b == map[] {
      assert a == map[];
    } else if a == map[] {
      var op :| op in b;
      TotalRemove(b, op);
      TotalOfPart(a, b - {op});
      EmptyTotal();
    } else {
      var op :| op in a;
      TotalRemove(a, op);
      TotalRemove(b, op);
      TotalOfPart(a - {op}, b - {op});
    }
  }

  // ---- the history loops ----

  method ScanHistoryTx(env: Env, owners: set<Pkh>, created: Created, tx: Tx, height: int) returns (res: Result<Created, ViewError>)
    ensures res == ScanTx(env, owners, created, tx, height)
  {
    var table := created;
    var ownedInputs, ownedOutputs := 0, 0;
    if !tx.IsCoinbase() {
      var i := 0;
      while i < |tx.ins|
        invariant 0 <= i <= |tx.ins|
        invariant MarkInputs(created, owners, tx.ins, i) == Ok(Scan(table, ownedInputs))
      {
        var op := tx.ins[i].prev;
        var failure := None;
        if op !in table {
          failure := Some(UnknownOutput);
        } else if table[op].spent {
          failure := Some(MultipleSpenders);
        } else {
          var out := table[op];
          table := table[op := out.(spent := true)];
          if out.entry.pkh in owners {
            match CheckedAdd(ownedInputs, out.entry.value)
            case None => failure := Some(ViewRange);
            case Some(sum) => ownedInputs := sum;
          }
        }
        if failure.Some? {
          MarkErrorSticks(created, owners, tx.ins, i + 1, |tx.ins|);
          return Err(failure.value);
        }
        i := i + 1;
      }
    }
    ghost var marked := table;
    var id, coinbase := env.txId(tx), tx.IsCoinbase();
    var j := 0;
    while j < |tx.outs|
      invariant 0 <= j <= |tx.outs|
      invariant RecordOutputs(marked, owners, id, tx.outs, j, height, coinbase) == Ok(Scan(table, ownedOutputs))
    {
      var o, op := tx.outs[j], OutPoint(id, j);
      var failure := None;
      if !MoneyRange(o.value) {
        failure := Some(ViewRange);
      } else if op in table {
        failure := Some(RepeatedOutpoint);
      } else {
        table := table[op := Out(Entry(o.value, o.pkh, height, coinbase), false)];
        if o.pkh in owners {
          if o.value <= 0 {
            failure := Some(ViewRange);
          } else {
            match CheckedAdd(ownedOutputs, o.value)
            case None => failure := Some(ViewRange);
            case Some(sum) => ownedOutputs := sum;
          }
        }
      }
      if failure.Some? {
        RecordErrorSticks(marked, owners, id, tx.outs, j + 1, |tx.outs|, height, coinbase);
        return Err(failure.value);
      }
      j := j + 1;
    }
    res := Ok(table);
  }

  lemma {:induction false} MarkErrorSticks(created: Created, owners: set<Pkh>, ins: seq<TxIn>, k: nat, n: nat)
    requires k <= n <= |ins| && MarkInputs(created, owners, ins, k).Err?
    ensures MarkInputs(created, owners, ins, n) == MarkInputs(created, owners, ins, k)
  {
    if k < n {
      MarkErrorSticks(created, owners, ins, k, n - 1);
    }
  }

  lemma {:induction false} RecordErrorSticks(created: Created, owners: set<Pkh>, id: Hash, outs: seq<TxOut>, k: nat, n: nat,
                                             height: int, coinbase: bool)
    requires k <= n <= |outs| && RecordOutputs(created, owners, id, outs, k, height, coinbase).Err?
    ensures RecordOutputs(created, owners, id, outs, n, height, coinbase) == RecordOutputs(created, owners, id, outs, k, height, coinbase)
  {
    if k < n {
      RecordErrorSticks(created, owners, id, outs, k, n - 1, height, coinbase);
    }
  }

  lemma {:induction false} ScanErrorSticks(env: Env, owners: set<Pkh>, created: Created, txs: seq<Tx>, k: nat, n: nat, height: int)
    requires k <= n <= |txs| && ScanTxs(env, owners, created, txs, k, height).Err?
    ensures ScanTxs(env, owners, created, txs, n, height) == ScanTxs(env, owners, created, txs, k, height)
  {
    hide ScanTx;
    if k < n {
      ScanErrorSticks(env, owners, created, txs, k, n - 1, height);
    }
  }

  lemma {:induction false} ChainErrorSticks(env: Env, owners: set<Pkh>, blocks: seq<Block>, k: nat, n: nat)
    requires k <= n <= |blocks| && ScanChain(env, owners, blocks[..k]).Err?
    ensures ScanChain(env, owners, blocks[..n]) == ScanChain(env, owners, blocks[..k])
  {
    hide ScanTxs;
    if k < n {
      ChainErrorSticks(env, owners, blocks, k, n - 1);
      assert blocks[..n][..n - 1] == blocks[..n - 1];
    }
  }

  method ScanHistory(env: Env, owners: set<Pkh>, blocks: seq<Block>) returns (res: Result<Created, ViewError>)
    ensures res == ScanChain(env, owners, blocks)
  {
    hide ScanTx;
    var created: Created := map[];
    var height := 0;
    while height < |blocks|
      invariant 0 <= height <= |blocks|
      invariant ScanChain(env, owners, blocks[..height]) == Ok(created)
    {
      var txs := blocks[height].txs;
      ghost var before := created;
      assert blocks[..height + 1][..height] == blocks[..height];
      var i := 0;
      while i < |txs|
        invariant 0 <= i <= |txs|
        invariant ScanTxs(env, owners, before, txs, i, height) == Ok(created)
      {
        var scanned := ScanHistoryTx(env, owners, created, txs[i], height);
        if scanned.Err? {
          ScanErrorSticks(env, owners, before, txs, i + 1, |txs|, height);
          ChainErrorSticks(env, owners, blocks, height + 1, |blocks|);
          assert blocks[..|blocks|] == blocks;
          return scanned;
        }
        created := scanned.value;
        i := i + 1;
      }
      height := height + 1;
    }
    assert blocks[..height] == blocks;
    res := Ok(created);
  }

  // ---- the theorem ----

  /** Owned, mature, and not already spent by a mempool transaction. */
  ghost function OwnedSpendable(u: Utxo, owners: set<Pkh>, taken: set<OutPoint>, tipHeight: int, maturity: int): Utxo {
    map op | op in u && u[op].pkh in owners && Mature(u[op], tipHeight, maturity) && op !in taken :: u[op]
  }

  /** Owned coinbase outputs still maturing. */
  ghost function OwnedImmature(u: Utxo, owners: set<Pkh>, tipHeight: int, maturity: int): Utxo {
    map op | op in u && u[op].pkh in owners && !Mature(u[op], tipHeight, maturity) :: u[op]
  }

  /** `walletViewForOwnersLocked` from the history and a listing of the mempool. */
  ghost function WalletViewOf(env: Env, maturity: int, owners: set<Pkh>, blocks: seq<Block>, pool: seq<Tx>)
    : Result<Holdings, ViewError>
  {
    match ScanChain(env, owners, blocks)
    case Err(e) => Err(e)
    case Ok(created) =>
      match Reserve(created, owners, pool, |pool|)
      case Err(e) => Err(e)
      case Ok(taken) =>
        var s := SpendableOf(created, owners, taken, |blocks| - 1, maturity);
        var i := ImmatureOf(created, owners, |blocks| - 1, maturity);
        if Total(s) <= MAX_MONEY && Total(i) <= MAX_MONEY then Ok(Holdings(s, Total(s), i, Total(i))) else Err(ViewRange)
  }

  lemma {:induction false} ListsMatch(created: Created, u: Utxo, owners: set<Pkh>, taken: set<OutPoint>, tipHeight: int, maturity: int)
    requires Agree(created, u, {})
    ensures SpendableOf(created, owners, taken, tipHeight, maturity) == OwnedSpendable(u, owners, taken, tipHeight, maturity)
    ensures ImmatureOf(created, owners, tipHeight, maturity) == OwnedImmature(u, owners, tipHeight, maturity)
  {
  }

  /** On any validating chain with a sound mempool, the view succeeds exactly when no transaction id repeats on the
      main chain; it is then the owned UTXO entries, mature ones not spent by the mempool and immature coinbases,
      with exact totals. */
  lemma {:induction false} ViewFromChain(env: Env, maturity: int, owners: set<Pkh>, blocks: seq<Block>, pool: seq<Tx>)
    requires blocks != [] && Replay(env, maturity, blocks).Ok?
    requires forall i :: 0 <= i < |pool| ==> TxValid(env, maturity, Replay(env, maturity, blocks).value, pool[i], |blocks|)
    requires forall i, j :: 0 <= i < j < |pool| ==> Disjoint(pool[i], pool[j])
    ensures WalletViewOf(env, maturity, owners, blocks, pool).Ok? <==> NoRepeats(env, blocks)
    ensures NoRepeats(env, blocks) ==>
              var u := Replay(env, maturity, blocks).value;
              var s := OwnedSpendable(u, owners, PoolSpends(pool, |pool|), |blocks| - 1, maturity);
              var i := OwnedImmature(u, owners, |blocks| - 1, maturity);
              WalletViewOf(env, maturity, owners, blocks, pool) == Ok(Holdings(s, Total(s), i, Total(i)))
  {
    hide Replay, ScanChain, NoRepeats, TxValid, Disjoint, Agree, Reserve, Total, SpendableOf, ImmatureOf, MintedBy, PoolSpends;
    var u := Replay(env, maturity, blocks).value;
    ChainScan(env, maturity, owners, blocks);
    if NoRepeats(env, blocks) {
      var created := ScanChain(env, owners, blocks).value;
      var taken := PoolSpends(pool, |pool|);
      ReserveOk(env, maturity, created, u, owners, pool, |pool|, |blocks|);
      ListsMatch(created, u, owners, taken, |blocks| - 1, maturity);
      ReplaySupply(env, maturity, blocks);
      TotalOfPart(OwnedSpendable(u, owners, taken, |blocks| - 1, maturity), u);
      TotalOfPart(OwnedImmature(u, owners, |blocks| - 1, maturity), u);
    }
  }

  /** The listing names every mempool transaction. */
  ghost predicate ListsWhole(s: State, pool: seq<Tx>) {
    forall id :: id in s.mempool ==> s.mempool[id] in pool
  }

  /** A complete listing reserves exactly what the mempool spends. */
  lemma {:induction false} ReservedByMempool(r: Rules, s: State, pool: seq<Tx>, op: OutPoint)
    requires FromMempool(r, s, pool) && ListsWhole(s, pool)
    ensures op in PoolSpends(pool, |pool|)
            <==> exists id, i :: id in s.mempool && 0 <= i < |s.mempool[id].ins| && s.mempool[id].ins[i].prev == op
  {
    if op in PoolSpends(pool, |pool|) {
      var k, i := PoolSpendsOf(pool, |pool|, op);
      var id := r.env.txId(pool[k]);
      assert s.mempool[id].ins[i].prev == op;
    }
    if id, i :| id in s.mempool && 0 <= i < |s.mempool[id].ins| && s.mempool[id].ins[i].prev == op {
      var k :| 0 <= k < |pool| && pool[k] == s.mempool[id];
      PoolSpendsHas(pool, |pool|, k, i);
    }
  }

  lemma {:induction false} PoolSpendsHas(pool: seq<Tx>, n: nat, k: nat, i: nat)
    requires k < n <= |pool| && i < |pool[k].ins|
    ensures pool[k].ins[i].prev in PoolSpends(pool, n)
  {
    if k < n - 1 {
      PoolSpendsHas(pool, n - 1, k, i);
    }
  }

  /** ... hence in every reachable state. */
  lemma {:induction false} ReachableView(r: Rules, s: State, clock: int, owners: set<Pkh>, pool: seq<Tx>)
    requires UsableParams(r.p) && Inv(r, s, clock) && Linked(s.index) && Attached(s.index, s.tip)
    requires FromMempool(r, s, pool)
    ensures var view := WalletViewOf(r.env, r.p.coinbaseMaturity, owners, Blocks(Branch(s.index, s.tip)), pool);
            && (view.Ok? <==> NoRepeats(r.env, Blocks(Branch(s.index, s.tip))))
            && (view.Ok? ==>
                  && view.value.spendable
                     == OwnedSpendable(s.utxo, owners, PoolSpends(pool, |pool|), s.tip.height, r.p.coinbaseMaturity)
                  && view.value.immature == OwnedImmature(s.utxo, owners, s.tip.height, r.p.coinbaseMaturity)
                  && view.value.spendableUnits == Total(view.value.spendable)
                  && view.value.immatureUnits == Total(view.value.immature))
  {
    hide UsableParams, IndexOk, Replay, NoRepeats, TxValid, Disjoint, Total, OwnedSpendable, OwnedImmature, WalletViewOf, Branch, Blocks, PoolSpends;
    var blocks := Blocks(Branch(s.index, s.tip));
    forall i, j | 0 <= i < j < |pool| ensures Disjoint(pool[i], pool[j]) {
      assert r.env.txId(pool[i]) != r.env.txId(pool[j]);
    }
    ViewFromChain(r.env, r.p.coinbaseMaturity, owners, blocks, pool);
  }
}
