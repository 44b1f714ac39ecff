/** Block templates (core/miner.go, `BuildBlockTemplateWithCoinbase`), built from one view of the chain. */
module Template {
  import opened Types
  import opened Bits
  import opened Money
  import opened Ledger
  import opened Supply
  import opened Compact
  import opened Params
  import opened Difficulty
  import opened Consensus
  import opened Invariant
  import opened Reachable
  import opened Varint
  import opened Wire

  /** A caller-supplied coinbase layout; `None` models a builder that gives up. */
  type Builder = (nat, int) -> Option<Tx>

  // ---- the coinbase check ----

  predicate CoinbaseShape(cb: Tx, height: nat, reward: int) {
    && cb.IsCoinbase()
    && 0 < reward <= MAX_MONEY
    && cb.ins[0].pubKey == PutUvarint(height) && cb.ins[0].sig == []
    && |cb.outs| > 0 && |cb.lockTag| <= 256
    && GoodOutputs(cb.outs, |cb.outs|)
    && OutSum(cb.outs, |cb.outs|) == reward
  }

  /** `validateTemplateCoinbase`. */
  method ValidateTemplateCoinbase(candidate: Option<Tx>, height: nat, reward: int) returns (ok: bool)
    ensures ok <==> candidate.Some? && CoinbaseShape(candidate.value, height, reward)
  {
    if candidate.None? || !candidate.value.IsCoinbase() {
      return false;
    }
    var cb := candidate.value;
    if reward <= 0 || !MoneyRange(reward) {
      return false;
    }
    if cb.ins[0].pubKey != PutUvarint(height) || |cb.ins[0].sig| != 0 {
      return false;
    }
    if |cb.outs| == 0 || |cb.lockTag| > 256 {
      return false;
    }
    var total := 0;
    var i := 0;
    while i < |cb.outs|
      invariant 0 <= i <= |cb.outs|
      invariant GoodOutputs(cb.outs, i) && total == OutSum(cb.outs, i) && total >= 0
    {
      if cb.outs[i].value <= 0 || !MoneyRange(cb.outs[i].value) {
        return false;
      }
      match CheckedAdd(total, cb.outs[i].value)
      case None =>
        OutSumGrows(cb.outs, i + 1, |cb.outs|);
        return false;
      case Some(sum) => total := sum;
      i := i + 1;
    }
    ok := total == reward;
  }

  lemma {:induction false} OutSumGrows(outs: seq<TxOut>, k: nat, n: nat)
    requires k <= n <= |outs|
    ensures GoodOutputs(outs, n) ==> OutSum(outs, k) <= OutSum(outs, n)
    ensures (forall i :: 0 <= i < n ==> 1 <= outs[i].value <= MAX_MONEY) ==> OutSum(outs, k) <= OutSum(outs, n)
  {
    if k < n {
      OutSumGrows(outs, k, n - 1);
    }
  }

  // ---- sizes ----

  /** A length-prefixed transaction inside a block. */
  function EncodedTxSize(size: nat): nat {
    |PutUvarint(size)| + size
  }

  function TxsSize(txs: seq<Tx>): nat {
    if txs == [] then 0 else TxsSize(txs[..|txs| - 1]) + EncodedTxSize(|TxBytes(txs[|txs| - 1])|)
  }

  lemma {:induction false} TxsBytesAppend(txs: seq<Tx>, t: Tx)
    ensures |TxsBytes(txs + [t])| == |TxsBytes(txs)| + EncodedTxSize(|TxBytes(t)|)
  {
    hide TxBytes;
    if txs == [] {
      assert txs + [t] == [t];
      assert [t][1..] == [];
    } else {
      assert (txs + [t])[1..] == txs[1..] + [t];
      TxsBytesAppend(txs[1..], t);
    }
  }

  /** The running total is the true encoded length. */
  lemma {:induction false} TxsSizeIsLength(txs: seq<Tx>)
    ensures TxsSize(txs) == |TxsBytes(txs)|
  {
    hide TxBytes;
    if txs != [] {
      var init := txs[..|txs| - 1];
      TxsSizeIsLength(init);
      TxsBytesAppend(init, txs[|txs| - 1]);
      assert txs == init + [txs[|txs| - 1]];
    }
  }

  function BlockSize(txs: seq<Tx>): nat {
    88 + |PutUvarint(|txs|)| + TxsSize(txs)
  }

  lemma {:induction false} BlockSizeIsLength(b: Block)
    ensures BlockSize(b.txs) == |BlockBytes(b)|
  {
    hide TxBytes, TxsBytes, HeaderBytes, PutUvarint;
    TxsSizeIsLength(b.txs);
  }

  lemma {:induction false} TxsSizeAppend(txs: seq<Tx>, t: Tx)
    ensures TxsSize(txs + [t]) == TxsSize(txs) + EncodedTxSize(|TxBytes(t)|)
  {
    hide TxBytes;
    assert (txs + [t])[..|txs|] == txs;
  }

  lemma {:induction false} SizeWithOneMore(txs: seq<Tx>, t: Tx)
    ensures BlockSize(txs + [t]) == 88 + |PutUvarint(|txs| + 1)| + (TxsSize(txs) + EncodedTxSize(|TxBytes(t)|))
    ensures TxsSize(txs + [t]) == TxsSize(txs) + EncodedTxSize(|TxBytes(t)|)
  {
    hide TxBytes, TxsSize, PutUvarint;
    TxsSizeAppend(txs, t);
  }

  lemma {:induction false} SizeOfOne(t: Tx)
    ensures TxsSize([t]) == EncodedTxSize(|TxBytes(t)|)
  {
    hide TxBytes, PutUvarint;
    assert [t][..0] == [];
  }

  lemma {:induction false} TxsSizeReplaceFirst(txs: seq<Tx>, a: Tx, b: Tx)
    requires |TxBytes(a)| == |TxBytes(b)|
    ensures TxsSize([a] + txs) == TxsSize([b] + txs)
  {
    hide TxBytes;
    if txs == [] {
      assert [a] + txs == [a] && [b] + txs == [b];
      assert [a][..0] == [] && [b][..0] == [];
    } else {
      var init, last := txs[..|txs| - 1], txs[|txs| - 1];
      assert [a] + txs == ([a] + init) + [last] && [b] + txs == ([b] + init) + [last];
      TxsSizeReplaceFirst(init, a, b);
      TxsSizeAppend([a] + init, last);
      TxsSizeAppend([b] + init, last);
    }
  }

  // ---- spending several mempool transactions in one block ----

  /** Transactions of the mempool, each at most once. */
  ghost predicate FromMempool(r: Rules, s: State, txs: seq<Tx>) {
    && (forall i :: 0 <= i < |txs| ==> r.env.txId(txs[i]) in s.mempool && s.mempool[r.env.txId(txs[i])] == txs[i])
    && DistinctIds(r.env, txs)
  }

  /** No unspent output carries the id of a mempool transaction: transaction ids do not repeat. */
  ghost predicate FreshIds(r: Rules, s: State) {
    forall id, op :: id in s.mempool && op in s.utxo ==> op.txId != id
  }

  /** `v` still holds everything of `u` that has not been spent. */
  ghost predicate Keeps(u: Utxo, v: Utxo, spent: set<OutPoint>) {
    forall op :: op in u && op !in spent ==> op in v && v[op] == u[op]
  }

  lemma {:induction false} AgreeingSums(u: Utxo, v: Utxo, ins: seq<TxIn>, n: nat)
    requires n <= |ins|
    requires forall i :: 0 <= i < n ==> ins[i].prev in u && ins[i].prev in v && v[ins[i].prev] == u[ins[i].prev]
    ensures SpendSum(v, ins, n) == SpendSum(u, ins, n)
  {
    if n > 0 {
      AgreeingSums(u, v, ins, n - 1);
    }
  }

  /** A transaction stays valid, with the same fee, while its own inputs are untouched. */
  lemma {:induction false} ValidWhereItAgrees(env: Env, maturity: int, u: Utxo, v: Utxo, tx: Tx, height: int)
    requires TxValid(env, maturity, u, tx, height)
    requires forall i :: 0 <= i < |tx.ins| ==> tx.ins[i].prev in v && tx.ins[i].prev in u && v[tx.ins[i].prev] == u[tx.ins[i].prev]
    ensures TxValid(env, maturity, v, tx, height) && Fee(v, tx) == Fee(u, tx)
  {
    hide GoodOutputs;
    AgreeingSums(u, v, tx.ins, |tx.ins|);
    forall i | 0 <= i < |tx.ins| ensures SpendableBy(env, maturity, v, tx, i, height) {
      assert SpendableBy(env, maturity, u, tx, i, height);
    }
  }

  lemma {:induction false} AddOutputsOnly(u: Utxo, id: Hash, outs: seq<TxOut>, n: nat, height: int, coinbase: bool)
    requires n <= |outs|
    ensures forall op: OutPoint :: op.txId != id ==>
              (op in AddOutputs(u, id, outs, n, height, coinbase) <==> op in u)
    ensures forall op: OutPoint :: op.txId != id && op in u ==> AddOutputs(u, id, outs, n, height, coinbase)[op] == u[op]
  {
    if n > 0 {
      AddOutputsOnly(u, id, outs, n - 1, height, coinbase);
    }
  }

  lemma {:induction false} SpendKeeps(env: Env, u: Utxo, v: Utxo, spent: set<OutPoint>, tx: Tx, height: int)
    requires Keeps(u, v, spent) && (forall op :: op in u ==> op.txId != env.txId(tx))
    ensures Keeps(u, SpendAndCreate(env, v, tx, height, false), spent + Prevs(tx.ins, |tx.ins|))
  {
    RemovedValues(v, tx.ins, |tx.ins|);
    AddOutputsOnly(RemoveInputs(v, tx.ins, |tx.ins|), env.txId(tx), tx.outs, |tx.outs|, height, false);
  }

  lemma {:induction false} SpendSumConcat(u: Utxo, a: seq<TxIn>, b: seq<TxIn>, n: nat)
    requires n <= |b|
    ensures SpendSum(u, a + b, |a| + n) == SpendSum(u, a, |a|) + SpendSum(u, b, n)
  {
    if n == 0 {
      SpendSumPrefix(u, a, a + b, |a|);
    } else {
      SpendSumConcat(u, a, b, n - 1);
    }
  }

  lemma {:induction false} SpendSumPrefix(u: Utxo, a: seq<TxIn>, b: seq<TxIn>, n: nat)
    requires n <= |a| && n <= |b| && (forall i :: 0 <= i < n ==> a[i] == b[i])
    ensures SpendSum(u, a, n) == SpendSum(u, b, n)
  {
    if n > 0 {
      SpendSumPrefix(u, a, b, n - 1);
    }
  }

  /** Total fee of the non-coinbase transactions before position `n`, on one and the same set. */
  ghost function FeeSum(u: Utxo, txs: seq<Tx>, n: nat): int
    requires n <= |txs|
  {
    if n <= 1 then 0 else FeeSum(u, txs, n - 1) + Fee(u, txs[n - 1])
  }

  /** What a block of compatible transactions looks like before any of it is applied. */
  ghost predicate Compatible(env: Env, maturity: int, u: Utxo, txs: seq<Tx>, height: int) {
    && (forall i :: 0 < i < |txs| ==> TxValid(env, maturity, u, txs[i], height))
    && DistinctPrevs(SpentIns(txs, |txs|), |SpentIns(txs, |txs|)|)
    && (forall i, op :: 0 < i < |txs| && op in u ==> op.txId != env.txId(txs[i]))
  }

  lemma {:induction false} SpentInsStep(txs: seq<Tx>, n: nat)
    requires 1 < n <= |txs|
    ensures Prevs(SpentIns(txs, n), |SpentIns(txs, n)|)
         == Prevs(SpentIns(txs, n - 1), |SpentIns(txs, n - 1)|) + Prevs(txs[n - 1].ins, |txs[n - 1].ins|)
  {
    var a, b, c := SpentIns(txs, n - 1), txs[n - 1].ins, SpentIns(txs, n);
    assert c == a + b;
    forall op | op in Prevs(c, |c|) ensures op in Prevs(a, |a|) + Prevs(b, |b|) {
      var i :| 0 <= i < |c| && c[i].prev == op;
      if i >= |a| {
        assert b[i - |a|].prev == op;
      } else {
        assert a[i].prev == op;
      }
    }
    forall op | op in Prevs(a, |a|) + Prevs(b, |b|) ensures op in Prevs(c, |c|) {
      if op in Prevs(a, |a|) {
        var i :| 0 <= i < |a| && a[i].prev == op;
        assert c[i].prev == op;
      } else {
        var i :| 0 <= i < |b| && b[i].prev == op;
        assert c[|a| + i].prev == op;
      }
    }
  }

  lemma {:induction false} SpentInsSucc(txs: seq<Tx>, n: nat)
    requires 1 <= n < |txs|
    ensures SpentIns(txs, n + 1) == SpentIns(txs, n) + txs[n].ins
  {
  }

  lemma {:induction false} LaterInputsUnspent(txs: seq<Tx>, n: nat, i: nat)
    requires 1 <= n < |txs| && DistinctPrevs(SpentIns(txs, |txs|), |SpentIns(txs, |txs|)|)
    requires i < |txs[n].ins|
    ensures txs[n].ins[i].prev !in Prevs(SpentIns(txs, n), |SpentIns(txs, n)|)
  {
    hide SpentIns;
    PrefixOfAll(txs, n + 1, |txs|);
    SpentInsSucc(txs, n);
    DistinctTail(SpentIns(txs, |txs|), SpentIns(txs, n), txs[n].ins, i);
  }

  lemma {:induction false} DistinctTail(all: seq<TxIn>, before: seq<TxIn>, next: seq<TxIn>, i: nat)
    requires DistinctPrevs(all, |all|) && |before| + |next| <= |all| && i < |next|
    requires forall k :: 0 <= k < |before + next| ==> all[k] == (before + next)[k]
    ensures next[i].prev !in Prevs(before, |before|)
  {
    assert (before + next)[|before| + i] == next[i];
    forall j | 0 <= j < |before| ensures before[j].prev != next[i].prev {
      assert (before + next)[j] == before[j];
      assert all[j].prev != all[|before| + i].prev;
    }
  }

  lemma {:induction false} PrefixOfAll(txs: seq<Tx>, i: nat, n: nat)
    requires i <= n <= |txs|
    ensures |SpentIns(txs, i)| <= |SpentIns(txs, n)|
    ensures forall k :: 0 <= k < |SpentIns(txs, i)| ==> SpentIns(txs, n)[k] == SpentIns(txs, i)[k]
  {
    if i < n {
      PrefixOfAll(txs, i, n - 1);
    }
  }

  /** Compatible transactions can be applied one after another: none disturbs the next. */
  lemma {:induction false} CompatibleApplies(env: Env, maturity: int, u: Utxo, txs: seq<Tx>, n: nat, height: int)
    requires 1 <= n <= |txs| && Positive(u) && Total(u) <= MAX_MONEY && Compatible(env, maturity, u, txs, height)
    ensures var res := ApplyTxs(env, maturity, u, txs, n, height);
            && res.Ok? && res.value.fees == FeeSum(u, txs, n)
            && Keeps(u, res.value.utxo, Prevs(SpentIns(txs, n), |SpentIns(txs, n)|))
  {
    hide TxValid, CheckTx, SpendAndCreate, Fee, Positive, Total, Prevs, DistinctPrevs;
    if n > 1 {
      CompatibleApplies(env, maturity, u, txs, n - 1, height);
      var sofar := ApplyTxs(env, maturity, u, txs, n - 1, height).value;
      var tx := txs[n - 1];
      InputsStillThere(env, maturity, u, sofar.utxo, txs, n - 1, height);
      ValidWhereItAgrees(env, maturity, u, sofar.utxo, tx, height);
      CheckTxIff(env, maturity, sofar.utxo, tx, height);
      NoTxsRangeError(env, maturity, u, txs, n, height);
      SpendKeeps(env, u, sofar.utxo, Prevs(SpentIns(txs, n - 1), |SpentIns(txs, n - 1)|), tx, height);
      SpentInsStep(txs, n);
    }
  }

  lemma {:induction false} InputsStillThere(env: Env, maturity: int, u: Utxo, v: Utxo, txs: seq<Tx>, n: nat, height: int)
    requires 1 <= n < |txs| && Compatible(env, maturity, u, txs, height)
    requires Keeps(u, v, Prevs(SpentIns(txs, n), |SpentIns(txs, n)|))
    ensures forall i :: 0 <= i < |txs[n].ins| ==>
              txs[n].ins[i].prev in u && txs[n].ins[i].prev in v && v[txs[n].ins[i].prev] == u[txs[n].ins[i].prev]
  {
    hide Prevs, DistinctPrevs;
    forall i | 0 <= i < |txs[n].ins|
      ensures txs[n].ins[i].prev in u && txs[n].ins[i].prev in v && v[txs[n].ins[i].prev] == u[txs[n].ins[i].prev]
    {
      assert TxValid(env, maturity, u, txs[n], height);
      assert SpendableBy(env, maturity, u, txs[n], i, height);
      LaterInputsUnspent(txs, n, i);
    }
  }

  // ---- selecting transactions ----

  datatype Picked = Picked(txs: seq<Tx>, fees: int, full: bool)

  /** What the template's inputs are, read from one view of the chain. */
  datatype View = View(env: Env, maturity: int, utxo: Utxo, tipId: Hash, height: nat, bits: U32)

  /** Selection after looking at the first `n` mempool transactions: stop at the first that does not fit,
      skip any that fails its recheck or would push a total out of range. */
  function Pick(v: View, preliminary: Tx, pool: seq<Tx>, n: nat): (p: Picked)
    requires n <= |pool|
    ensures |p.txs| > 0
  {
    if n == 0 then Picked([preliminary], 0, false)
    else
      var p := Pick(v, preliminary, pool, n - 1);
      var t := pool[n - 1];
      if p.full then p
      else if BlockSize(p.txs + [t]) > MAX_BLOCK_BYTES then p.(full := true)
      else
        match CheckTx(v.env, v.maturity, v.utxo, t, v.height)
        case Err(_) => p
        case Ok(fee) =>
          match CheckedAdd(p.fees, fee)
          case None => p
          case Some(fees) =>
            if CheckedAdd(SubsidyAt(v.height), fees).None? then p
            else Picked(p.txs + [t], fees, false)
  }

  /** The template, or `None` for any of the builder's failures. */
  function Assemble(v: View, pool: seq<Tx>, build: Builder, now: I64): Option<Block> {
    var subsidy := SubsidyAt(v.height);
    var preliminary := build(v.height, subsidy);
    if preliminary.None? || !CoinbaseShape(preliminary.value, v.height, subsidy) then None
    else
      var p := Pick(v, preliminary.value, pool, |pool|);
      match CheckedAdd(subsidy, p.fees)
      case None => None
      case Some(reward) =>
        var coinbase := build(v.height, reward);
        if coinbase.None? || !CoinbaseShape(coinbase.value, v.height, reward) then None
        else if |TxBytes(coinbase.value)| != |TxBytes(preliminary.value)| then None
        else
          var txs := [coinbase.value] + p.txs[1..];
          var header := Header(1, v.tipId, TxRoot(v.env, txs), now, v.bits, 0);
          if BlockSize(txs) > MAX_BLOCK_BYTES then None else Some(Block(header, txs))
  }

  /** The selection loop, with its running byte and fee totals. */
  method SelectTxs(v: View, preliminary: Tx, pool: seq<Tx>) returns (txs: seq<Tx>, fees: int)
    ensures var p := Pick(v, preliminary, pool, |pool|); txs == p.txs && fees == p.fees
  {
    hide CheckTx, TxBytes, SubsidyAt, TxsSize, BlockSize, PutUvarint, EncodedTxSize;
    txs := [preliminary];
    var encoded := EncodedTxSize(|TxBytes(preliminary)|);
    SizeOfOne(preliminary);
    fees := 0;
    var i := 0;
    while i < |pool|
      invariant 0 <= i <= |pool| && |txs| > 0
      invariant Pick(v, preliminary, pool, i) == Picked(txs, fees, false)
      invariant encoded == TxsSize(txs)
    {
      var t := pool[i];
      var nextEncoded := encoded + EncodedTxSize(|TxBytes(t)|);
      var nextSize := 88 + |PutUvarint(|txs| + 1)| + nextEncoded;
      SizeWithOneMore(txs, t);
      if nextSize > MAX_BLOCK_BYTES {
        FullStays(v, preliminary, pool, i + 1, |pool|);
        return;
      }
      var checked := CheckTx(v.env, v.maturity, v.utxo, t, v.height);
      if checked.Ok? {
        var nextFees := CheckedAdd(fees, checked.value);
        if nextFees.Some? && CheckedAdd(SubsidyAt(v.height), nextFees.value).Some? {
          fees := nextFees.value;
          txs := txs + [t];
          encoded := nextEncoded;
        }
      }
      i := i + 1;
    }
  }

  /** `BuildBlockTemplateWithCoinbase` over a fixed view. */
  method BuildTemplate(v: View, pool: seq<Tx>, build: Builder, now: I64) returns (res: Option<Block>)
    ensures res == Assemble(v, pool, build, now)
  {
    hide CheckTx, CoinbaseShape, TxBytes, SubsidyAt, TxRoot, Pick, BlockSize;
    var subsidy := SubsidyAt(v.height);
    var preliminary := build(v.height, subsidy);
    var ok := ValidateTemplateCoinbase(preliminary, v.height, subsidy);
    if !ok {
      return None;
    }
    var txs, fees := SelectTxs(v, preliminary.value, pool);
    var reward := CheckedAdd(subsidy, fees);
    if reward.None? {
      return None;
    }
    var coinbase := build(v.height, reward.value);
    ok := ValidateTemplateCoinbase(coinbase, v.height, reward.value);
    if !ok {
      return None;
    }
    if |TxBytes(coinbase.value)| != |TxBytes(preliminary.value)| {
      return None;
    }
    assert txs[0 := coinbase.value] == [coinbase.value] + txs[1..];
    txs := txs[0 := coinbase.value];
    var b := Block(Header(1, v.tipId, TxRoot(v.env, txs), now, v.bits, 0), txs);
    BlockSizeIsLength(b);
    if |BlockBytes(b)| > MAX_BLOCK_BYTES {
      return None;
    }
    res := Some(b);
  }

  lemma {:induction false} FullStays(v: View, preliminary: Tx, pool: seq<Tx>, k: nat, n: nat)
    requires k <= n <= |pool| && Pick(v, preliminary, pool, k).full
    ensures Pick(v, preliminary, pool, n) == Pick(v, preliminary, pool, k)
  {
    hide CheckTx, BlockSize;
    if k < n {
      FullStays(v, preliminary, pool, k, n - 1);
    }
  }
}
