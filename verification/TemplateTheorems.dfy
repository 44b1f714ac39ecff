/** A template built on a reachable state is a block the chain accepts. */
module TemplateTheorems {
  import opened Types
  import opened Money
  import opened Ledger
  import opened Supply
  import opened Compact
  import opened Params
  import opened Difficulty
  import opened MedianTime
  import opened Consensus
  import opened Invariant
  import opened Reachable
  import opened Varint
  import opened Wire
  import opened Template

  ghost function ViewOf(r: Rules, s: State): View
    requires UsableParams(r.p) && Linked(s.index) && Attached(s.index, s.tip)
  {
    View(r.env, r.p.coinbaseMaturity, s.utxo, s.tip.id, s.tip.height + 1,
         BranchBits(r.p, Headers(Branch(s.index, s.tip))))
  }

  // ---- transactions that do not compete ----

  ghost predicate Solo(tx: Tx) {
    DistinctPrevs(tx.ins, |tx.ins|)
  }

  ghost predicate NonCompeting(txs: seq<Tx>) {
    && (forall i :: 0 < i < |txs| ==> Solo(txs[i]))
    && (forall i, j :: 0 < i < j < |txs| ==> Disjoint(txs[i], txs[j]))
  }

  lemma {:induction false} ConcatDistinct(a: seq<TxIn>, b: seq<TxIn>)
    requires DistinctPrevs(a, |a|) && DistinctPrevs(b, |b|)
    requires forall i, j :: 0 <= i < |a| && 0 <= j < |b| ==> a[i].prev != b[j].prev
    ensures DistinctPrevs(a + b, |a + b|)
  {
    var c := a + b;
    forall i, j | 0 <= i < j < |c| ensures c[i].prev != c[j].prev {
      if j < |a| {
        assert c[i] == a[i] && c[j] == a[j];
      } else if i < |a| {
        assert c[i] == a[i] && c[j] == b[j - |a|];
      } else {
        assert c[i] == b[i - |a|] && c[j] == b[j - |a|];
      }
    }
  }

  lemma {:induction false} SpentInsFrom(txs: seq<Tx>, n: nat, k: nat) returns (t: nat, i: nat)
    requires n <= |txs| && k < |SpentIns(txs, n)|
    ensures 0 < t < n && i < |txs[t].ins| && SpentIns(txs, n)[k] == txs[t].ins[i]
  {
    var before := SpentIns(txs, n - 1);
    if k < |before| {
      t, i := SpentInsFrom(txs, n - 1, k);
    } else {
      t, i := n - 1, k - |before|;
    }
  }

  /** Inputs of transactions that do not compete are distinct across the block. */
  lemma {:induction false} NonCompetingDistinct(txs: seq<Tx>, n: nat)
    requires n <= |txs| && NonCompeting(txs)
    ensures DistinctPrevs(SpentIns(txs, n), |SpentIns(txs, n)|)
  {
    hide DistinctPrevs, Disjoint;
    if n <= 1 {
      NoInputsDistinct();
    } else {
      NonCompetingDistinct(txs, n - 1);
      var a, b := SpentIns(txs, n - 1), txs[n - 1].ins;
      forall k, j | 0 <= k < |a| && 0 <= j < |b| ensures a[k].prev != b[j].prev {
        var t, i := SpentInsFrom(txs, n - 1, k);
        DisjointAt(txs[t], txs[n - 1], i, j);
      }
      ConcatDistinct(a, b);
    }
  }

  lemma {:induction false} NoInputsDistinct()
    ensures DistinctPrevs([], 0)
  {
  }

  lemma {:induction false} DisjointAt(a: Tx, b: Tx, i: nat, j: nat)
    requires Disjoint(a, b) && i < |a.ins| && j < |b.ins|
    ensures a.ins[i].prev != b.ins[j].prev
  {
  }

  lemma {:induction false} MempoolNonCompeting(r: Rules, s: State, cb: Tx, pool: seq<Tx>)
    requires MempoolOk(r, s) && FromMempool(r, s, pool)
    ensures NonCompeting([cb] + pool)
    ensures forall i :: 0 <= i < |pool| ==>
              && TxValid(r.env, r.p.coinbaseMaturity, s.utxo, pool[i], s.tip.height + 1)
              && !pool[i].IsCoinbase()
  {
    hide Disjoint;
    var txs := [cb] + pool;
    forall i | 0 < i < |txs| ensures Solo(txs[i]) {
      assert txs[i] == pool[i - 1];
    }
    forall i, j | 0 < i < j < |txs| ensures Disjoint(txs[i], txs[j]) {
      assert txs[i] == pool[i - 1] && txs[j] == pool[j - 1];
    }
  }

  // ---- fees are bounded by the supply ----

  lemma {:induction false} FeesWithinSpent(env: Env, maturity: int, u: Utxo, txs: seq<Tx>, n: nat, height: int)
    requires n <= |txs| && (forall i :: 0 < i < |txs| ==> TxValid(env, maturity, u, txs[i], height))
    ensures 0 <= FeeSum(u, txs, n) <= SpendSum(u, SpentIns(txs, n), |SpentIns(txs, n)|)
  {
    hide TxValid;
    if n > 1 {
      FeesWithinSpent(env, maturity, u, txs, n - 1, height);
      SpendSumConcat(u, SpentIns(txs, n - 1), txs[n - 1].ins, |txs[n - 1].ins|);
      FeeBounds(env, maturity, u, txs[n - 1], height);
    }
  }

  lemma {:induction false} FeeBounds(env: Env, maturity: int, u: Utxo, tx: Tx, height: int)
    requires TxValid(env, maturity, u, tx, height)
    ensures 0 <= Fee(u, tx) <= SpendSum(u, tx.ins, |tx.ins|)
  {
    CheckOutputsIff(tx.outs, |tx.outs|);
  }

  lemma {:induction false} FeesWithinTotal(env: Env, maturity: int, u: Utxo, txs: seq<Tx>, n: nat, height: int)
    requires n <= |txs| && NonCompeting(txs) && Positive(u)
    requires forall i :: 0 < i < |txs| ==> TxValid(env, maturity, u, txs[i], height)
    ensures 0 <= FeeSum(u, txs, n) <= Total(u)
  {
    hide TxValid, Total, NonCompeting, DistinctPrevs;
    FeesWithinSpent(env, maturity, u, txs, n, height);
    NonCompetingDistinct(txs, n);
    var ins := SpentIns(txs, n);
    forall k | 0 <= k < |ins| ensures ins[k].prev in u {
      var t, i := SpentInsFrom(txs, n, k);
      ValidInputPresent(env, maturity, u, txs[t], i, height);
    }
    RemoveInputsTotal(u, ins, |ins|);
    RemovedValues(u, ins, |ins|);
    TotalNonneg(RemoveInputs(u, ins, |ins|));
  }

  lemma {:induction false} ValidInputPresent(env: Env, maturity: int, u: Utxo, tx: Tx, i: nat, height: int)
    requires TxValid(env, maturity, u, tx, height) && i < |tx.ins|
    ensures tx.ins[i].prev in u
  {
    assert SpendableBy(env, maturity, u, tx, i, height);
  }

  // ---- the selection ----

  lemma {:induction false} FeeSumPrefix(u: Utxo, a: seq<Tx>, b: seq<Tx>, n: nat)
    requires n <= |a| && n <= |b| && (forall i :: 0 <= i < n ==> a[i] == b[i])
    ensures FeeSum(u, a, n) == FeeSum(u, b, n)
  {
    hide Fee;
    if n > 1 {
      FeeSumPrefix(u, a, b, n - 1);
    }
  }

  /** What a good state guarantees about any listing of its mempool. */
  ghost predicate GoodPool(v: View, cb: Tx, pool: seq<Tx>) {
    && NonCompeting([cb] + pool)
    && (forall i :: 0 <= i < |pool| ==> TxValid(v.env, v.maturity, v.utxo, pool[i], v.height))
    && Positive(v.utxo) && Total(v.utxo) <= MintedBy(v.height)
  }

  lemma {:induction false} NextFits(v: View, cb: Tx, pool: seq<Tx>, k: nat)
    requires GoodPool(v, cb, pool) && k < |pool|
    ensures var fees := FeeSum(v.utxo, [cb] + pool, k + 1);
            && CheckTx(v.env, v.maturity, v.utxo, pool[k], v.height) == Ok(Fee(v.utxo, pool[k]))
            && CheckedAdd(fees, Fee(v.utxo, pool[k])) == Some(FeeSum(v.utxo, [cb] + pool, k + 2))
            && CheckedAdd(SubsidyAt(v.height), FeeSum(v.utxo, [cb] + pool, k + 2)).Some?
  {
    hide TxValid, CheckTx, Fee, NonCompeting, Positive, Total, SubsidyAt, MintedBy;
    var txs := [cb] + pool;
    forall i | 0 < i < |txs| ensures TxValid(v.env, v.maturity, v.utxo, txs[i], v.height) {
      assert txs[i] == pool[i - 1];
    }
    CheckTxIff(v.env, v.maturity, v.utxo, pool[k], v.height);
    FeeBounds(v.env, v.maturity, v.utxo, pool[k], v.height);
    FeesWithinTotal(v.env, v.maturity, v.utxo, txs, k + 1, v.height);
    FeesWithinTotal(v.env, v.maturity, v.utxo, txs, k + 2, v.height);
    assert txs[k + 1] == pool[k];
    MintedWithinCap(v.height);
    AllowedFits(v.height, FeeSum(v.utxo, txs, k + 2));
  }

  /** On a good state nothing is skipped: the selection is the longest prefix that fits. */
  lemma {:induction false} PickIsPrefix(v: View, cb: Tx, pool: seq<Tx>, n: nat) returns (k: nat)
    requires GoodPool(v, cb, pool) && n <= |pool|
    ensures k <= n
    ensures Pick(v, cb, pool, n).txs == [cb] + pool[..k]
    ensures Pick(v, cb, pool, n).fees == FeeSum(v.utxo, [cb] + pool, k + 1)
    ensures if Pick(v, cb, pool, n).full then k < n && BlockSize([cb] + pool[..k + 1]) > MAX_BLOCK_BYTES else k == n
    ensures k > 0 ==> BlockSize([cb] + pool[..k]) <= MAX_BLOCK_BYTES
  {
    hide CheckTx, BlockSize, Fee, GoodPool, SubsidyAt, CheckedAdd;
    if n == 0 {
      k := 0;
      assert [cb] + pool[..0] == [cb];
    } else {
      k := PickIsPrefix(v, cb, pool, n - 1);
      var p := Pick(v, cb, pool, n - 1);
      if !p.full {
        assert p.txs + [pool[n - 1]] == [cb] + pool[..n];
        if BlockSize(p.txs + [pool[n - 1]]) <= MAX_BLOCK_BYTES {
          NextFits(v, cb, pool, n - 1);
          k := n;
        }
      }
    }
  }

  // ---- the assembled block ----

  lemma {:induction false} GoodPoolOf(r: Rules, s: State, clock: int, cb: Tx, pool: seq<Tx>)
    requires UsableParams(r.p) && Inv(r, s, clock) && Linked(s.index) && Attached(s.index, s.tip)
    requires FromMempool(r, s, pool)
    ensures GoodPool(ViewOf(r, s), cb, pool)
  {
    hide UsableParams, IndexOk, MempoolOk, FromMempool, TxValid, NonCompeting, Total, Positive, BranchBits, Replay, MintedBy;
    MempoolNonCompeting(r, s, cb, pool);
    ReplaySupply(r.env, r.p.coinbaseMaturity, Blocks(Branch(s.index, s.tip)));
  }

  lemma {:induction false} PrefixNonCompeting(cb: Tx, pool: seq<Tx>, cb': Tx, k: nat)
    requires NonCompeting([cb] + pool) && k <= |pool|
    ensures NonCompeting([cb'] + pool[..k])
  {
    hide Disjoint, Solo;
    var a, b := [cb] + pool, [cb'] + pool[..k];
    assert forall i :: 0 < i < |b| ==> b[i] == a[i];
  }

  lemma {:induction false} TemplateIds(r: Rules, s: State, cb: Tx, pool: seq<Tx>, k: nat)
    requires FromMempool(r, s, pool) && k <= |pool| && r.env.txId(cb) !in s.mempool
    ensures DistinctIds(r.env, [cb] + pool[..k])
  {
    var txs := [cb] + pool[..k];
    forall i, j | 0 <= i < j < |txs| ensures r.env.txId(txs[i]) != r.env.txId(txs[j]) {
      assert txs[j] == pool[j - 1] && r.env.txId(pool[j - 1]) in s.mempool;
      if i > 0 {
        assert txs[i] == pool[i - 1];
      }
    }
  }

  lemma {:induction false} ValidShape(env: Env, maturity: int, u: Utxo, tx: Tx, height: int)
    requires TxValid(env, maturity, u, tx, height)
    ensures |tx.ins| > 0 && |tx.outs| > 0 && GoodOutputs(tx.outs, |tx.outs|)
  {
    hide GoodOutputs, InputsOk, OutSum, SpendSum;
  }

  /** A coinbase of the right shape plus a prefix of the mempool listing is a sane block. */
  lemma {:induction false} TemplateSane(r: Rules, s: State, cb: Tx, pool: seq<Tx>, k: nat, reward: int)
    requires MempoolOk(r, s) && FromMempool(r, s, pool) && k <= |pool|
    requires CoinbaseShape(cb, s.tip.height + 1, reward) && r.env.txId(cb) !in s.mempool
    ensures SaneTxs(r.env, [cb] + pool[..k])
  {
    hide GoodOutputs, NonCompeting, DistinctPrevs, OutSum, PutUvarint, MempoolOk, FromMempool, DistinctIds, TxValid, SpentIns;
    var txs := [cb] + pool[..k];
    MempoolNonCompeting(r, s, cb, pool);
    PrefixNonCompeting(cb, pool, cb, k);
    NonCompetingDistinct(txs, |txs|);
    TemplateIds(r, s, cb, pool, k);
    assert forall i :: 0 < i < |txs| ==> txs[i] == pool[i - 1];
    forall i | 0 <= i < |txs| ensures |txs[i].ins| > 0 && |txs[i].outs| > 0 && GoodOutputs(txs[i].outs, |txs[i].outs|) {
      if i > 0 {
        ValidShape(r.env, r.p.coinbaseMaturity, s.utxo, pool[i - 1], s.tip.height + 1);
      }
    }
  }

  lemma {:induction false} PrefixCompatible(r: Rules, s: State, cb: Tx, pool: seq<Tx>, k: nat)
    requires MempoolOk(r, s) && FromMempool(r, s, pool) && FreshIds(r, s) && k <= |pool|
    ensures Compatible(r.env, r.p.coinbaseMaturity, s.utxo, [cb] + pool[..k], s.tip.height + 1)
  {
    hide TxValid, NonCompeting, DistinctPrevs;
    var txs := [cb] + pool[..k];
    MempoolNonCompeting(r, s, cb, pool);
    PrefixNonCompeting(cb, pool, cb, k);
    NonCompetingDistinct(txs, |txs|);
    assert forall i :: 0 < i < |txs| ==> txs[i] == pool[i - 1];
  }

  /** ... and its economics check out against the live set. */
  lemma {:induction false} TemplateApplies(r: Rules, s: State, cb: Tx, pool: seq<Tx>, k: nat, b: Block)
    requires MempoolOk(r, s) && FromMempool(r, s, pool) && FreshIds(r, s) && k <= |pool|
    requires GoodPool(View(r.env, r.p.coinbaseMaturity, s.utxo, s.tip.id, s.tip.height + 1, 0), cb, pool)
    requires b.txs == [cb] + pool[..k]
    requires CoinbaseShape(cb, s.tip.height + 1, SubsidyAt(s.tip.height + 1) + FeeSum(s.utxo, b.txs, |b.txs|))
    ensures ApplyBlock(r.env, r.p.coinbaseMaturity, s.utxo, b, s.tip.height + 1).Ok?
  {
    hide MempoolOk, FromMempool, FreshIds, Compatible, SubsidyAt, SpendAndCreate, NonCompeting, Prevs, Keeps, MintedBy;
    var height := s.tip.height + 1;
    PrefixCompatible(r, s, cb, pool, k);
    MintedWithinCap(height);
    CompatibleApplies(r.env, r.p.coinbaseMaturity, s.utxo, b.txs, |b.txs|, height);
    CheckOutputsIff(cb.outs, |cb.outs|);
    ApplyTxsTotal(r.env, r.p.coinbaseMaturity, s.utxo, b.txs, |b.txs|, height);
  }

  /** Everything a finished template promises. */
  ghost predicate TemplateOk(r: Rules, s: State, b: Block) {
    && b.header.prevBlock == s.tip.id
    && b.header.merkleRoot == TxRoot(r.env, b.txs)
    && SaneTxs(r.env, b.txs)
    && |BlockBytes(b)| <= MAX_BLOCK_BYTES
    && OutSum(b.txs[0].outs, |b.txs[0].outs|) == SubsidyAt(s.tip.height + 1) + FeeSum(s.utxo, b.txs, |b.txs|)
    && ApplyBlock(r.env, r.p.coinbaseMaturity, s.utxo, b, s.tip.height + 1).Ok?
  }

  /** A template on a good state pays exactly subsidy plus fees, is within the size limit, and passes block
      sanity and contextual validation, provided transaction ids do not repeat. */
  lemma {:induction false} TemplateIsValid(r: Rules, s: State, clock: int, pool: seq<Tx>, build: Builder, now: I64, b: Block)
    requires UsableParams(r.p) && Inv(r, s, clock) && Linked(s.index) && Attached(s.index, s.tip)
    requires FromMempool(r, s, pool) && FreshIds(r, s)
    requires Assemble(ViewOf(r, s), pool, build, now) == Some(b)
    requires r.env.txId(b.txs[0]) !in s.mempool
    ensures TemplateOk(r, s, b)
    ensures b.header.bits == BranchBits(r.p, Headers(Branch(s.index, s.tip)))
  {
    hide UsableParams, Inv, BranchBits, FromMempool, FreshIds, Pick, CoinbaseShape, SubsidyAt, TxRoot, TxBytes,
         GoodPool, BlockSize, SaneTxs, ApplyBlock, MempoolOk, BlockBytes, OutSum, MintedBy;
    var v := ViewOf(r, s);
    var prelim := build(v.height, SubsidyAt(v.height)).value;
    GoodPoolOf(r, s, clock, prelim, pool);
    var k := PickIsPrefix(v, prelim, pool, |pool|);
    var cb := b.txs[0];
    assert ([prelim] + pool[..k])[1..] == pool[..k];
    assert b.txs == [cb] + pool[..k];
    SameFees(s.utxo, prelim, cb, pool, k);
    GoodPoolOf(r, s, clock, cb, pool);
    SamePool(v, View(r.env, r.p.coinbaseMaturity, s.utxo, s.tip.id, s.tip.height + 1, 0), cb, pool);
    InvMempool(r, s, clock);
    BlockSizeIsLength(b);
    var reward := SubsidyAt(v.height) + FeeSum(s.utxo, b.txs, |b.txs|);
    assert Pick(v, prelim, pool, |pool|).fees == FeeSum(s.utxo, b.txs, |b.txs|);
    assert CoinbaseShape(cb, v.height, reward);
    TemplateSane(r, s, cb, pool, k, reward);
    TemplateApplies(r, s, cb, pool, k, b);
    ShapeSum(cb, v.height, reward);
  }

  /** What a template holds: a version-1 header on the tip with the given time, the required bits and a zero nonce, over the
      builder's coinbase for this height and for exactly the subsidy plus the fees, followed by the longest run of pooled
      transactions, in listing order, that fits in a block. */
  lemma {:induction false} TemplateContents(r: Rules, s: State, clock: int, pool: seq<Tx>, build: Builder, now: I64, b: Block) returns (k: nat)
    requires UsableParams(r.p) && Inv(r, s, clock) && Linked(s.index) && Attached(s.index, s.tip)
    requires FromMempool(r, s, pool) && Assemble(ViewOf(r, s), pool, build, now) == Some(b)
    ensures |b.txs| > 0 && k <= |pool| && b.txs[1..] == pool[..k]
    ensures b.header == Header(1, s.tip.id, Merkle.Root(r.env.pair, Merkle.TxIds(r.env, b.txs)), now,
                               BranchBits(r.p, Headers(Branch(s.index, s.tip))), 0)
    ensures var height, reward := s.tip.height + 1, SubsidyAt(s.tip.height + 1) + FeeSum(s.utxo, b.txs, |b.txs|);
            && build(height, reward) == Some(b.txs[0])
            && b.txs[0].IsCoinbase() && b.txs[0].ins[0].pubKey == PutUvarint(height) && b.txs[0].ins[0].sig == []
            && OutSum(b.txs[0].outs, |b.txs[0].outs|) == reward && |b.txs[0].outs| > 0 && |b.txs[0].lockTag| <= 256
    ensures forall header :: |BlockBytes(Block(header, b.txs))| <= 1_000_000
    ensures k < |pool| ==> forall header :: |BlockBytes(Block(header, b.txs + [pool[k]]))| > 1_000_000
  {
    hide UsableParams, Inv, BranchBits, FromMempool, FreshIds, Pick, CoinbaseShape, SubsidyAt, TxBytes, Merkle.Root,
         GoodPool, BlockSize, BlockBytes, OutSum, MintedBy;
    var v := ViewOf(r, s);
    var prelim := build(v.height, SubsidyAt(v.height)).value;
    GoodPoolOf(r, s, clock, prelim, pool);
    k := PickIsPrefix(v, prelim, pool, |pool|);
    var cb := b.txs[0];
    assert ([prelim] + pool[..k])[1..] == pool[..k];
    assert b.txs == [cb] + pool[..k];
    SameFees(s.utxo, prelim, cb, pool, k);
    var reward := SubsidyAt(v.height) + FeeSum(s.utxo, b.txs, |b.txs|);
    assert Pick(v, prelim, pool, |pool|).fees == FeeSum(s.utxo, b.txs, |b.txs|);
    ShapeParts(cb, v.height, reward);
    AnyHeaderSize(b.txs);
    if k < |pool| {
      assert [cb] + pool[..k + 1] == b.txs + [pool[k]];
      FinalSize(prelim, cb, pool[..k + 1]);
      AnyHeaderSize(b.txs + [pool[k]]);
    }
  }

  lemma {:induction false} AnyHeaderSize(txs: seq<Tx>)
    ensures forall header :: |BlockBytes(Block(header, txs))| == BlockSize(txs)
  {
    hide BlockBytes, BlockSize;
    forall header ensures |BlockBytes(Block(header, txs))| == BlockSize(txs) {
      BlockSizeIsLength(Block(header, txs));
    }
  }

  lemma {:induction false} ShapeParts(cb: Tx, height: nat, reward: int)
    requires CoinbaseShape(cb, height, reward)
    ensures cb.IsCoinbase() && cb.ins[0].pubKey == PutUvarint(height) && cb.ins[0].sig == []
    ensures OutSum(cb.outs, |cb.outs|) == reward && |cb.outs| > 0 && |cb.lockTag| <= 256
  {
  }

  lemma {:induction false} ShapeSum(cb: Tx, height: nat, reward: int)
    requires CoinbaseShape(cb, height, reward)
    ensures OutSum(cb.outs, |cb.outs|) == reward
  {
  }

  lemma {:induction false} InvMempool(r: Rules, s: State, clock: int)
    requires UsableParams(r.p) && Inv(r, s, clock)
    ensures MempoolOk(r, s)
  {
    hide UsableParams, IndexOk, TipOk, MempoolOk;
  }

  lemma {:induction false} SamePool(v: View, w: View, cb: Tx, pool: seq<Tx>)
    requires GoodPool(v, cb, pool) && w == v.(bits := w.bits)
    ensures GoodPool(w, cb, pool)
  {
    hide NonCompeting, TxValid, Positive, Total, MintedBy;
  }

  lemma {:induction false} SameFees(u: Utxo, a: Tx, b: Tx, pool: seq<Tx>, k: nat)
    requires k <= |pool|
    ensures FeeSum(u, [a] + pool, k + 1) == FeeSum(u, [b] + pool[..k], k + 1)
  {
    hide Fee;
    if k > 0 {
      SameFees(u, a, b, pool, k - 1);
      FeeSumPrefix(u, [b] + pool[..k - 1], [b] + pool[..k], k);
      assert ([a] + pool)[k] == ([b] + pool[..k])[k];
    }
  }

  /** Mining a template: whatever nonce meets the target, the chain takes the block as its new tip. */
  lemma {:induction false} MinedTemplateAccepted(r: Rules, s: State, clock: int, b: Block, nonce: U64, now: int)
    requires UsableParams(r.p) && Inv(r, s, clock) && Linked(s.index) && Attached(s.index, s.tip)
    requires TemplateOk(r, s, b) && b.header.bits == BranchBits(r.p, Headers(Branch(s.index, s.tip)))
    requires var mined := Block(b.header.(nonce := nonce), b.txs);
             && r.env.headerId(mined.header) !in s.index
             && PowOk(r, mined.header)
             && TimestampOk(r.p, Times(Branch(s.index, s.tip)), b.header.time, now)
    ensures AcceptBlock(r, s, Block(b.header.(nonce := nonce), b.txs), now, true).1 == NewTip
  {
    hide UsableParams, BranchBits, SaneTxs, PowOk, TimestampOk, TxRoot, ApplyBlock, BlockBytes, MempoolOk, EntryOk,
         Evict, BlockWork, SubsidyAt, FeeSum, OutSum, Replay, Blocks, Ids, Times, Headers, Branch, BlockSize;
    var mined := Block(b.header.(nonce := nonce), b.txs);
    var e := Child(r, s.tip, mined);
    BlockSizeIsLength(b);
    BlockSizeIsLength(mined);
    SaneNonempty(r.env, b.txs);
    ReplayChild(r, s.index, e);
    SameBlockEconomics(r.env, r.p.coinbaseMaturity, s.utxo, b, mined, s.tip.height + 1);
    TipWorkGrows(r, s, clock, mined);
  }

  /** ... and only when its time is acceptable: a template carries the local clock as it is, so a clock that is not past the
      median of the last blocks, or too far ahead, costs the block. */
  lemma {:induction false} MinedTemplateIff(r: Rules, s: State, clock: int, b: Block, nonce: U64, now: int)
    requires UsableParams(r.p) && Inv(r, s, clock) && Linked(s.index) && Attached(s.index, s.tip)
    requires TemplateOk(r, s, b) && b.header.bits == BranchBits(r.p, Headers(Branch(s.index, s.tip)))
    requires var mined := Block(b.header.(nonce := nonce), b.txs);
             r.env.headerId(mined.header) !in s.index && PowOk(r, mined.header)
    ensures AcceptBlock(r, s, Block(b.header.(nonce := nonce), b.txs), now, true).1
         == if TimestampOk(r.p, Times(Branch(s.index, s.tip)), b.header.time, now) then NewTip else Rejected(BadTime)
  {
    var mined := Block(b.header.(nonce := nonce), b.txs);
    if TimestampOk(r.p, Times(Branch(s.index, s.tip)), b.header.time, now) {
      hide *;
      MinedTemplateAccepted(r, s, clock, b, nonce, now);
    } else {
      hide UsableParams, BranchBits, SaneTxs, PowOk, TimestampOk, TxRoot, ApplyBlock, BlockBytes, MempoolOk, IndexOk, Linked, Attached,
           AcceptBlock, SubsidyAt, FeeSum, OutSum, Replay, Blocks, Ids, Times, Headers, Branch, BlockSize;
      BlockSizeIsLength(b);
      BlockSizeIsLength(mined);
      BadTimeRejected(r, s, mined, now);
    }
  }

  lemma {:induction false} BadTimeFault(r: Rules, path: seq<Indexed>, b: Block, now: int)
    requires UsableParams(r.p) && |path| > 0 && SaneTxs(r.env, b.txs) && |BlockBytes(b)| <= MAX_BLOCK_BYTES
    requires !TimestampOk(r.p, Times(path), b.header.time, now)
    ensures HeaderFault(r, path, b, now, true) == Some(BadTime)
  {
    hide UsableParams, BranchBits, SaneTxs, PowOk, TimestampOk, TxRoot, BlockBytes, Times, Headers;
  }

  lemma {:induction false} BadTimeRejected(r: Rules, s: State, b: Block, now: int)
    requires UsableParams(r.p) && Linked(s.index) && s.tip.id in s.index && s.index[s.tip.id] == s.tip
    requires b.header.prevBlock == s.tip.id && r.env.headerId(b.header) !in s.index
    requires SaneTxs(r.env, b.txs) && |BlockBytes(b)| <= MAX_BLOCK_BYTES
    requires !TimestampOk(r.p, Times(Branch(s.index, s.tip)), b.header.time, now)
    ensures AcceptBlock(r, s, b, now, true).1 == Rejected(BadTime)
  {
    hide UsableParams, HeaderFault, SaneTxs, TimestampOk, BlockBytes, Times, Branch, Replay, Evict, Blocks, Ids, BlockWork;
    BadTimeFault(r, Branch(s.index, s.tip), b, now);
  }

  lemma {:induction false} SameBlockEconomics(env: Env, maturity: int, u: Utxo, a: Block, b: Block, height: nat)
    requires a.txs == b.txs && |a.txs| > 0
    ensures ApplyBlock(env, maturity, u, a, height) == ApplyBlock(env, maturity, u, b, height)
  {
    hide ApplyTxs, CheckOutputs, SpendAndCreate, SubsidyAt;
  }

  lemma {:induction false} TipWorkGrows(r: Rules, s: State, clock: int, b: Block)
    requires UsableParams(r.p) && Inv(r, s, clock) && Linked(s.index) && Attached(s.index, s.tip)
    requires b.header.bits == BranchBits(r.p, Headers(Branch(s.index, s.tip)))
    ensures BlockWork(b) >= 1
  {
    hide UsableParams, BranchBits, MempoolOk, EntryOk, CompactToTarget, WorkFromTarget, Replay;
    ParentTarget(r, s.index, s.tip.id, clock);
    ChildTargetWithinMax(r, Branch(s.index, s.tip), b);
    RequiredWorkPositive(r.p, b.header.bits);
  }

  // ---- when a template exists at all ----

  function StandardBuilder(to: Pkh, tag: seq<Byte>): Builder {
    (height: nat, reward: int) => Some(NewCoinbase(height, reward, to, tag))
  }

  lemma {:induction false} StandardShape(height: nat, reward: int, to: Pkh, tag: seq<Byte>)
    requires |tag| <= 256
    ensures CoinbaseShape(NewCoinbase(height, reward, to, tag), height, reward) <==> 0 < reward <= MAX_MONEY
  {
    hide PutUvarint;
    var cb := NewCoinbase(height, reward, to, tag);
    assert OutSum(cb.outs, 1) == OutSum(cb.outs, 0) + reward;
  }

  lemma {:induction false} StandardSize(height: nat, reward: int, to: Pkh, tag: seq<Byte>)
    ensures |TxBytes(NewCoinbase(height, reward, to, tag))| ==
            71 + |VarBytes(PutUvarint(height))| + |VarBytes(tag)|
  {
    hide LE, VarBytes, PutUvarint, Clip, Unsigned;
    var cb := NewCoinbase(height, reward, to, tag);
    EmptyVarBytes();
    assert |InsBytes(cb.ins, false)| == |InBytes(cb.ins[0], false)| by { assert cb.ins[1..] == []; }
    assert |OutsBytes(cb.outs)| == 28 by { assert cb.outs[1..] == []; }
    UvarintShort(1);
  }

  lemma {:induction false} EmptyVarBytes()
    ensures |VarBytes([])| == 1
  {
    UvarintShort(0);
  }

  lemma {:induction false} SmallVarBytes(b: seq<Byte>)
    requires |b| <= 256
    ensures |VarBytes(b)| <= 258
  {
    UvarintShort(|b|);
  }

  lemma {:induction false} SmallHeight(height: nat)
    requires height < 2097152 * 4
    ensures |VarBytes(PutUvarint(height))| <= 5
  {
    UvarintShort(height);
    UvarintShort(|PutUvarint(height)|);
    if height >= 2097152 {
      assert |PutUvarint(height)| == 1 + |PutUvarint(height / 128)|;
      UvarintShort(height / 128);
    }
  }

  lemma {:induction false} CoinbaseAloneFits(height: nat, reward: int, to: Pkh, tag: seq<Byte>)
    requires height < 33 * HALVING_INTERVAL && |tag| <= 256
    ensures BlockSize([NewCoinbase(height, reward, to, tag)]) <= MAX_BLOCK_BYTES
  {
    hide TxBytes, VarBytes, PutUvarint, TxsSize;
    var cb := NewCoinbase(height, reward, to, tag);
    StandardSize(height, reward, to, tag);
    SmallHeight(height);
    SmallVarBytes(tag);
    SizeOfOne(cb);
    UvarintShort(1);
    UvarintShort(|TxBytes(cb)|);
  }

  /** The standard template succeeds exactly while the next block still earns a subsidy: the preliminary
      coinbase is checked against the bare subsidy, so fees alone never make a template. */
  lemma {:induction false} StandardTemplateIff(r: Rules, s: State, clock: int, pool: seq<Tx>, to: Pkh, tag: seq<Byte>, now: I64)
    requires UsableParams(r.p) && Inv(r, s, clock) && Linked(s.index) && Attached(s.index, s.tip)
    requires FromMempool(r, s, pool) && |tag| <= 256
    ensures Assemble(ViewOf(r, s), pool, StandardBuilder(to, tag), now).Some?
            <==> s.tip.height + 1 < 33 * HALVING_INTERVAL
  {
    hide UsableParams, Inv, BranchBits, FromMempool, Pick, SubsidyAt, TxRoot, TxBytes, GoodPool, BlockSize,
         CoinbaseShape, NewCoinbase, TxsSize, MintedBy, FeeSum;
    var v := ViewOf(r, s);
    var subsidy := SubsidyAt(v.height);
    SubsidyPositiveIff(v.height);
    StandardShape(v.height, subsidy, to, tag);
    var prelim := NewCoinbase(v.height, subsidy, to, tag);
    GoodPoolOf(r, s, clock, prelim, pool);
    SubsidyInRange(v.height);
    if subsidy > 0 {
      var k := PickIsPrefix(v, prelim, pool, |pool|);
      PoolFees(v, prelim, pool, k);
      var fees := FeeSum(v.utxo, [prelim] + pool, k + 1);
      StandardShape(v.height, subsidy + fees, to, tag);
      var cb := NewCoinbase(v.height, subsidy + fees, to, tag);
      StandardSize(v.height, subsidy, to, tag);
      StandardSize(v.height, subsidy + fees, to, tag);
      assert ([prelim] + pool[..k])[1..] == pool[..k];
      FinalSize(prelim, cb, pool[..k]);
      if k == 0 {
        CoinbaseAloneFits(v.height, subsidy, to, tag);
        assert [prelim] + pool[..0] == [prelim];
      }
    }
  }

  lemma {:induction false} FinalSize(a: Tx, b: Tx, rest: seq<Tx>)
    requires |TxBytes(a)| == |TxBytes(b)|
    ensures BlockSize([b] + rest) == BlockSize([a] + rest)
  {
    hide TxBytes, TxsSize, PutUvarint;
    TxsSizeReplaceFirst(rest, a, b);
  }

  lemma {:induction false} SubsidyInRange(height: nat)
    ensures SubsidyAt(height) <= MAX_MONEY
  {
    hide SubsidyAt;
    MintedWithinCap(height + 1);
  }

  lemma {:induction false} PoolFees(v: View, cb: Tx, pool: seq<Tx>, k: nat)
    requires GoodPool(v, cb, pool) && k <= |pool|
    ensures FeeSum(v.utxo, [cb] + pool, k + 1) >= 0
    ensures CheckedAdd(SubsidyAt(v.height), FeeSum(v.utxo, [cb] + pool, k + 1))
         == Some(SubsidyAt(v.height) + FeeSum(v.utxo, [cb] + pool, k + 1))
  {
    hide TxValid, NonCompeting, Positive, Total, SubsidyAt, MintedBy, FeeSum;
    var txs := [cb] + pool;
    forall i | 0 < i < |txs| ensures TxValid(v.env, v.maturity, v.utxo, txs[i], v.height) {
      assert txs[i] == pool[i - 1];
    }
    FeesWithinTotal(v.env, v.maturity, v.utxo, txs, k + 1, v.height);
    AllowedFits(v.height, FeeSum(v.utxo, txs, k + 1));
  }
}
