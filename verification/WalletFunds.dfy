/** From the chain's wallet view to an admitted transaction (wallet/wallet.go, core/chain.go). */
module WalletFunds {
  import opened Types
  import opened Money
  import opened Params
  import opened Difficulty
  import opened Ledger
  import opened Consensus
  import opened Invariant
  import opened Outpoints
  import opened Template
  import opened WalletView
  import opened WalletTheorems
  import opened Wire
  import opened Sorting
  import opened Signing
  import opened Selection
  import opened Payment
  import opened PaymentTheorems
  import opened Maximum
  import opened Cleanup

  /** A spendable output as the chain lists it, with the position of its owner among the wallet's keys. */
  datatype Listed = Listed(op: OutPoint, amount: int, pkh: Pkh, owner: int)

  function AsOutputs(listed: seq<Listed>): (r: seq<Output>)
    ensures |r| == |listed|
    ensures forall i :: 0 <= i < |listed| ==> r[i] == Output(listed[i].op, listed[i].amount, listed[i].pkh, listed[i].owner)
  {
    if listed == [] then []
    else
      var o := listed[|listed| - 1];
      AsOutputs(listed[..|listed| - 1]) + [Output(o.op, o.amount, o.pkh, o.owner)]
  }

  predicate Owned(env: Env, keys: seq<Key>, o: Listed) {
    0 <= o.owner < |keys| && env.pkhOf(keys[o.owner].pub) == o.pkh && MoneyRange(o.amount)
  }

  /** Exactly the listings the wallet turns into a snapshot. */
  ghost predicate Usable(env: Env, keys: seq<Key>, listed: seq<Listed>) {
    && |keys| > 0
    && (forall i :: 0 <= i < |listed| ==> Owned(env, keys, listed[i]))
    && DistinctOutputs(AsOutputs(listed))
    && OutputTotal(AsOutputs(listed)) <= MAX_MONEY
  }

  lemma {:induction false} AsOutputsPrefix(listed: seq<Listed>, n: nat)
    requires n <= |listed|
    ensures AsOutputs(listed[..n]) == AsOutputs(listed)[..n]
  {
  }

  lemma {:induction false} OutputTotalRises(outputs: seq<Output>, n: nat)
    requires n <= |outputs| && (forall i :: 0 <= i < |outputs| ==> outputs[i].amount >= 0)
    ensures 0 <= OutputTotal(outputs[..n]) <= OutputTotal(outputs)
    decreases |outputs|
  {
    if n == |outputs| {
      assert outputs[..n] == outputs;
      if n > 0 {
        OutputTotalRises(outputs[..n - 1], n - 1);
        assert outputs[..n - 1][..n - 1] == outputs[..n - 1];
      }
    } else {
      OutputTotalRises(outputs[..|outputs| - 1], n);
      assert outputs[..|outputs| - 1][..n] == outputs[..n];
    }
  }

  /** What an accepted listing holds: every output belongs to the key it is attributed to, none is listed twice, and amounts and
      their total are in range. */
  lemma {:induction false} UsableMeans(env: Env, keys: seq<Key>, listed: seq<Listed>)
    requires Usable(env, keys, listed)
    ensures |keys| > 0
    ensures forall i :: 0 <= i < |listed| ==>
              && 0 <= listed[i].owner < |keys| && env.pkhOf(keys[listed[i].owner].pub) == listed[i].pkh
              && 0 <= listed[i].amount <= 21_000_000 * 100_000_000
    ensures forall i, j :: 0 <= i < j < |listed| ==> listed[i].op != listed[j].op
    ensures OutputTotal(AsOutputs(listed)) <= 21_000_000 * 100_000_000
  {
    hide AsOutputs, OutputTotal;
    var all := AsOutputs(listed);
    forall i, j | 0 <= i < j < |listed| ensures listed[i].op != listed[j].op {
      assert all[i].op != all[j].op;
    }
    forall i | 0 <= i < |listed| ensures Owned(env, keys, listed[i]) {
    }
  }

  /** `snapshotWithKeys`, after the chain has answered: owner, duplicate and total checks. */
  method SnapshotWithKeys(env: Env, keys: seq<Key>, listed: seq<Listed>) returns (res: Option<(seq<Output>, int)>)
    ensures res.Some? <==> Usable(env, keys, listed)
    ensures res.Some? ==> res.value == (AsOutputs(listed), OutputTotal(AsOutputs(listed)))
  {
    hide OutputTotal, AsOutputs;
    if |keys| == 0 {
      return None;
    }
    ghost var all := AsOutputs(listed);
    var outputs: seq<Output>, total, seen: set<OutPoint>, i := [], 0, {}, 0;
    NoOutputTotal(all);
    assert all[..0] == [];
    while i < |listed|
      invariant 0 <= i <= |listed| && outputs == all[..i] && total == OutputTotal(all[..i]) && 0 <= total <= MAX_MONEY
      invariant seen == SeenOps(all, i)
      invariant forall j :: 0 <= j < i ==> Owned(env, keys, listed[j])
      invariant DistinctOutputs(all[..i])
    {
      var o := listed[i];
      ListStep(all, i);
      if o.owner < 0 || o.owner >= |keys| || env.pkhOf(keys[o.owner].pub) != o.pkh {
        return None;
      }
      if o.op in seen {
        return None;
      }
      seen := seen + {o.op};
      var next := CheckedAdd(total, o.amount);
      if next.None? {
        if Usable(env, keys, listed) {
          assert Owned(env, keys, o);
          OutputTotalRises(all, i + 1);
        }
        return None;
      }
      total := next.value;
      outputs := outputs + [Output(o.op, o.amount, o.pkh, o.owner)];
      i := i + 1;
    }
    assert all[..i] == all;
    return Some((outputs, total));
  }

  lemma {:induction false} ListStep(all: seq<Output>, n: nat)
    requires n < |all| && DistinctOutputs(all[..n])
    ensures SeenOps(all, n + 1) == SeenOps(all, n) + {all[n].op}
    ensures all[n].op in SeenOps(all, n) ==> !DistinctOutputs(all)
    ensures all[n].op !in SeenOps(all, n) ==> DistinctOutputs(all[..n + 1])
    ensures OutputTotal(all[..n + 1]) == OutputTotal(all[..n]) + all[n].amount && all[..n + 1] == all[..n] + [all[n]]
  {
    hide OutputTotal;
    OutputTotalSnoc(all, n);
    if all[n].op in SeenOps(all, n) {
      var i :| 0 <= i < n && all[i].op == all[n].op;
      assert !DistinctOutputs(all);
    }
  }

  // ---- what the listing says about the chain ----

  /** The chain's answer: spendable entries of the wallet view. */
  ghost predicate ListsView(spendable: Utxo, listed: seq<Listed>) {
    forall i :: 0 <= i < |listed| ==>
      listed[i].op in spendable && spendable[listed[i].op].value == listed[i].amount && spendable[listed[i].op].pkh == listed[i].pkh
  }

  ghost predicate ChainReady(r: Rules, s: State, clock: int, pool: seq<Tx>) {
    && UsableParams(r.p) && Linked(s.index) && Attached(s.index, s.tip) && Inv(r, s, clock)
    && FromMempool(r, s, pool) && ListsWhole(s, pool)
  }

  /** A snapshot taken from a successful wallet view describes outputs the chain will let be spent. */
  lemma {:induction false} ViewAnchors(r: Rules, s: State, clock: int, owners: set<Pkh>, pool: seq<Tx>, keys: seq<Key>, listed: seq<Listed>)
    requires ChainReady(r, s, clock, pool) && Usable(r.env, keys, listed)
    requires WalletViewOf(r.env, r.p.coinbaseMaturity, owners, Blocks(Consensus.Branch(s.index, s.tip)), pool).Ok?
    requires ListsView(WalletViewOf(r.env, r.p.coinbaseMaturity, owners, Blocks(Consensus.Branch(s.index, s.tip)), pool).value.spendable, listed)
    ensures Anchored(r, s, AsOutputs(listed))
  {
    hide UsableParams, Inv, WalletViewOf, FromMempool, ListsWhole, OutputTotal, AsOutputs, Blocks, Consensus.Branch, PoolSpends;
    ReachableView(r, s, clock, owners, pool);
    var all := AsOutputs(listed);
    forall i | 0 <= i < |all| ensures OnChain(r, s, all[i]) {
      ReservedByMempool(r, s, pool, all[i].op);
    }
  }

  /** What the two lists of a successful view say about the chain: an output of one of the owners is spendable exactly when it is
      unspent, no pooled transaction spends it, and it is not a coinbase output with too few confirmations at the next block; it
      is immature exactly when it is unspent and such a coinbase output, and then no transaction that spends it is valid in the
      next block. */
  lemma {:induction false} ViewMeans(r: Rules, s: State, clock: int, owners: set<Pkh>, pool: seq<Tx>, op: OutPoint)
    requires ChainReady(r, s, clock, pool)
    requires WalletViewOf(r.env, r.p.coinbaseMaturity, owners, Blocks(Consensus.Branch(s.index, s.tip)), pool).Ok?
    ensures var view := WalletViewOf(r.env, r.p.coinbaseMaturity, owners, Blocks(Consensus.Branch(s.index, s.tip)), pool).value;
            && (op in view.spendable <==>
                  && op in s.utxo && s.utxo[op].pkh in owners && !SpentByPool(s.mempool, op)
                  && !(s.utxo[op].coinbase && s.tip.height + 1 - s.utxo[op].height < r.p.coinbaseMaturity))
            && (op in view.spendable ==> view.spendable[op] == s.utxo[op])
            && (op in view.immature <==>
                  && op in s.utxo && s.utxo[op].pkh in owners
                  && s.utxo[op].coinbase && s.tip.height + 1 - s.utxo[op].height < r.p.coinbaseMaturity)
            && (op in view.immature ==>
                  && view.immature[op] == s.utxo[op]
                  && forall tx: Tx, i :: 0 <= i < |tx.ins| && tx.ins[i].prev == op ==>
                       !TxValid(r.env, r.p.coinbaseMaturity, s.utxo, tx, s.tip.height + 1))
  {
    hide UsableParams, Inv, WalletViewOf, FromMempool, ListsWhole, Blocks, Consensus.Branch, PoolSpends, TxValid;
    ReachableView(r, s, clock, owners, pool);
    ReservedByMempool(r, s, pool, op);
    forall tx: Tx, i | 0 <= i < |tx.ins| && tx.ins[i].prev == op && TxValid(r.env, r.p.coinbaseMaturity, s.utxo, tx, s.tip.height + 1)
      ensures op in s.utxo && (s.utxo[op].coinbase ==> s.tip.height + 1 - s.utxo[op].height >= r.p.coinbaseMaturity) {
      SpentIsMature(r.env, r.p.coinbaseMaturity, s.utxo, tx, i, s.tip.height + 1);
    }
  }

  lemma {:induction false} SpentIsMature(env: Env, maturity: int, u: Utxo, tx: Tx, i: nat, height: int)
    requires TxValid(env, maturity, u, tx, height) && i < |tx.ins|
    ensures tx.ins[i].prev in u
    ensures u[tx.ins[i].prev].coinbase ==> height - u[tx.ins[i].prev].height >= maturity
  {
    hide OutSum, SpendSum;
    assert SpendableBy(env, maturity, u, tx, i, height);
  }

  lemma {:induction false} ViewReady(r: Rules, s: State, clock: int, pool: seq<Tx>)
    requires ChainReady(r, s, clock, pool)
    ensures UsableParams(r.p) && Inv(r, s, clock)
  {
    hide UsableParams, Inv, FromMempool, ListsWhole;
  }

  /** End to end: on an unchanged chain, a payment prepared from the wallet's own snapshot is admitted and leaves exactly
      the fee. */
  lemma {:induction false} WalletPaymentAdmitted(r: Rules, s: State, clock: int, sha: seq<Byte> -> Hash, owners: set<Pkh>, pool: seq<Tx>,
                                                 keys: seq<Key>, listed: seq<Listed>, to: Pkh, amount: int, fee: int, excluded: set<OutPoint>)
    requires ChainReady(r, s, clock, pool) && Usable(r.env, keys, listed)
    requires WalletViewOf(r.env, r.p.coinbaseMaturity, owners, Blocks(Consensus.Branch(s.index, s.tip)), pool).Ok?
    requires ListsView(WalletViewOf(r.env, r.p.coinbaseMaturity, owners, Blocks(Consensus.Branch(s.index, s.tip)), pool).value.spendable, listed)
    requires GoodKeys(r.env, keys) && DigestHashes(r.env, sha) && amount > 0 && fee >= 0
    requires PaymentPlan(r.env, keys, AsOutputs(listed), to, amount, fee, excluded).Ok?
    ensures var tx := PaymentPlan(r.env, keys, AsOutputs(listed), to, amount, fee, excluded).value.tx;
            && TxValid(r.env, r.p.coinbaseMaturity, s.utxo, tx, s.tip.height + 1) && Fee(s.utxo, tx) == fee
            && |tx.outs| > 0 && tx.outs[0] == TxOut(amount, to)
            && AcceptTx(r, s, tx).1 == if r.env.txId(tx) in s.mempool then TxKnown else Added
  {
    ViewReady(r, s, clock, pool);
    hide *;
    ViewAnchors(r, s, clock, owners, pool, keys, listed);
    PaymentAdmitted(r, s, clock, sha, keys, AsOutputs(listed), to, amount, fee, excluded);
    PaymentPays(r.env, keys, AsOutputs(listed), to, amount, fee, excluded);
  }

  // ---- cleanups are admitted too ----

  lemma {:induction false} QueueDistinct(w: Wallet, outputs: seq<Output>, excluded: set<OutPoint>, k: int, n: nat)
    requires DistinctOutputs(outputs) && n <= |Queue(Eligible(outputs, excluded), k)|
    ensures DistinctOps(Queue(Eligible(outputs, excluded), k)[..n])
    ensures multiset(Queue(Eligible(outputs, excluded), k)[..n]) <= multiset(Eligible(outputs, excluded))
  {
    hide Eligible, Queue;
    var cs := Eligible(outputs, excluded);
    var queue := Queue(cs, k);
    QueuePart(cs, k);
    assert queue == queue[..n] + queue[n..];
    assert multiset(queue) == multiset(queue[..n]) + multiset(queue[n..]);
    EligibleDistinct(w.env, w.keys, outputs, excluded);
    SubsetDistinct(cs, queue[..n]);
  }

  lemma {:induction false} OneOutput(pkh: Pkh, amount: int)
    requires 0 < amount <= MAX_MONEY
    ensures var outs := [TxOut(amount, pkh)]; OutSum(outs, |outs|) == amount && GoodOutputs(outs, |outs|)
  {
    var outs := [TxOut(amount, pkh)];
    assert OutSum(outs, 1) == OutSum(outs, 0) + amount;
  }

  lemma {:induction false} MergeSpendable(r: Rules, s: State, sha: seq<Byte> -> Hash, w: Wallet, pkh: Pkh, cs: seq<Candidate>, n: nat, fee: int)
    requires w.env == r.env && GoodKeys(r.env, w.keys) && DigestHashes(r.env, sha) && n <= |cs| && PositiveAmounts(cs[..n])
    requires forall i :: 0 <= i < n ==> Backed(r, s, w.keys, cs[..n][i])
    ensures AllSpendable(r, s, MergeTx(w, pkh, cs, n, fee), s.tip.height + 1)
    ensures |MergeTx(w, pkh, cs, n, fee).ins| == n
    ensures forall i :: 0 <= i < n ==> MergeTx(w, pkh, cs, n, fee).ins[i].prev == cs[..n][i].op
  {
    hide GoodKeys, DigestHashes, Backed, SpendableBy, Drafted, KeysFor, Amounts, SignedTx;
    var draft := Tx(1, Drafted(cs[..n]), [TxOut(Amounts(cs[..n]) - fee, pkh)], []);
    var height, tx := s.tip.height + 1, MergeTx(w, pkh, cs, n, fee);
    forall i | 0 <= i < n ensures SpendableBy(r.env, r.p.coinbaseMaturity, s.utxo, tx, i, height) {
      InputsValid(r, s, sha, w.keys, cs[..n], draft, i);
    }
  }

  lemma {:induction false} GroupKey(w: Wallet, cs: seq<Candidate>, fee: int, k: int)
    requires FirstGroup(w, cs, fee, k)
    ensures 0 <= k < |w.keys|
  {
    hide GroupLe, OfKey;
  }

  /** A cleanup prepared from an anchored snapshot is admitted and leaves exactly its fee. */
  lemma {:induction false} CleanupAdmitted(r: Rules, s: State, clock: int, sha: seq<Byte> -> Hash, w: Wallet, outputs: seq<Output>, spendable: int,
                                           fee: int, excluded: set<OutPoint>, k: int, p: PreparedCleanup)
    requires UsableParams(r.p) && Inv(r, s, clock)
    requires w.env == r.env && GoodKeys(r.env, w.keys) && DigestHashes(r.env, sha) && Anchored(r, s, outputs)
    requires 0 <= fee && MoneyRange(spendable) && SnapshotOk(r.env, w.keys, outputs, spendable)
    requires Merges(w, Eligible(outputs, excluded), fee, k, p)
    ensures TxValid(r.env, r.p.coinbaseMaturity, s.utxo, p.tx, s.tip.height + 1) && Fee(s.utxo, p.tx) == fee
    ensures AcceptTx(r, s, p.tx).1 == if r.env.txId(p.tx) in s.mempool then TxKnown else Added
    ensures forall i :: 0 <= i < |p.selected| ==> p.selected[i] !in excluded
  {
    hide Eligible, Queue, Amounts, GoodKeys, DigestHashes, Backed, TxValid, Fee, CheckTx, FirstGroup, Fits, OutSum, GoodOutputs, MergeTx, Conflicts,
         OnChain, OutputTotal, Consistent, AllConsistent, UsableParams, Inv;
    NoNullOutput(r, s, clock);
    var cs, n := Eligible(outputs, excluded), |p.selected|;
    var part := Queue(cs, k)[..n];
    ConsistentMeansEligible(r.env, w.keys, outputs, excluded);
    EligibleAllPositive(r.env, w.keys, outputs, excluded);
    QueueDistinct(w, outputs, excluded, k, n);
    forall i | 0 <= i < n
      ensures Backed(r, s, w.keys, part[i]) && 0 < part[i].amount <= MAX_MONEY && part[i].op !in excluded {
      assert part[i] in multiset(part);
      assert part[i] in cs;
      ChosenBacked(r, s, w.keys, outputs, excluded, part[i]);
    }
    PartAmounts(cs, part);
    EligibleWithinTotal(r.env, w.keys, outputs, excluded, |outputs|);
    assert outputs[..|outputs|] == outputs;
    GroupKey(w, cs, fee, k);
    var pkh := w.env.pkhOf(w.keys[k].pub);
    OneOutput(pkh, p.amount);
    MergeSpendable(r, s, sha, w, pkh, Queue(cs, k), n, fee);
    Admission(r, s, w.keys, part, p.tx, fee);
  }
}
