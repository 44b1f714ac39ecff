/** The wallet view can fail on a chain the node accepted: a coinbase may repeat an earlier one (core/chain.go, core/wallet_view.go). */
module ViewFailure {
  import opened Types
  import opened Money
  import opened Params
  import opened Ledger
  import opened Difficulty
  import opened MedianTime
  import opened Consensus
  import opened Invariant
  import opened Reachable
  import opened Template
  import opened TemplateTheorems
  import opened WalletHistory
  import opened WalletTheorems
  import opened ChainNode
  import Wire

  /** A block on the tip whose only transaction is the coinbase of the main-chain block at height `k`. */
  ghost predicate RepeatsCoinbase(r: Rules, s: State, b: Block, k: nat)
    requires Linked(s.index) && Attached(s.index, s.tip)
  {
    && k <= s.tip.height && |Branch(s.index, s.tip)[k].block.txs| > 0
    && b.header.prevBlock == s.tip.id
    && b.txs == [Branch(s.index, s.tip)[k].block.txs[0]]
    && OutSum(b.txs[0].outs, |b.txs[0].outs|) <= SubsidyAt(s.tip.height + 1)
  }

  /** The header checks, which have nothing to do with what the coinbase is. */
  ghost predicate HeaderPasses(r: Rules, s: State, b: Block, now: int)
    requires UsableParams(r.p) && Linked(s.index) && Attached(s.index, s.tip)
  {
    && r.env.headerId(b.header) !in s.index
    && |Wire.BlockBytes(b)| <= MAX_BLOCK_BYTES
    && TimestampOk(r.p, Times(Branch(s.index, s.tip)), b.header.time, now)
    && b.header.bits == BranchBits(r.p, Headers(Branch(s.index, s.tip)))
    && PowOk(r, b.header)
    && b.header.merkleRoot == TxRoot(r.env, b.txs)
  }

  lemma {:induction false} ReplayedSane(env: Env, maturity: int, blocks: seq<Block>, k: nat)
    requires Replay(env, maturity, blocks).Ok? && k < |blocks|
    ensures SaneTxs(env, blocks[k].txs)
  {
    hide SaneTxs, ApplyBlock;
    if k < |blocks| - 1 {
      ReplayedSane(env, maturity, blocks[..|blocks| - 1], k);
    }
  }

  lemma {:induction false} CoinbaseAlone(env: Env, txs: seq<Tx>)
    requires SaneTxs(env, txs)
    ensures SaneTxs(env, [txs[0]]) && GoodOutputs(txs[0].outs, |txs[0].outs|)
  {
    var one := [txs[0]];
    assert SpentIns(one, 1) == SpentIns(one, 0);
  }

  lemma {:induction false} CoinbaseApplies(env: Env, maturity: int, u: Utxo, b: Block, height: nat)
    requires |b.txs| == 1 && GoodOutputs(b.txs[0].outs, |b.txs[0].outs|)
    requires OutSum(b.txs[0].outs, |b.txs[0].outs|) <= SubsidyAt(height)
    ensures ApplyBlock(env, maturity, u, b, height).Ok?
  {
    hide SubsidyAt, SpendAndCreate, CheckOutputs, GoodOutputs;
    CheckOutputsIff(b.txs[0].outs, |b.txs[0].outs|);
    SubsidyInRange(height);
  }

  /** Consensus takes such a block as the new tip. */
  lemma {:induction false} RepeatedCoinbaseAccepted(r: Rules, s: State, clock: int, b: Block, k: nat, now: int)
    requires UsableParams(r.p) && Inv(r, s, clock) && Linked(s.index) && Attached(s.index, s.tip)
    requires RepeatsCoinbase(r, s, b, k) && HeaderPasses(r, s, b, now)
    ensures var (s', out) := AcceptBlock(r, s, b, now, true);
            out == NewTip && s'.tip.block == b && s'.tip.height == s.tip.height + 1
    ensures var e := Child(r, s.tip, b);
            && Attached(s.index, e) && AcceptBlock(r, s, b, now, true).0.tip == e
            && AcceptBlock(r, s, b, now, true).0.index == s.index[e.id := e]
            && e.id !in s.index && b.header.prevBlock in s.index && s.index[b.header.prevBlock] == s.tip
  {
    hide UsableParams, BranchBits, SaneTxs, PowOk, TimestampOk, TxRoot, ApplyBlock, Wire.BlockBytes, MempoolOk, EntryOk, Evict, BlockWork,
         SubsidyAt, OutSum, Replay, Blocks, Ids, Times, Headers, Branch, GoodOutputs;
    var path := Branch(s.index, s.tip);
    var e := Child(r, s.tip, b);
    ReplayedSane(r.env, r.p.coinbaseMaturity, Blocks(path), k);
    CoinbaseAlone(r.env, path[k].block.txs);
    CoinbaseApplies(r.env, r.p.coinbaseMaturity, s.utxo, b, s.tip.height + 1);
    ReplayChild(r, s.index, e);
    TipWorkGrows(r, s, clock, b);
  }

  // ---- the view afterwards ----

  lemma {:induction false} IdListed(env: Env, txs: seq<Tx>, n: nat, i: nat)
    requires i < n <= |txs|
    ensures env.txId(txs[i]) in TxIdSet(env, txs, n)
  {
  }

  lemma {:induction false} IdOnChain(env: Env, blocks: seq<Block>, k: nat, i: nat)
    requires k < |blocks| && i < |blocks[k].txs|
    ensures env.txId(blocks[k].txs[i]) in ChainIds(env, blocks)
  {
    hide TxIdSet;
    if k < |blocks| - 1 {
      IdOnChain(env, blocks[..|blocks| - 1], k, i);
    } else {
      IdListed(env, blocks[k].txs, |blocks[k].txs|, i);
    }
  }

  lemma {:induction false} RepeatFound(env: Env, blocks: seq<Block>, b: Block, k: nat)
    requires k < |blocks| && |blocks[k].txs| > 0 && |b.txs| > 0 && b.txs[0] == blocks[k].txs[0]
    ensures !NoRepeats(env, blocks + [b])
  {
    hide TxIdSet;
    IdOnChain(env, blocks, k, 0);
    assert (blocks + [b])[..|blocks|] == blocks;
  }

  /** From any reachable state such a block leads to a reachable state on which the wallet view is an error, whoever asks. */
  lemma {:induction false} ViewFailsReachably(r: Rules, s: State, b: Block, k: nat, now: int, owners: set<Pkh>, pool: seq<Tx>)
    requires UsableParams(r.p) && Reachable.Reachable(r, s) && Linked(s.index) && Attached(s.index, s.tip)
    requires RepeatsCoinbase(r, s, b, k) && HeaderPasses(r, s, b, now)
    requires FromMempool(r, AcceptBlock(r, s, b, now, true).0, pool)
    ensures var s' := AcceptBlock(r, s, b, now, true).0;
            && Reachable.Reachable(r, s') && s'.tip.block == b && Linked(s'.index) && Attached(s'.index, s'.tip)
            && WalletViewOf(r.env, r.p.coinbaseMaturity, owners, Blocks(Branch(s'.index, s'.tip)), pool).Err?
  {
    hide UsableParams, Inv, RepeatsCoinbase, HeaderPasses, AcceptBlock, WalletViewOf, Reachable.Reachable, FromMempool, NoRepeats, Linked, Branch,
         Child, Attached, Blocks;
    var clock := ReachableInv(r, s);
    RepeatedCoinbaseAccepted(r, s, clock, b, k, now);
    ReachableNext(r, s, b, now);
    RepeatParts(r, s, b, k);
    ViewFails(r, s, b, k, AcceptBlock(r, s, b, now, true).0, owners, pool);
  }

  lemma {:induction false} ViewFails(r: Rules, s: State, b: Block, k: nat, s': State, owners: set<Pkh>, pool: seq<Tx>)
    requires UsableParams(r.p) && Linked(s.index) && Attached(s.index, s.tip) && RepeatsCoinbase(r, s, b, k)
    requires Reachable.Reachable(r, s') && FromMempool(r, s', pool)
    requires var e := Child(r, s.tip, b);
             && Attached(s.index, e) && e.id !in s.index && s.index[b.header.prevBlock] == s.tip
             && s'.tip == e && s'.index == s.index[e.id := e]
    ensures Linked(s'.index) && Attached(s'.index, s'.tip)
    ensures WalletViewOf(r.env, r.p.coinbaseMaturity, owners, Blocks(Branch(s'.index, s'.tip)), pool).Err?
  {
    hide UsableParams, Inv, RepeatsCoinbase, WalletViewOf, Reachable.Reachable, FromMempool, NoRepeats, Linked, Branch, Blocks, BlockWork;
    var clock := ReachableInv(r, s');
    InvParts(r, s', clock);
    BranchAfter(r, s, b, s');
    RepeatParts(r, s, b, k);
    RepeatFound(r.env, Blocks(Branch(s.index, s.tip)), b, k);
    ReachableView(r, s', clock, owners, pool);
  }

  lemma {:induction false} RepeatParts(r: Rules, s: State, b: Block, k: nat)
    requires Linked(s.index) && Attached(s.index, s.tip) && RepeatsCoinbase(r, s, b, k)
    ensures var blocks := Blocks(Branch(s.index, s.tip));
            k < |blocks| && |blocks[k].txs| > 0 && |b.txs| > 0 && b.txs[0] == blocks[k].txs[0] && b.header.prevBlock == s.tip.id
  {
    hide OutSum, SubsidyAt;
  }

  lemma {:induction false} ReachableNext(r: Rules, s: State, b: Block, now: int)
    requires UsableParams(r.p) && Reachable.Reachable(r, s) && Linked(s.index)
    ensures Reachable.Reachable(r, AcceptBlock(r, s, b, now, true).0)
  {
    hide UsableParams, AcceptBlock, Linked, AcceptTx, Genesis;
    var events :| s == Run(r, events);
    var more := events + [BlockArrives(b, now, true)];
    assert more[..|more| - 1] == events;
    assert Run(r, more) == AcceptBlock(r, s, b, now, true).0;
  }

  lemma {:induction false} BranchAfter(r: Rules, s: State, b: Block, s': State)
    requires Linked(s.index) && Attached(s.index, s.tip) && Linked(s'.index)
    requires var e := Child(r, s.tip, b);
             && Attached(s.index, e) && e.id !in s.index && s.index[b.header.prevBlock] == s.tip
             && s'.tip == e && s'.index == s.index[e.id := e]
    ensures Attached(s'.index, s'.tip)
    ensures Blocks(Branch(s'.index, s'.tip)) == Blocks(Branch(s.index, s.tip)) + [b]
  {
    hide Blocks, BlockWork;
    var e := Child(r, s.tip, b);
    BranchStable(s.index, e, e);
    BlocksLast(Branch(s.index, s.tip), e);
  }

  /** The smallest case exists on every network: the genesis coinbase may be paid again at height 1. */
  lemma {:induction false} GenesisCoinbaseRepeats(r: Rules, header: Header)
    requires header.prevBlock == GenesisEntry(r).id
    ensures Linked(Genesis(r).index) && Attached(Genesis(r).index, Genesis(r).tip)
    ensures RepeatsCoinbase(r, Genesis(r), Block(header, GenesisBlock(r).txs), 0)
  {
    hide TxRoot, BlockWork, SubsidyAt;
    var cb := GenesisBlock(r).txs[0];
    assert OutSum(cb.outs, 1) == OutSum(cb.outs, 0) + SubsidyAt(0);
    assert SubsidyAt(1) == SubsidyAt(0) by { SameEra(); }
    assert Branch(Genesis(r).index, Genesis(r).tip) == [GenesisEntry(r)];
  }

  lemma {:induction false} SameEra()
    ensures SubsidyAt(1) == SubsidyAt(0)
  {
    hide EraReward;
  }
}
