/** What a node's answers mean: which blocks and transactions it takes, and what it holds afterwards (core/chain.go). */
module Acceptance {
  import opened Types
  import opened Bits
  import opened Money
  import opened Ledger
  import opened Compact
  import opened Params
  import opened Difficulty
  import opened MedianTime
  import opened Consensus
  import opened Supply
  import opened Invariant
  import opened Reachable
  import Merkle
  import Varint
  import Wire

  // ---- the first block ----

  /** A new node knows one block: height zero, no parent, the network's easiest bits, its fixed time and nonce, and a single
      coinbase that pays 50 coins to the null owner under the network's headline. */
  lemma {:induction false} GenesisMeans(r: Rules)
    ensures var s := Genesis(r);
            var h, txs := s.tip.block.header, s.tip.block.txs;
            && s.index == map[s.tip.id := s.tip] && s.mainIds == [s.tip.id] && s.mempool == map[] && s.tip.height == 0
            && s.tip.id == r.env.headerId(h)
            && h.version == 1 && h.prevBlock == ZERO_HASH && h.bits == r.p.maxTargetBits && h.time == r.p.genesisTime
            && h.nonce == r.p.genesisNonce && h.merkleRoot == Merkle.Root(r.env.pair, [r.env.txId(txs[0])])
            && s.tip.cumWork == Pow2(256) / (CompactToTarget(h.bits) + 1)
            && |txs| == 1 && txs[0].IsCoinbase() && txs[0].outs == [TxOut(5_000_000_000, ZERO_PKH)]
            && txs[0].lockTag == r.p.genesisHeadline
            && s.utxo == map[OutPoint(r.env.txId(txs[0]), 0) := Entry(5_000_000_000, ZERO_PKH, 0, true)]
  {
    hide Pow2, CompactToTarget, Merkle.Root, Varint.PutUvarint;
    var txs := Genesis(r).tip.block.txs;
    GenesisSubsidy();
    hide SubsidyAt;
    assert Merkle.TxIds(r.env, txs) == [r.env.txId(txs[0])];
    var outs, id := txs[0].outs, r.env.txId(txs[0]);
    assert AddOutputs(map[], id, outs, 1, 0, true) == AddOutputs(map[], id, outs, 0, 0, true)[OutPoint(id, 0) := Entry(5_000_000_000, ZERO_PKH, 0, true)];
    WorkOfBlock(Genesis(r).tip.block);
  }

  // ---- blocks ----

  /** The header's hash value meets the target its own bits spell out, and that target is one the network allows. */
  ghost predicate MeetsTarget(r: Rules, h: Header) {
    && 0 < CompactToTarget(h.bits) <= CompactToTarget(r.p.maxTargetBits)
    && r.env.pow(h) <= CompactToTarget(h.bits)
  }

  /** The clock allows a drift that shrinks at activation; the past bounds the time by the parent before activation and by the
      median of the last blocks after it. */
  ghost predicate TimeInBounds(p: Params, times: seq<int>, t: int, now: int)
    requires |times| > 0 && ValidConsensusParams(p)
  {
    if p.asertActivationHeight > 0 && |times| >= p.asertActivationHeight
    then MedianTimePast(times, p.asertMedianTimeBlocks) < t <= now + p.asertFutureDrift
    else times[|times| - 1] - p.futureDrift <= t <= now + p.futureDrift
  }

  lemma {:induction false} TimestampMeans(p: Params, times: seq<int>, t: int, now: int)
    requires |times| > 0 && ValidConsensusParams(p)
    ensures TimestampOk(p, times, t, now) <==> TimeInBounds(p, times, t, now)
  {
    hide MedianTimePast;
  }

  /** The header-level rules in one place, each against the block itself. */
  ghost predicate Lawful(r: Rules, path: seq<Indexed>, b: Block, now: int)
    requires UsableParams(r.p) && |path| > 0
  {
    && SaneTxs(r.env, b.txs)
    && |Wire.BlockBytes(b)| <= 1_000_000
    && TimeInBounds(r.p, Times(path), b.header.time, now)
    && b.header.bits == BranchBits(r.p, Headers(path))
    && b.header.merkleRoot == Merkle.Root(r.env.pair, Merkle.TxIds(r.env, b.txs))
  }

  lemma {:induction false} FaultIff(r: Rules, path: seq<Indexed>, b: Block, now: int, checkPow: bool)
    requires UsableParams(r.p) && |path| > 0
    ensures HeaderFault(r, path, b, now, checkPow).None? <==>
            Lawful(r, path, b, now) && (checkPow ==> MeetsTarget(r, b.header))
  {
    hide SaneTxs, BranchBits, TimestampOk, TimeInBounds, Wire.BlockBytes, Merkle.Root, CompactToTarget, Pow256;
    TimestampMeans(r.p, Times(path), b.header.time, now);
  }

  lemma {:induction false} SpentAt(txs: seq<Tx>, n: nat, t: nat, i: nat)
    requires 0 < t < n <= |txs| && i < |txs[t].ins|
    ensures |SpentIns(txs, t)| + i < |SpentIns(txs, t + 1)| <= |SpentIns(txs, n)|
    ensures SpentIns(txs, n)[|SpentIns(txs, t)| + i] == txs[t].ins[i]
    decreases n
  {
    assert SpentIns(txs, n) == SpentIns(txs, n - 1) + txs[n - 1].ins;
    if t < n - 1 {
      SpentAt(txs, n - 1, t, i);
    }
  }

  /** What sanity demands of a block's transactions: a coinbase first and nowhere else, inputs and positive in-range outputs in
      each, no id twice, and no outpoint spent twice, by one transaction or by two. */
  lemma {:induction false} SaneMeans(env: Env, txs: seq<Tx>, t: nat, i: nat, u: nat, j: nat)
    requires SaneTxs(env, txs) && t <= u < |txs|
    ensures txs[t].IsCoinbase() <==> t == 0
    ensures |txs[t].ins| > 0 && |txs[t].outs| > 0
    ensures forall k :: 0 <= k < |txs[t].outs| ==> 1 <= txs[t].outs[k].value <= 21_000_000 * 100_000_000
    ensures OutSum(txs[t].outs, |txs[t].outs|) <= 21_000_000 * 100_000_000
    ensures t != u ==> env.txId(txs[t]) != env.txId(txs[u])
    ensures 0 < t && i < |txs[t].ins| && j < |txs[u].ins| && (t < u || i < j) ==> txs[t].ins[i].prev != txs[u].ins[j].prev
  {
    hide OutSum, SpentIns;
    var n := |txs|;
    if 0 < t && i < |txs[t].ins| && j < |txs[u].ins| && (t < u || i < j) {
      SpentAt(txs, n, t, i);
      SpentAt(txs, n, u, j);
      if t < u {
        SpentGrows(txs, t + 1, u);
      }
      assert |SpentIns(txs, t)| + i < |SpentIns(txs, u)| + j;
    }
  }

  lemma {:induction false} SpentGrows(txs: seq<Tx>, m: nat, n: nat)
    requires m <= n <= |txs|
    ensures |SpentIns(txs, m)| <= |SpentIns(txs, n)|
  {
    if m < n {
      SpentGrows(txs, m, n - 1);
    }
  }

  ghost predicate Taken(out: Outcome) {
    out == Stored || out == NewTip
  }

  /** A block offered to a node is taken exactly when it is new, its parent is known, it obeys the header rules, it meets its
      target where that is checked, and its whole branch replays. It is then indexed one above its parent with its parent's work
      plus 2^256 / (target + 1), and becomes the tip exactly when that is more work than the tip has. */
  lemma {:induction false} BlockTakenIff(r: Rules, s: State, b: Block, now: int, checkPow: bool)
    requires UsableParams(r.p) && Linked(s.index)
    ensures var id, up := r.env.headerId(b.header), b.header.prevBlock;
            var (s', out) := AcceptBlock(r, s, b, now, checkPow);
            && (out == AlreadyKnown <==> id in s.index)
            && (out == Rejected(Orphan) <==> id !in s.index && up !in s.index)
            && (Taken(out) <==>
                  && id !in s.index && up in s.index
                  && var parent := s.index[up];
                  && Lawful(r, Branch(s.index, parent), b, now)
                  && (checkPow ==> MeetsTarget(r, b.header))
                  && Replay(r.env, r.p.coinbaseMaturity, Blocks(Branch(s.index, parent)) + [b]).Ok?)
            && (Taken(out) ==>
                  && up in s.index
                  && var parent := s.index[up];
                  && var work := parent.cumWork + Pow2(256) / (CompactToTarget(b.header.bits) + 1);
                  && s'.index == s.index[id := Indexed(b, parent.height + 1, work, id)]
                  && (out == NewTip <==> work > s.tip.cumWork)
                  && (out == NewTip ==>
                        && s'.tip == Indexed(b, parent.height + 1, work, id)
                        && s'.mainIds == Ids(Branch(s.index, parent)) + [id]
                        && Replay(r.env, r.p.coinbaseMaturity, Blocks(Branch(s.index, parent)) + [b]) == Ok(s'.utxo))
                  && (out == Stored ==> s' == s.(index := s'.index)))
            && (!Taken(out) ==> s' == s)
  {
    hide HeaderFault, Replay, UsableParams, Evict, Branch, Ids, Blocks, Lawful, MeetsTarget, CompactToTarget, Pow2;
    if r.env.headerId(b.header) !in s.index && b.header.prevBlock in s.index {
      var parent := s.index[b.header.prevBlock];
      var e := Child(r, parent, b);
      FaultIff(r, Branch(s.index, parent), b, now, checkPow);
      ChildPath(s.index, e, parent);
      OrphanOnlyFirst(r, Branch(s.index, parent), b, now, checkPow);
      WorkOfBlock(b);
    }
  }

  lemma {:induction false} WorkOfBlock(b: Block)
    ensures BlockWork(b) == Pow2(256) / (CompactToTarget(b.header.bits) + 1)
  {
    hide CompactToTarget, Pow2;
  }

  lemma {:induction false} OrphanOnlyFirst(r: Rules, path: seq<Indexed>, b: Block, now: int, checkPow: bool)
    requires UsableParams(r.p) && |path| > 0
    ensures HeaderFault(r, path, b, now, checkPow) != Some(Orphan)
  {
    hide SaneTxs, BranchBits, TimestampOk, Wire.BlockBytes, TxRoot, PowOk;
  }

  lemma {:induction false} ChildPath(ix: Index, e: Indexed, parent: Indexed)
    requires Linked(ix) && e.block.header.prevBlock in ix && ix[e.block.header.prevBlock] == parent && e.height == parent.height + 1
    ensures Branch(ix, e) == Branch(ix, parent) + [e]
    ensures Blocks(Branch(ix, e)) == Blocks(Branch(ix, parent)) + [e.block]
    ensures Ids(Branch(ix, e)) == Ids(Branch(ix, parent)) + [e.id]
  {
    BlocksLast(Branch(ix, parent), e);
  }

  // ---- proof of work over runs ----

  /** A block taken under the check meets its own target. */
  lemma {:induction false} TakenMeetsTarget(r: Rules, s: State, b: Block, now: int)
    requires UsableParams(r.p) && Linked(s.index) && Taken(AcceptBlock(r, s, b, now, true).1)
    ensures 0 < CompactToTarget(b.header.bits) <= CompactToTarget(r.p.maxTargetBits)
    ensures r.env.pow(b.header) <= CompactToTarget(b.header.bits)
  {
    hide AcceptBlock, Lawful, Replay, UsableParams, CompactToTarget, Branch;
    BlockTakenIff(r, s, b, now, true);
  }

  ghost predicate AllChecked(events: seq<Event>) {
    forall i :: 0 <= i < |events| && events[i].BlockArrives? ==> events[i].checkPow
  }

  /** In every run whose blocks all come from the network, every indexed block above genesis carries its proof of work. */
  lemma {:induction false} RunMeetsTargets(r: Rules, events: seq<Event>, id: Hash)
    requires UsableParams(r.p) && AllChecked(events)
    requires id in Run(r, events).index && Run(r, events).index[id].height > 0
    ensures var h := Run(r, events).index[id].block.header;
            && 0 < CompactToTarget(h.bits) <= CompactToTarget(r.p.maxTargetBits)
            && r.env.pow(h) <= CompactToTarget(h.bits)
  {
    hide AcceptBlock, AcceptTx, UsableParams, CompactToTarget, GenesisBlock, BlockWork, Linked;
    if events != [] {
      var prior, last := events[..|events| - 1], events[|events| - 1];
      var s := Run(r, prior);
      if id in s.index && s.index[id] == Run(r, events).index[id] {
        RunMeetsTargets(r, prior, id);
      } else {
        TxKeepsIndex(r, s, last);
        FreshEntry(r, s, last, id);
      }
    }
  }

  lemma {:induction false} TxKeepsIndex(r: Rules, s: State, ev: Event)
    requires UsableParams(r.p) && Linked(s.index)
    ensures ev.TxArrives? ==> Step(r, s, ev).index == s.index
  {
    hide AcceptBlock, UsableParams, Linked, CheckTx, Conflicts;
  }

  /** A step that changes an entry is a taken block, and the entry is that block's. */
  lemma {:induction false} FreshEntry(r: Rules, s: State, ev: Event, id: Hash)
    requires UsableParams(r.p) && Linked(s.index) && ev.BlockArrives? && ev.checkPow
    requires id in Step(r, s, ev).index && !(id in s.index && s.index[id] == Step(r, s, ev).index[id])
    ensures var h := Step(r, s, ev).index[id].block.header;
            && 0 < CompactToTarget(h.bits) <= CompactToTarget(r.p.maxTargetBits)
            && r.env.pow(h) <= CompactToTarget(h.bits)
  {
    hide AcceptBlock, Lawful, Replay, UsableParams, CompactToTarget, Branch, MeetsTarget, Linked, Pow2;
    BlockTakenIff(r, s, ev.block, ev.now, true);
    TakenMeetsTarget(r, s, ev.block, ev.now);
  }

  // ---- fork choice by total work ----

  /** At a reachable node a block taken becomes the tip exactly when its branch has more work in total than the main chain. */
  lemma {:induction false} TipByTotalWork(r: Rules, s: State, b: Block, now: int, checkPow: bool)
    requires UsableParams(r.p) && Reachable.Reachable(r, s)
    ensures Linked(s.index) && Attached(s.index, s.tip)
    ensures var out := AcceptBlock(r, s, b, now, checkPow).1;
            Taken(out) ==>
              && b.header.prevBlock in s.index
              && (out == NewTip <==>
                    WorkSum(Blocks(Branch(s.index, s.index[b.header.prevBlock])) + [b]) > WorkSum(Blocks(Branch(s.index, s.tip))))
  {
    hide Reachable.Reachable, AcceptBlock, UsableParams, Lawful, Replay, MeetsTarget, CompactToTarget, Branch, Pow2, EntryOk, MempoolOk, WorkSum, BlockWork;
    var clock := ReachableInv(r, s);
    WorkIsSum(r, s.index, s.tip, clock);
    BlockTakenIff(r, s, b, now, checkPow);
    if Taken(AcceptBlock(r, s, b, now, checkPow).1) {
      var parent := s.index[b.header.prevBlock];
      WorkIsSum(r, s.index, parent, clock);
      WorkSumLast(Blocks(Branch(s.index, parent)), b);
      WorkOfBlock(b);
    }
  }

  lemma {:induction false} WorkSumLast(blocks: seq<Block>, b: Block)
    ensures WorkSum(blocks + [b]) == WorkSum(blocks) + BlockWork(b)
  {
    hide BlockWork;
    SplitLast(blocks, b);
  }

  // ---- the mempool ----

  /** After a new tip the mempool is exactly what was in it and is still valid for the block after that tip. */
  lemma {:induction false} MempoolAfterTip(r: Rules, s: State, b: Block, now: int, checkPow: bool)
    requires UsableParams(r.p) && Linked(s.index) && AcceptBlock(r, s, b, now, checkPow).1 == NewTip
    ensures var s' := AcceptBlock(r, s, b, now, checkPow).0;
            && (forall id :: id in s'.mempool <==>
                  id in s.mempool && TxValid(r.env, r.p.coinbaseMaturity, s'.utxo, s.mempool[id], s'.tip.height + 1))
            && (forall id :: id in s'.mempool ==> s'.mempool[id] == s.mempool[id])
  {
    hide HeaderFault, Replay, UsableParams, Evict, Branch, Ids, Blocks, BlockWork, TxValid;
    var s' := AcceptBlock(r, s, b, now, checkPow).0;
    EvictIff(r, s.mempool, s'.utxo, s'.tip.height + 1);
  }

  lemma {:induction false} EvictIff(r: Rules, mempool: map<Hash, Tx>, utxo: Utxo, height: int)
    ensures var m := Evict(r, mempool, utxo, height);
            && (forall id :: id in m <==> id in mempool && TxValid(r.env, r.p.coinbaseMaturity, utxo, mempool[id], height))
            && (forall id :: id in m ==> m[id] == mempool[id])
  {
    hide CheckTx, TxValid;
    forall id | id in mempool
      ensures CheckTx(r.env, r.p.coinbaseMaturity, utxo, mempool[id], height).Ok?
              <==> TxValid(r.env, r.p.coinbaseMaturity, utxo, mempool[id], height) {
      CheckTxIff(r.env, r.p.coinbaseMaturity, utxo, mempool[id], height);
    }
  }

  /** Some pooled transaction already spends one of its inputs. */
  ghost predicate Competes(mempool: map<Hash, Tx>, tx: Tx) {
    exists id :: id in mempool && !Disjoint(mempool[id], tx)
  }

  /** A transaction is added exactly when it is no coinbase, is not pooled yet, competes with nothing pooled and is valid for the
      next block; it is reported as known exactly when it is pooled already. Nothing else changes. */
  lemma {:induction false} TxAddedIff(r: Rules, s: State, tx: Tx)
    ensures var id := r.env.txId(tx);
            var (s', out) := AcceptTx(r, s, tx);
            && (out == Added <==>
                  && !tx.IsCoinbase() && id !in s.mempool && !Competes(s.mempool, tx)
                  && TxValid(r.env, r.p.coinbaseMaturity, s.utxo, tx, s.tip.height + 1))
            && (out == TxKnown <==> !tx.IsCoinbase() && id in s.mempool)
            && s' == (if out == Added then s.(mempool := s.mempool[id := tx]) else s)
  {
    hide CheckTx, TxValid, Conflicts, Competes;
    CheckTxIff(r.env, r.p.coinbaseMaturity, s.utxo, tx, s.tip.height + 1);
    CompetesIff(s.mempool, tx);
  }

  lemma {:induction false} CompetesIff(mempool: map<Hash, Tx>, tx: Tx)
    ensures Conflicts(mempool, tx) <==> Competes(mempool, tx)
  {
    if Conflicts(mempool, tx) {
      var id, i, j :| id in mempool && 0 <= i < |mempool[id].ins| && 0 <= j < |tx.ins| && mempool[id].ins[i].prev == tx.ins[j].prev;
      assert !Disjoint(mempool[id], tx);
    } else {
      forall id | id in mempool ensures Disjoint(mempool[id], tx) {
        NoConflict(mempool, tx, id);
      }
    }
  }
}
