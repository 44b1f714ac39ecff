/** What every reachable chain state satisfies. */
module Invariant {
  import opened Types
  import opened Money
  import opened Ledger
  import opened Compact
  import opened Params
  import opened Difficulty
  import opened MedianTime
  import opened Consensus
  import opened Supply
  import Wire

  // ---- the invariant ----

  /** The header-level rules a non-genesis entry passed, judged by a clock not earlier than the one it met. */
  ghost predicate Vetted(r: Rules, ix: Index, e: Indexed, clock: int)
    requires UsableParams(r.p) && Linked(ix) && Attached(ix, e) && e.height > 0
  {
    HeaderFault(r, Branch(ix, ix[e.block.header.prevBlock]), e.block, clock, false).None?
  }

  ghost predicate BranchReplays(r: Rules, ix: Index, e: Indexed)
    requires Linked(ix) && Attached(ix, e)
  {
    Replay(r.env, r.p.coinbaseMaturity, Blocks(Branch(ix, e))).Ok?
  }

  ghost predicate EntryOk(r: Rules, ix: Index, e: Indexed, clock: int)
    requires UsableParams(r.p) && Linked(ix) && Attached(ix, e)
  {
    && e.id == r.env.headerId(e.block.header)
    && (e.height == 0 ==> e == GenesisEntry(r))
    && (e.height > 0 ==>
          && e.cumWork == ix[e.block.header.prevBlock].cumWork + BlockWork(e.block)
          && Vetted(r, ix, e, clock))
    && CompactToTarget(e.block.header.bits) <= MaxTarget(r.p)
    && BranchReplays(r, ix, e)
  }

  ghost predicate IndexOk(r: Rules, ix: Index, clock: int)
    requires UsableParams(r.p)
  {
    && Linked(ix)
    && GenesisEntry(r).id in ix
    && (forall id :: id in ix ==> ix[id].id == id && EntryOk(r, ix, ix[id], clock))
  }

  /** The live tip, main chain and UTXO set are those of the heaviest branch. */
  ghost predicate TipOk(r: Rules, s: State)
    requires Linked(s.index)
  {
    && s.tip.id in s.index && s.index[s.tip.id] == s.tip
    && s.mainIds == Ids(Branch(s.index, s.tip))
    && Replay(r.env, r.p.coinbaseMaturity, Blocks(Branch(s.index, s.tip))) == Ok(s.utxo)
    && (forall id :: id in s.index ==> s.index[id].cumWork <= s.tip.cumWork)
  }

  predicate Disjoint(a: Tx, b: Tx) {
    forall i, j :: 0 <= i < |a.ins| && 0 <= j < |b.ins| ==> a.ins[i].prev != b.ins[j].prev
  }

  /** Mempool transactions are each valid for the next block and never compete for an output. */
  ghost predicate MempoolOk(r: Rules, s: State) {
    && (forall id :: id in s.mempool ==>
          && r.env.txId(s.mempool[id]) == id
          && !s.mempool[id].IsCoinbase()
          && TxValid(r.env, r.p.coinbaseMaturity, s.utxo, s.mempool[id], s.tip.height + 1))
    && (forall id, id' :: id in s.mempool && id' in s.mempool && id != id' ==> Disjoint(s.mempool[id], s.mempool[id']))
  }

  ghost predicate Inv(r: Rules, s: State, clock: int)
    requires UsableParams(r.p)
  {
    IndexOk(r, s.index, clock) && TipOk(r, s) && MempoolOk(r, s)
  }

  // ---- branches under index growth ----

  lemma {:induction false} BranchStable(ix: Index, n: Indexed, e: Indexed)
    requires Linked(ix) && Attached(ix, e) && n.id !in ix
    requires Linked(ix[n.id := n])
    ensures Attached(ix[n.id := n], e)
    ensures Branch(ix[n.id := n], e) == Branch(ix, e)
    decreases e.height
  {
    if e.height > 0 {
      BranchStable(ix, n, ix[e.block.header.prevBlock]);
    }
  }

  lemma {:induction false} SplitLast<T>(a: seq<T>, x: T)
    ensures (a + [x])[..|a + [x]| - 1] == a && (a + [x])[|a + [x]| - 1] == x
  {
  }

  lemma {:induction false} BlocksLast(path: seq<Indexed>, e: Indexed)
    ensures Blocks(path + [e]) == Blocks(path) + [e.block]
    ensures Headers(path + [e]) == Headers(path) + [e.block.header]
    ensures Times(path + [e]) == Times(path) + [e.block.header.time]
    ensures Ids(path + [e]) == Ids(path) + [e.id]
  {
    SplitLast(path, e);
  }

  /** Prefixes of a branch are the branches of its members. */
  lemma {:induction false} BranchPrefix(ix: Index, e: Indexed, h: nat)
    requires Linked(ix) && Attached(ix, e) && h <= e.height
    ensures Branch(ix, e)[h].height == h && Attached(ix, Branch(ix, e)[h])
    ensures Branch(ix, e)[..h + 1] == Branch(ix, Branch(ix, e)[h])
    ensures h < e.height ==>
              Branch(ix, e)[h + 1].block.header.prevBlock in ix
              && ix[Branch(ix, e)[h + 1].block.header.prevBlock] == Branch(ix, e)[h]
    decreases e.height
  {
    var path := Branch(ix, e);
    if h == e.height {
      assert path[..h + 1] == path;
    } else {
      var parent := ix[e.block.header.prevBlock];
      BranchPrefix(ix, parent, h);
      assert path[..h + 1] == Branch(ix, parent)[..h + 1];
    }
  }

  /** One more block: the replay of the extended branch is the parent's replay plus that block. */
  lemma {:induction false} ReplayChild(r: Rules, ix: Index, e: Indexed)
    requires Linked(ix) && Attached(ix, e) && e.height > 0
    ensures Replay(r.env, r.p.coinbaseMaturity, Blocks(Branch(ix, e))) ==
            match Replay(r.env, r.p.coinbaseMaturity, Blocks(Branch(ix, ix[e.block.header.prevBlock])))
            case Err(error) => Err(error)
            case Ok(utxo) =>
              if !SaneTxs(r.env, e.block.txs) then Err(InsaneBlock)
              else ApplyBlock(r.env, r.p.coinbaseMaturity, utxo, e.block, e.height)
  {
    hide SaneTxs, ApplyBlock;
    var path := Branch(ix, ix[e.block.header.prevBlock]);
    BlocksLast(path, e);
    SplitLast(Blocks(path), e.block);
  }

  // ---- genesis ----

  lemma {:induction false} GenesisApplies(r: Rules)
    ensures SaneTxs(r.env, GenesisBlock(r).txs)
    ensures ApplyBlock(r.env, r.p.coinbaseMaturity, map[], GenesisBlock(r), 0) == Ok(Genesis(r).utxo)
  {
    hide SpendAndCreate, TxRoot, BlockWork;
    var txs := GenesisBlock(r).txs;
    GenesisSubsidy();
    assert OutSum(txs[0].outs, 1) == OutSum(txs[0].outs, 0) + SubsidyAt(0);
    CheckOutputsIff(txs[0].outs, 1);
  }

  lemma {:induction false} GenesisSubsidy()
    ensures SubsidyAt(0) == INITIAL_REWARD
  {
  }

  lemma {:induction false} GenesisReplays(r: Rules)
    ensures Replay(r.env, r.p.coinbaseMaturity, [GenesisBlock(r)]) == Ok(Genesis(r).utxo)
  {
    hide SaneTxs, ApplyBlock, GenesisBlock, Genesis;
    GenesisApplies(r);
    var blocks := [GenesisBlock(r)];
    assert blocks[..0] == [];
  }

  lemma {:induction false} GenesisEntryOk(r: Rules, clock: int)
    requires UsableParams(r.p)
    ensures Linked(Genesis(r).index)
    ensures EntryOk(r, Genesis(r).index, GenesisEntry(r), clock)
    ensures TipOk(r, Genesis(r))
  {
    hide GenesisBlock, SpendAndCreate, Replay, BlockWork, CompactToTarget, ValidConsensusParams, HeaderFault, Pow256;
    var s, e := Genesis(r), GenesisEntry(r);
    GenesisBits(r);
    assert Branch(s.index, e) == [e];
    assert Blocks([e]) == [e.block] && Ids([e]) == [e.id];
    GenesisReplays(r);
  }

  lemma {:induction false} GenesisInv(r: Rules, clock: int)
    requires UsableParams(r.p)
    ensures Inv(r, Genesis(r), clock)
  {
    hide GenesisBlock, SpendAndCreate, BlockWork, UsableParams, EntryOk, TipOk, TxValid;
    GenesisEntryOk(r, clock);
  }

  lemma {:induction false} GenesisBits(r: Rules)
    ensures GenesisBlock(r).header.bits == r.p.maxTargetBits
  {
    hide TxRoot, SubsidyAt;
  }

  // ---- one more block ----

  lemma {:induction false} FaultUnderLaterClock(r: Rules, path: seq<Indexed>, b: Block, now: int, clock: int, checkPow: bool)
    requires UsableParams(r.p) && |path| > 0 && now <= clock
    requires HeaderFault(r, path, b, now, checkPow).None?
    ensures HeaderFault(r, path, b, clock, false).None?
  {
    hide SaneTxs, BranchBits, TxRoot, MedianTimePast, MaxTarget, Pow256, Wire.BlockBytes;
    LaterClock(r.p, Times(path), b.header.time, now, clock);
  }

  lemma {:induction false} FaultFacts(r: Rules, path: seq<Indexed>, b: Block, now: int, checkPow: bool)
    requires UsableParams(r.p) && |path| > 0
    requires HeaderFault(r, path, b, now, checkPow).None?
    ensures SaneTxs(r.env, b.txs)
    ensures |Wire.BlockBytes(b)| <= MAX_BLOCK_BYTES
    ensures TimestampOk(r.p, Times(path), b.header.time, now)
    ensures b.header.bits == BranchBits(r.p, Headers(path))
    ensures TxRoot(r.env, b.txs) == b.header.merkleRoot
  {
    hide SaneTxs, BranchBits, TxRoot, TimestampOk, Wire.BlockBytes;
  }

  lemma {:induction false} ChildTargetWithinMax(r: Rules, path: seq<Indexed>, b: Block)
    requires UsableParams(r.p) && |path| > 0
    requires b.header.bits == BranchBits(r.p, Headers(path))
    requires CompactToTarget(path[|path| - 1].block.header.bits) <= MaxTarget(r.p)
    ensures CompactToTarget(b.header.bits) <= MaxTarget(r.p)
  {
    hide CompactToTarget, NextBits, UsableParams;
    BranchWithinMax(r.p, Headers(path));
  }

  lemma {:induction false} EntryStable(r: Rules, ix: Index, n: Indexed, e: Indexed, clock: int)
    requires UsableParams(r.p) && Linked(ix) && Linked(ix[n.id := n]) && n.id !in ix
    requires Attached(ix, e) && EntryOk(r, ix, e, clock)
    ensures Attached(ix[n.id := n], e) && EntryOk(r, ix[n.id := n], e, clock)
  {
    hide HeaderFault, Replay, BlockWork, CompactToTarget, MaxTarget, UsableParams, GenesisEntry, Branch;
    BranchStable(ix, n, e);
    if e.height > 0 {
      BranchStable(ix, n, ix[e.block.header.prevBlock]);
    }
  }

  lemma {:induction false} EntryIntro(r: Rules, ix: Index, parent: Indexed, b: Block, clock: int)
    requires UsableParams(r.p) && Linked(ix)
    requires b.header.prevBlock in ix && ix[b.header.prevBlock] == parent
    requires HeaderFault(r, Branch(ix, parent), b, clock, false).None?
    requires CompactToTarget(b.header.bits) <= MaxTarget(r.p)
    requires BranchReplays(r, ix, Child(r, parent, b))
    ensures EntryOk(r, ix, Child(r, parent, b), clock)
  {
    hide HeaderFault, BranchReplays, BlockWork, CompactToTarget, UsableParams, GenesisEntry, MaxTarget, Branch;
  }

  /** A block that passes every check is a good entry of the index it joins. */
  lemma {:induction false} NewEntryOk(r: Rules, ix: Index, parent: Indexed, b: Block, now: int, checkPow: bool, clock: int)
    requires UsableParams(r.p) && Linked(ix) && now <= clock
    requires b.header.prevBlock in ix && ix[b.header.prevBlock] == parent
    requires CompactToTarget(parent.block.header.bits) <= MaxTarget(r.p)
    requires HeaderFault(r, Branch(ix, parent), b, now, checkPow).None?
    requires BranchReplays(r, ix, Child(r, parent, b))
    ensures EntryOk(r, ix, Child(r, parent, b), clock)
  {
    hide HeaderFault, BranchReplays, BlockWork, CompactToTarget, UsableParams, GenesisEntry, MaxTarget, BranchBits, TimestampOk, EntryOk,
         Wire.BlockBytes, TxRoot, SaneTxs;
    var path := Branch(ix, parent);
    FaultFacts(r, path, b, now, checkPow);
    FaultUnderLaterClock(r, path, b, now, clock, checkPow);
    ChildTargetWithinMax(r, path, b);
    EntryIntro(r, ix, parent, b, clock);
  }

  lemma {:induction false} IndexOkExtend(r: Rules, ix: Index, e: Indexed, clock: int)
    requires UsableParams(r.p) && IndexOk(r, ix, clock) && e.id !in ix
    requires Attached(ix, e) && EntryOk(r, ix, e, clock)
    ensures IndexOk(r, ix[e.id := e], clock)
  {
    hide EntryOk, UsableParams, Attached, GenesisEntry;
    LinkedExtend(ix, e);
    var ix' := ix[e.id := e];
    forall id | id in ix' ensures Attached(ix', ix'[id]) && ix'[id].id == id && EntryOk(r, ix', ix'[id], clock) {
      EntryStable(r, ix, e, ix'[id], clock);
    }
  }

  lemma {:induction false} ParentTarget(r: Rules, ix: Index, id: Hash, clock: int)
    requires UsableParams(r.p) && IndexOk(r, ix, clock) && id in ix
    ensures CompactToTarget(ix[id].block.header.bits) <= MaxTarget(r.p)
  {
    hide CompactToTarget, UsableParams, Vetted, BranchReplays, GenesisEntry, BlockWork;
  }

  lemma {:induction false} EvictKeepsValid(r: Rules, s: State, utxo: Utxo, height: int)
    requires MempoolOk(r, s)
    ensures var m := Evict(r, s.mempool, utxo, height);
            && (forall id :: id in m ==>
                  id in s.mempool && m[id] == s.mempool[id]
                  && TxValid(r.env, r.p.coinbaseMaturity, utxo, m[id], height))
  {
    hide CheckTx, TxValid;
    forall id | id in Evict(r, s.mempool, utxo, height)
      ensures TxValid(r.env, r.p.coinbaseMaturity, utxo, s.mempool[id], height)
    {
      CheckTxIff(r.env, r.p.coinbaseMaturity, utxo, s.mempool[id], height);
    }
  }

  lemma {:induction false} AdoptTip(r: Rules, s: State, e: Indexed, utxo: Utxo)
    requires Linked(s.index) && Linked(s.index[e.id := e]) && TipOk(r, s) && e.id !in s.index
    requires Attached(s.index, e)
    requires Replay(r.env, r.p.coinbaseMaturity, Blocks(Branch(s.index, e))) == Ok(utxo)
    ensures Linked(Adopt(r, s, e, Branch(s.index, e), utxo).0.index)
    ensures TipOk(r, Adopt(r, s, e, Branch(s.index, e), utxo).0)
  {
    hide Replay, Evict, Branch, Ids, Blocks;
    BranchStable(s.index, e, e);
    BranchStable(s.index, e, s.tip);
  }

  lemma {:induction false} AdoptMempool(r: Rules, s: State, e: Indexed, path: seq<Indexed>, utxo: Utxo)
    requires MempoolOk(r, s)
    ensures MempoolOk(r, Adopt(r, s, e, path, utxo).0)
  {
    hide TxValid, Evict, Ids, Disjoint;
    EvictKeepsValid(r, s, utxo, e.height + 1);
  }

  lemma {:induction false} AdoptInv(r: Rules, s: State, e: Indexed, utxo: Utxo, clock: int)
    requires UsableParams(r.p) && Linked(s.index) && Attached(s.index, e) && e.id !in s.index
    requires Inv(r, s, clock) && EntryOk(r, s.index, e, clock)
    requires Replay(r.env, r.p.coinbaseMaturity, Blocks(Branch(s.index, e))) == Ok(utxo)
    ensures Inv(r, Adopt(r, s, e, Branch(s.index, e), utxo).0, clock)
  {
    hide IndexOk, TipOk, MempoolOk, EntryOk, UsableParams, Replay, Evict, Branch, Ids, Blocks, Attached;
    LinkedExtend(s.index, e);
    IndexOkExtend(r, s.index, e, clock);
    AdoptTip(r, s, e, utxo);
    AdoptMempool(r, s, e, Branch(s.index, e), utxo);
  }

  /** Accepting, storing, reorganising or rejecting a block keeps the invariant. */
  lemma {:induction false} AcceptBlockInv(r: Rules, s: State, b: Block, now: int, checkPow: bool, clock: int)
    requires UsableParams(r.p) && Inv(r, s, clock) && now <= clock
    ensures Inv(r, AcceptBlock(r, s, b, now, checkPow).0, clock)
  {
    hide HeaderFault, Replay, UsableParams, TipOk, MempoolOk, EntryOk, Adopt, BlockWork;
    if r.env.headerId(b.header) !in s.index && b.header.prevBlock in s.index {
      var parent := s.index[b.header.prevBlock];
      if HeaderFault(r, Branch(s.index, parent), b, now, checkPow).None? {
        var e := Child(r, parent, b);
        var replayed := Replay(r.env, r.p.coinbaseMaturity, Blocks(Branch(s.index, e)));
        if replayed.Ok? {
          ParentTarget(r, s.index, parent.id, clock);
          NewEntryOk(r, s.index, parent, b, now, checkPow, clock);
          AdoptInv(r, s, e, replayed.value, clock);
        }
      }
    }
  }

  // ---- one more transaction ----

  /** Admission keeps the mempool valid and free of competing spends. */
  lemma {:induction false} AcceptTxMempool(r: Rules, s: State, tx: Tx)
    requires MempoolOk(r, s)
    ensures MempoolOk(r, AcceptTx(r, s, tx).0)
  {
    hide CheckTx, TxValid, Disjoint, Conflicts;
    CheckTxIff(r.env, r.p.coinbaseMaturity, s.utxo, tx, s.tip.height + 1);
    if AcceptTx(r, s, tx).1 == Added {
      forall id | id in s.mempool ensures Disjoint(s.mempool[id], tx) && Disjoint(tx, s.mempool[id]) {
        NoConflict(s.mempool, tx, id);
      }
    }
  }

  lemma {:induction false} AcceptTxInv(r: Rules, s: State, tx: Tx, clock: int)
    requires UsableParams(r.p) && Inv(r, s, clock)
    ensures Inv(r, AcceptTx(r, s, tx).0, clock)
  {
    hide CheckTx, Conflicts, UsableParams, IndexOk, Linked, MempoolOk;
    AcceptTxMempool(r, s, tx);
  }

  lemma {:induction false} NoConflict(mempool: map<Hash, Tx>, tx: Tx, id: Hash)
    requires !Conflicts(mempool, tx) && id in mempool
    ensures Disjoint(mempool[id], tx) && Disjoint(tx, mempool[id])
  {
  }

  // ---- whole runs ----

  ghost predicate ClockBounds(events: seq<Event>, clock: int) {
    forall i :: 0 <= i < |events| && events[i].BlockArrives? ==> events[i].now <= clock
  }

  /** The invariant holds after every sequence of blocks and transactions, valid or not, in any order. */
  lemma {:induction false} RunInv(r: Rules, events: seq<Event>, clock: int)
    requires UsableParams(r.p) && ClockBounds(events, clock)
    ensures Inv(r, Run(r, events), clock)
  {
    hide Inv, UsableParams, AcceptBlock, AcceptTx, Genesis;
    if events == [] {
      GenesisInv(r, clock);
    } else {
      var prior := events[..|events| - 1];
      RunInv(r, prior, clock);
      match events[|events| - 1]
      case BlockArrives(b, now, checkPow) => AcceptBlockInv(r, Run(r, prior), b, now, checkPow, clock);
      case TxArrives(tx) => AcceptTxInv(r, Run(r, prior), tx, clock);
    }
  }
}
