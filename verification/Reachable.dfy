/** Consequences of the invariant for every state a node can reach. */
module Reachable {
  import opened Types
  import opened Money
  import opened Ledger
  import opened Compact
  import opened Params
  import opened Difficulty
  import opened MedianTime
  import opened Consensus
  import opened Supply
  import opened Invariant

  /** A clock reading no earlier than any the run met. */
  ghost function LatestClock(events: seq<Event>): int {
    if events == [] then 0
    else
      var earlier := LatestClock(events[..|events| - 1]);
      var last := events[|events| - 1];
      if last.BlockArrives? && last.now > earlier then last.now else earlier
  }

  lemma {:induction false} LatestClockBounds(events: seq<Event>)
    ensures ClockBounds(events, LatestClock(events))
  {
    if events != [] {
      LatestClockBounds(events[..|events| - 1]);
    }
  }

  ghost predicate Reachable(r: Rules, s: State)
    requires UsableParams(r.p)
  {
    exists events :: s == Run(r, events)
  }

  lemma {:induction false} ReachableInv(r: Rules, s: State) returns (clock: int)
    requires UsableParams(r.p) && Reachable(r, s)
    ensures Inv(r, s, clock)
  {
    hide UsableParams, Inv, Run;
    var events :| s == Run(r, events);
    clock := LatestClock(events);
    LatestClockBounds(events);
    RunInv(r, events, clock);
  }

  // ---- branches of a good index ----

  lemma {:induction false} BranchMembers(r: Rules, ix: Index, e: Indexed, h: nat, clock: int)
    requires UsableParams(r.p) && IndexOk(r, ix, clock)
    requires e.id in ix && ix[e.id] == e && h <= e.height
    ensures Attached(ix, e)
    ensures Branch(ix, e)[h].id in ix && ix[Branch(ix, e)[h].id] == Branch(ix, e)[h]
    decreases e.height
  {
    hide EntryOk, UsableParams, GenesisEntry;
    if h < e.height {
      BranchMembers(r, ix, ix[e.block.header.prevBlock], h, clock);
    }
  }

  /** Every branch starts at the network's genesis block. */
  lemma {:induction false} BranchFromGenesis(r: Rules, ix: Index, e: Indexed, clock: int)
    requires UsableParams(r.p) && IndexOk(r, ix, clock)
    requires e.id in ix && ix[e.id] == e
    ensures Attached(ix, e) && Branch(ix, e)[0] == GenesisEntry(r)
  {
    hide Vetted, BranchReplays, UsableParams, GenesisEntry, BlockWork, CompactToTarget;
    BranchMembers(r, ix, e, 0, clock);
    BranchPrefix(ix, e, 0);
  }

  // ---- fork choice ----

  ghost function WorkSum(blocks: seq<Block>): nat {
    if blocks == [] then 0 else WorkSum(blocks[..|blocks| - 1]) + BlockWork(blocks[|blocks| - 1])
  }

  lemma {:induction false} EntryWork(r: Rules, ix: Index, id: Hash, clock: int)
    requires UsableParams(r.p) && IndexOk(r, ix, clock) && id in ix
    ensures var e := ix[id];
            && BlockWork(e.block) >= 1
            && (e.height == 0 ==> e.cumWork == BlockWork(e.block))
            && (e.height > 0 ==> e.cumWork == ix[e.block.header.prevBlock].cumWork + BlockWork(e.block))
  {
    hide Vetted, BranchReplays, UsableParams, CompactToTarget, WorkFromTarget, MaxTarget, Branch;
    var e := ix[id];
    assert EntryOk(r, ix, e, clock);
    RequiredWorkPositive(r.p, e.block.header.bits);
  }

  /** An entry's recorded work is the sum over its branch, and every block adds at least one unit. */
  lemma {:induction false} WorkIsSum(r: Rules, ix: Index, e: Indexed, clock: int)
    requires UsableParams(r.p) && IndexOk(r, ix, clock)
    requires e.id in ix && ix[e.id] == e
    ensures Attached(ix, e) && e.cumWork == WorkSum(Blocks(Branch(ix, e))) && e.cumWork >= e.height + 1
    decreases e.height
  {
    hide EntryOk, UsableParams, BlockWork;
    EntryWork(r, ix, e.id, clock);
    if e.height == 0 {
      assert Blocks(Branch(ix, e)) == [e.block];
      assert [e.block][..0] == [];
    } else {
      var parent := ix[e.block.header.prevBlock];
      WorkIsSum(r, ix, parent, clock);
      BlocksLast(Branch(ix, parent), e);
      SplitLast(Blocks(Branch(ix, parent)), e.block);
    }
  }

  /** What accepting a block does to the tip. */
  lemma {:induction false} TipOutcome(r: Rules, s: State, b: Block, now: int, checkPow: bool)
    requires UsableParams(r.p) && Linked(s.index)
    ensures var (s', out) := AcceptBlock(r, s, b, now, checkPow);
            if out == NewTip then s'.tip.block == b && s'.tip.cumWork > s.tip.cumWork
            else s'.tip == s.tip && s'.mainIds == s.mainIds && s'.utxo == s.utxo && s'.mempool == s.mempool
    ensures AcceptBlock(r, s, b, now, checkPow).1.Rejected? ==> AcceptBlock(r, s, b, now, checkPow).0 == s
  {
    hide HeaderFault, Replay, UsableParams, Evict, BlockWork, Branch, Ids, Blocks;
  }

  /** The tip is the heaviest block known, and a tip change strictly raises its work. */
  lemma {:induction false} ForkChoice(r: Rules, s: State, b: Block, now: int, checkPow: bool)
    requires UsableParams(r.p) && Reachable(r, s)
    ensures Linked(s.index)
    ensures forall id :: id in s.index ==> s.index[id].cumWork <= s.tip.cumWork
    ensures var (s', out) := AcceptBlock(r, s, b, now, checkPow);
            if out == NewTip then s'.tip.block == b && s'.tip.cumWork > s.tip.cumWork
            else s'.tip == s.tip && s'.mainIds == s.mainIds && s'.utxo == s.utxo && s'.mempool == s.mempool
    ensures AcceptBlock(r, s, b, now, checkPow).1.Rejected? ==> AcceptBlock(r, s, b, now, checkPow).0 == s
  {
    hide Reachable, AcceptBlock, Replay, UsableParams, MempoolOk, EntryOk, Branch;
    var clock := ReachableInv(r, s);
    TipOutcome(r, s, b, now, checkPow);
  }

  // ---- supply ----

  /** Coins in existence never exceed what the subsidy schedule minted, nor the 21 million cap. */
  lemma {:induction false} ReachableSupply(r: Rules, s: State)
    requires UsableParams(r.p) && Reachable(r, s)
    ensures Positive(s.utxo)
    ensures Total(s.utxo) <= MintedBy(s.tip.height + 1) <= MAX_MONEY
  {
    hide Reachable, UsableParams, EntryOk, MempoolOk, Replay;
    var clock := ReachableInv(r, s);
    ReplaySupply(r.env, r.p.coinbaseMaturity, Blocks(Branch(s.index, s.tip)));
  }

  /** In a reachable state no transaction and no block on top of the tip can trip a total-range error:
      input value, input total, fee, aggregate fees, or subsidy plus fees. */
  lemma {:induction false} RangeErrorsUnreachable(r: Rules, s: State, tx: Tx, b: Block)
    requires UsableParams(r.p) && Reachable(r, s) && |b.txs| > 0
    ensures var checked := CheckTx(r.env, r.p.coinbaseMaturity, s.utxo, tx, s.tip.height + 1);
            checked.Err? ==> !RangeError(checked.error)
    ensures var applied := ApplyBlock(r.env, r.p.coinbaseMaturity, s.utxo, b, s.tip.height + 1);
            applied.Err? ==> !RangeError(applied.error)
  {
    hide Reachable, UsableParams, CheckTx, ApplyBlock, RangeError;
    ReachableSupply(r, s);
    NoTxRangeError(r.env, r.p.coinbaseMaturity, s.utxo, tx, s.tip.height + 1);
    NoBlockRangeError(r.env, r.p.coinbaseMaturity, s.utxo, b, s.tip.height + 1);
  }

  /** Nor can any block offered to a reachable node, on whatever branch it would extend. */
  lemma {:induction false} NoRangeRejection(r: Rules, s: State, b: Block, now: int, checkPow: bool)
    requires UsableParams(r.p) && Reachable(r, s)
    ensures Linked(s.index)
    ensures match AcceptBlock(r, s, b, now, checkPow).1
            case Rejected(BadBranch(error)) => !RangeError(error)
            case _ => true
  {
    hide Reachable, UsableParams, HeaderFault, Replay, RangeError, Evict, Ids, MempoolOk, EntryOk, Branch, BlockWork;
    var clock := ReachableInv(r, s);
    if r.env.headerId(b.header) !in s.index && b.header.prevBlock in s.index {
      FaultBeforeBranch(r, Branch(s.index, s.index[b.header.prevBlock]), b, now, checkPow);
      NoRangeOnBranch(r, s.index, Child(r, s.index[b.header.prevBlock], b), clock);
    }
  }

  lemma {:induction false} FaultBeforeBranch(r: Rules, path: seq<Indexed>, b: Block, now: int, checkPow: bool)
    requires UsableParams(r.p) && |path| > 0
    ensures HeaderFault(r, path, b, now, checkPow).Some? ==> !HeaderFault(r, path, b, now, checkPow).value.BadBranch?
  {
    hide SaneTxs, BranchBits, TxRoot, TimestampOk, PowOk, UsableParams;
  }

  lemma {:induction false} IndexedReplays(r: Rules, ix: Index, id: Hash, clock: int)
    requires UsableParams(r.p) && IndexOk(r, ix, clock) && id in ix
    ensures Replay(r.env, r.p.coinbaseMaturity, Blocks(Branch(ix, ix[id]))).Ok?
  {
    hide UsableParams, Vetted, Replay, Branch, Blocks, GenesisEntry, BlockWork, CompactToTarget;
  }

  lemma {:induction false} NoRangeOnBranch(r: Rules, ix: Index, e: Indexed, clock: int)
    requires UsableParams(r.p) && IndexOk(r, ix, clock) && Attached(ix, e) && e.height > 0
    ensures var replayed := Replay(r.env, r.p.coinbaseMaturity, Blocks(Branch(ix, e)));
            replayed.Err? ==> !RangeError(replayed.error)
  {
    hide UsableParams, Replay, ApplyBlock, SaneTxs, Branch, Blocks, EntryOk, Total, MintedBy, Positive;
    var parent := ix[e.block.header.prevBlock];
    IndexedReplays(r, ix, parent.id, clock);
    var blocks := Blocks(Branch(ix, parent));
    ReplayChild(r, ix, e);
    ReplaySupply(r.env, r.p.coinbaseMaturity, blocks);
    if SaneTxs(r.env, e.block.txs) {
      SaneNonempty(r.env, e.block.txs);
      NoBlockRangeError(r.env, r.p.coinbaseMaturity, Replay(r.env, r.p.coinbaseMaturity, blocks).value, e.block, e.height);
    }
  }

  // ---- median time past ----

  lemma {:induction false} BranchTimesAccepted(r: Rules, ix: Index, e: Indexed, clock: int)
    requires UsableParams(r.p) && IndexOk(r, ix, clock)
    requires e.id in ix && ix[e.id] == e
    ensures Attached(ix, e) && AcceptedTimes(r.p, Times(Branch(ix, e)))
  {
    hide TimestampOk, MaxTarget, Pow256, Blocks, Branch, Times;
    var path := Branch(ix, e);
    forall i | 0 < i < |path| ensures AcceptedAt(r.p, Times(path), i) {
      EntryTimeAccepted(r, ix, e, i, clock);
    }
  }

  lemma {:induction false} EntryTime(r: Rules, ix: Index, id: Hash, clock: int)
    requires UsableParams(r.p) && IndexOk(r, ix, clock) && id in ix && ix[id].height > 0
    ensures TimestampOk(r.p, Times(Branch(ix, ix[ix[id].block.header.prevBlock])), ix[id].block.header.time, clock)
  {
    hide TimestampOk, HeaderFault, MaxTarget, Times, BranchReplays, GenesisEntry, BlockWork, CompactToTarget, UsableParams, Branch;
    var e := ix[id];
    assert EntryOk(r, ix, e, clock);
    FaultFacts(r, Branch(ix, ix[e.block.header.prevBlock]), e.block, clock, false);
  }

  lemma {:induction false} EntryTimeAccepted(r: Rules, ix: Index, e: Indexed, i: nat, clock: int)
    requires UsableParams(r.p) && IndexOk(r, ix, clock)
    requires e.id in ix && ix[e.id] == e && 0 < i <= e.height
    ensures Attached(ix, e) && AcceptedAt(r.p, Times(Branch(ix, e)), i)
  {
    hide TimestampOk, EntryOk, UsableParams, Branch, Times;
    var path := Branch(ix, e);
    BranchMembers(r, ix, e, i, clock);
    BranchPrefix(ix, e, i);
    BranchPrefix(ix, e, i - 1);
    EntryTime(r, ix, path[i].id, clock);
    assert Branch(ix, path[i - 1]) == path[..i];
    assert Times(path[..i]) == Times(path)[..i];
  }

  /** On every branch of a reachable index the median time past is non-decreasing from ASERT activation on. */
  lemma {:induction false} MedianTimeMonotone(r: Rules, s: State, id: Hash, i: nat, j: nat)
    requires UsableParams(r.p) && Reachable(r, s) && r.p.asertActivationHeight > 0
    requires id in s.index && r.p.asertActivationHeight <= i <= j <= s.index[id].height + 1
    ensures Linked(s.index)
    ensures PastMedian(r.p, Times(Branch(s.index, s.index[id])), i)
         <= PastMedian(r.p, Times(Branch(s.index, s.index[id])), j)
  {
    hide Reachable, PastMedian, EntryOk, MaxTarget, Pow256, TipOk, MempoolOk, AcceptedTimes, Times;
    var clock := ReachableInv(r, s);
    BranchTimesAccepted(r, s.index, s.index[id], clock);
    MedianMonotoneOnBranch(r.p, Times(Branch(s.index, s.index[id])), i, j);
  }
}
