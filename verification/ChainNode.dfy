/** The node's chain object (core/chain.go): fields updated in place, a fast path for tip extension with
    an undo log, and a slow path that replays a branch on a scratch object. Each operation is proved to
    compute the simple form in `Consensus`. */
module ChainNode {
  import opened Types
  import opened Money
  import opened Ledger
  import opened Compact
  import opened Params
  import opened Difficulty
  import opened MedianTime
  import opened Consensus
  import opened Invariant
  import opened Reachable
  import opened UndoLog
  import opened BlockSanity
  import Merkle
  import Wire

  lemma {:induction false} InputErrorSticks(env: Env, maturity: int, utxo: Utxo, tx: Tx, k: nat, n: nat, height: int)
    requires k <= n <= |tx.ins| && CheckInputs(env, maturity, utxo, tx, k, height).Err?
    ensures CheckInputs(env, maturity, utxo, tx, n, height) == CheckInputs(env, maturity, utxo, tx, k, height)
  {
    if k < n {
      InputErrorSticks(env, maturity, utxo, tx, k, n - 1, height);
    }
  }

  lemma {:induction false} TxErrorSticks(env: Env, maturity: int, u: Utxo, txs: seq<Tx>, k: nat, n: nat, height: int)
    requires k <= n <= |txs| && ApplyTxs(env, maturity, u, txs, k, height).Err?
    ensures ApplyTxs(env, maturity, u, txs, n, height) == ApplyTxs(env, maturity, u, txs, k, height)
  {
    hide CheckTx, SpendAndCreate;
    if k < n {
      TxErrorSticks(env, maturity, u, txs, k, n - 1, height);
    }
  }

  // ---- looking ancestors up ----

  /** The walk `ancestorAt` makes: follow parents down to the wanted height. */
  function Ancestor(ix: Index, e: Indexed, h: nat): Indexed
    requires Linked(ix) && Attached(ix, e) && h <= e.height
    decreases e.height
  {
    if e.height == h then e else Ancestor(ix, ix[e.block.header.prevBlock], h)
  }

  lemma {:induction false} AncestorOnBranch(ix: Index, e: Indexed, h: nat)
    requires Linked(ix) && Attached(ix, e) && h <= e.height
    ensures Ancestor(ix, e, h) == Branch(ix, e)[h]
    decreases e.height
  {
    if h < e.height {
      AncestorOnBranch(ix, ix[e.block.header.prevBlock], h);
    }
  }

  function MainBits(ix: Index, ids: seq<Hash>): nat --> U32 {
    (h: nat) requires h < |ids| && ids[h] in ix => ix[ids[h]].block.header.bits
  }

  function MainTime(ix: Index, ids: seq<Hash>): nat --> I64 {
    (h: nat) requires h < |ids| && ids[h] in ix => ix[ids[h]].block.header.time
  }

  function AncestorBits(ix: Index, e: Indexed): nat --> U32
    requires Linked(ix) && Attached(ix, e)
  {
    (h: nat) requires h <= e.height => Ancestor(ix, e, h).block.header.bits
  }

  function AncestorTime(ix: Index, e: Indexed): nat --> I64
    requires Linked(ix) && Attached(ix, e)
  {
    (h: nat) requires h <= e.height => Ancestor(ix, e, h).block.header.time
  }

  /** The main-chain array names indexed blocks along the tip's branch. */
  ghost predicate MainIndexed(ix: Index, ids: seq<Hash>, tip: Indexed) {
    && Linked(ix) && Attached(ix, tip)
    && |ids| == tip.height + 1
    && (forall h :: 0 <= h <= tip.height ==> ids[h] in ix && ix[ids[h]] == Branch(ix, tip)[h])
  }

  lemma {:induction false} MainAccessors(r: Rules, ix: Index, ids: seq<Hash>, tip: Indexed, height: nat)
    requires UsableParams(r.p) && MainIndexed(ix, ids, tip) && height == tip.height + 1
    ensures forall h: nat :: h < height ==> MainBits(ix, ids).requires(h)
    ensures forall h: nat :: h < height ==> MainTime(ix, ids).requires(h)
    ensures NextBits(r.p, height, MainBits(ix, ids), MainTime(ix, ids)) == BranchBits(r.p, Headers(Branch(ix, tip)))
  {
    hide NextBits, UsableParams, BranchBits, Branch;
    SameAccessors(r.p, height, MainBits(ix, ids), MainTime(ix, ids), Headers(Branch(ix, tip)));
  }

  lemma {:induction false} AncestorAccessors(r: Rules, ix: Index, e: Indexed, height: nat)
    requires UsableParams(r.p) && Linked(ix) && Attached(ix, e) && height == e.height + 1
    ensures forall h: nat :: h < height ==> AncestorBits(ix, e).requires(h)
    ensures forall h: nat :: h < height ==> AncestorTime(ix, e).requires(h)
    ensures NextBits(r.p, height, AncestorBits(ix, e), AncestorTime(ix, e)) == BranchBits(r.p, Headers(Branch(ix, e)))
  {
    hide NextBits, UsableParams, BranchBits, Branch;
    forall h: nat | h < height ensures Ancestor(ix, e, h) == Branch(ix, e)[h] {
      AncestorOnBranch(ix, e, h);
    }
    SameAccessors(r.p, height, AncestorBits(ix, e), AncestorTime(ix, e), Headers(Branch(ix, e)));
  }

  lemma {:induction false} MedianOfReversed(a: seq<int>, times: seq<int>, n: nat)
    requires |times| > 0 && n > 0 && |a| == |Window(times, n)|
    requires forall i :: 0 <= i < |a| ==> a[i] == times[|times| - 1 - i]
    ensures |a| > 0 && Median(a) == MedianTimePast(times, n)
  {
    ReversedSorts(a, Window(times, n));
  }

  method ComputeTxRoot(env: Env, txs: seq<Tx>) returns (root: Hash)
    ensures root == TxRoot(env, txs)
  {
    root := Merkle.ComputeRoot(env, txs);
  }

  lemma {:induction false} VettedSane(r: Rules, path: seq<Indexed>, b: Block, now: int, checkPow: bool)
    requires UsableParams(r.p) && |path| > 0 && HeaderFault(r, path, b, now, checkPow).None?
    ensures SaneTxs(r.env, b.txs) && |b.txs| > 0
  {
    hide TimestampOk, BranchBits, TxRoot, PowOk, UsableParams;
  }

  // ---- replay, block by block ----

  lemma {:induction false} ReplayNext(env: Env, maturity: int, blocks: seq<Block>, h: nat)
    requires h < |blocks| && Replay(env, maturity, blocks[..h]).Ok?
    ensures Replay(env, maturity, blocks[..h + 1]) ==
            if !SaneTxs(env, blocks[h].txs) then Err(InsaneBlock)
            else ApplyBlock(env, maturity, Replay(env, maturity, blocks[..h]).value, blocks[h], h)
  {
    hide SaneTxs, ApplyBlock;
    assert blocks[..h + 1][..h] == blocks[..h];
  }

  lemma {:induction false} ReplayNothing(env: Env, maturity: int)
    ensures Replay(env, maturity, []) == Ok(map[])
  {
  }

  lemma {:induction false} ReplayErrorSticks(env: Env, maturity: int, blocks: seq<Block>, k: nat, n: nat)
    requires k <= n <= |blocks| && Replay(env, maturity, blocks[..k]).Err?
    ensures Replay(env, maturity, blocks[..n]) == Replay(env, maturity, blocks[..k])
  {
    hide SaneTxs, ApplyBlock;
    if k < n {
      ReplayErrorSticks(env, maturity, blocks, k, n - 1);
      assert blocks[..n][..n - 1] == blocks[..n - 1];
    }
  }

  /** On a good state, replaying a tip extension from genesis is applying one block to the live set:
      the fast path and the slow path agree. */
  lemma {:induction false} ReplayOnTip(r: Rules, s: State, e: Indexed, clock: int)
    requires UsableParams(r.p) && Linked(s.index) && Attached(s.index, e) && Inv(r, s, clock)
    requires e.height > 0 && SaneTxs(r.env, e.block.txs) && |e.block.txs| > 0
    ensures s.index[e.block.header.prevBlock] == s.tip ==>
              && Replay(r.env, r.p.coinbaseMaturity, Blocks(Branch(s.index, e)))
                 == ApplyBlock(r.env, r.p.coinbaseMaturity, s.utxo, e.block, e.height)
              && Ids(Branch(s.index, e)) == s.mainIds + [e.id]
  {
    hide SaneTxs, ApplyBlock, UsableParams, IndexOk, MempoolOk, Replay, Blocks, Ids;
    ReplayChild(r, s.index, e);
    BlocksLast(Branch(s.index, s.index[e.block.header.prevBlock]), e);
  }

  /** What the operations use of the invariant. */
  lemma {:induction false} InvParts(r: Rules, s: State, clock: int)
    requires UsableParams(r.p) && Inv(r, s, clock)
    ensures Linked(s.index) && TipOk(r, s)
    ensures forall id :: id in s.index ==> s.index[id].id == id
    ensures MainIndexed(s.index, s.mainIds, s.tip)
  {
    hide EntryOk, UsableParams, MempoolOk, Branch, Ids, GenesisEntry, Replay, Blocks;
    forall h | 0 <= h <= s.tip.height
      ensures s.mainIds[h] in s.index && s.index[s.mainIds[h]] == Branch(s.index, s.tip)[h]
    {
      BranchMembers(r, s.index, s.tip, h, clock);
    }
  }

  /** The entry at height `h` of a branch is consistent with its neighbours. */
  ghost predicate SoundAt(r: Rules, path: seq<Indexed>, h: nat)
    requires h < |path|
  {
    var e := path[h];
    && e.height == h
    && r.env.headerId(e.block.header) == e.id
    && e.cumWork > 0
    && TxRoot(r.env, e.block.txs) == e.block.header.merkleRoot
    && (h == 0 ==> e.block == GenesisBlock(r) && e.cumWork == BlockWork(e.block))
    && (h > 0 ==> e.block.header.prevBlock == path[h - 1].id && e.cumWork == path[h - 1].cumWork + BlockWork(e.block))
  }

  lemma {:induction false} SequenceFacts(r: Rules, s: State, clock: int)
    requires UsableParams(r.p) && Inv(r, s, clock) && Linked(s.index) && Attached(s.index, s.tip)
    ensures forall h :: 0 <= h <= s.tip.height ==> SoundAt(r, Branch(s.index, s.tip), h)
    ensures s.tip.cumWork > 0
  {
    hide UsableParams, EntryOk, MempoolOk, Branch, SoundAt, Replay, Ids, Blocks, GenesisEntry;
    forall h | 0 <= h <= s.tip.height ensures SoundAt(r, Branch(s.index, s.tip), h) {
      EntrySound(r, s.index, s.tip, h, clock);
    }
    WorkIsSum(r, s.index, s.tip, clock);
  }

  /** What the invariant says of one entry on its own. */
  lemma {:induction false} EntryFacts(r: Rules, ix: Index, id: Hash, clock: int)
    requires UsableParams(r.p) && IndexOk(r, ix, clock) && Linked(ix) && id in ix
    ensures var m := ix[id];
            && r.env.headerId(m.block.header) == m.id == id
            && TxRoot(r.env, m.block.txs) == m.block.header.merkleRoot
            && (m.height == 0 ==> m == GenesisEntry(r))
            && (m.height > 0 ==> m.cumWork == ix[m.block.header.prevBlock].cumWork + BlockWork(m.block))
  {
    hide UsableParams, HeaderFault, BranchReplays, BlockWork, CompactToTarget, TxRoot, GenesisBlock;
    var m := ix[id];
    assert EntryOk(r, ix, m, clock);
    if m.height > 0 {
      FaultFacts(r, Branch(ix, ix[m.block.header.prevBlock]), m.block, clock, false);
    } else {
      GenesisRoot(r);
    }
  }

  lemma {:induction false} EntrySound(r: Rules, ix: Index, e: Indexed, h: nat, clock: int)
    requires UsableParams(r.p) && IndexOk(r, ix, clock) && Linked(ix) && Attached(ix, e)
    requires e.id in ix && ix[e.id] == e && h <= e.height
    ensures SoundAt(r, Branch(ix, e), h)
  {
    hide UsableParams, IndexOk, BlockWork, TxRoot, Branch, GenesisBlock, Linked;
    var path := Branch(ix, e);
    BranchMembers(r, ix, e, h, clock);
    BranchPrefix(ix, e, h);
    EntryFacts(r, ix, path[h].id, clock);
    WorkIsSum(r, ix, path[h], clock);
    if h > 0 {
      BranchPrefix(ix, e, h - 1);
      BranchMembers(r, ix, e, h - 1, clock);
      EntryFacts(r, ix, path[h].block.header.prevBlock, clock);
    }
  }

  lemma {:induction false} GenesisRoot(r: Rules)
    ensures TxRoot(r.env, GenesisBlock(r).txs) == GenesisBlock(r).header.merkleRoot
  {
    hide TxRoot, SubsidyAt;
  }

  class Chain {
    const rules: Rules
    var index: Index
    var tip: Indexed
    var mainIds: seq<Hash>
    var utxo: Utxo
    var mempool: map<Hash, Tx>

    ghost function Abs(): State
      reads this
    {
      State(index, tip, mainIds, utxo, mempool)
    }

    /** An isolated object with an empty UTXO set, for replaying a branch. */
    constructor Scratch(rules: Rules)
      ensures this.rules == rules && utxo == map[]
    {
      this.rules := rules;
      index, mainIds, utxo, mempool := map[], [], map[], map[];
      tip := Indexed(Block(Header(0, ZERO_HASH, ZERO_HASH, 0, 0, 0), []), 0, 0, ZERO_HASH);
    }

    constructor AtGenesis(rules: Rules)
      ensures this.rules == rules && Abs() == Genesis(rules)
    {
      this.rules := rules;
      var e := GenesisEntry(rules);
      index := map[e.id := e];
      tip := e;
      mainIds := [e.id];
      utxo := SpendAndCreate(rules.env, map[], e.block.txs[0], 0, true);
      mempool := map[];
    }

    /** `NewChain`: refuses parameters that are inconsistent or whose genesis lacks its proof of work. */
    static method NewChain(r: Rules) returns (c: Chain?)
      ensures c != null <==> ValidConsensusParams(r.p) && PowOk(r, GenesisBlock(r).header)
      ensures c != null ==> fresh(c) && c.rules == r && c.Abs() == Genesis(r)
    {
      hide PowOk, GenesisBlock;
      if !ValidConsensusParams(r.p) {
        return null;
      }
      if !PowOk(r, GenesisBlock(r).header) {
        return null;
      }
      c := new Chain.AtGenesis(r);
    }

    // ---- transactions ----

    method CheckTx(tx: Tx, height: int) returns (res: Result<int, TxError>)
      ensures res == Ledger.CheckTx(rules.env, rules.p.coinbaseMaturity, utxo, tx, height)
    {
      if |tx.ins| == 0 || |tx.outs| == 0 {
        return Err(EmptyInsOrOuts);
      }
      var inputs := ScanInputs(tx, height);
      if inputs.Err? {
        return inputs;
      }
      var outputs := ScanOutputs(tx.outs);
      if outputs.Err? {
        return outputs;
      }
      if outputs.value > inputs.value {
        return Err(OutputsExceedInputs);
      }
      var fee := inputs.value - outputs.value;
      if !MoneyRange(fee) {
        return Err(FeeRange);
      }
      res := Ok(fee);
    }

    method ScanInputs(tx: Tx, height: int) returns (res: Result<int, TxError>)
      ensures res == CheckInputs(rules.env, rules.p.coinbaseMaturity, utxo, tx, |tx.ins|, height)
    {
      var env, maturity := rules.env, rules.p.coinbaseMaturity;
      var inSum := 0;
      var seen: set<OutPoint> := {};
      var i := 0;
      while i < |tx.ins|
        invariant 0 <= i <= |tx.ins|
        invariant seen == Prevs(tx.ins, i)
        invariant CheckInputs(env, maturity, utxo, tx, i, height) == Ok(inSum)
      {
        var input := tx.ins[i];
        var failure := None;
        if input.prev in seen {
          failure := Some(DuplicateInput);
        } else if input.prev !in utxo {
          failure := Some(InputMissing);
        } else {
          failure := InputError(env, maturity, utxo[input.prev], tx, i, height);
          if failure.None? {
            match CheckedAdd(inSum, utxo[input.prev].value)
            case Some(total) => inSum := total;
            case None => failure := Some(InputTotalRange);
          }
        }
        if failure.Some? {
          InputErrorSticks(env, maturity, utxo, tx, i + 1, |tx.ins|, height);
          return Err(failure.value);
        }
        seen := seen + {input.prev};
        i := i + 1;
      }
      res := Ok(inSum);
    }

    // ---- applying a block in place ----

    /** Delete the inputs and write the outputs, logging what each touched outpoint held before. */
    method SpendAndCreateWithUndo(tx: Tx, height: int, coinbase: bool, log: seq<Undo>) returns (log': seq<Undo>)
      modifies this`utxo
      ensures utxo == SpendAndCreate(rules.env, old(utxo), tx, height, coinbase)
      ensures Unwind(utxo, log') == Unwind(old(utxo), log)
    {
      log' := log;
      if !coinbase {
        var i := 0;
        while i < |tx.ins|
          invariant 0 <= i <= |tx.ins|
          invariant utxo == RemoveInputs(old(utxo), tx.ins, i)
          invariant Unwind(utxo, log') == Unwind(old(utxo), log)
        {
          RecordedDelete(utxo, log', tx.ins[i].prev);
          log' := log' + [Record(utxo, tx.ins[i].prev)];
          utxo := utxo - {tx.ins[i].prev};
          i := i + 1;
        }
      }
      var id := rules.env.txId(tx);
      ghost var kept := utxo;
      var j := 0;
      while j < |tx.outs|
        invariant 0 <= j <= |tx.outs|
        invariant utxo == AddOutputs(kept, id, tx.outs, j, height, coinbase)
        invariant Unwind(utxo, log') == Unwind(old(utxo), log)
      {
        var op := OutPoint(id, j);
        var entry := Entry(tx.outs[j].value, tx.outs[j].pkh, height, coinbase);
        RecordedWrite(utxo, log', op, entry);
        log' := log' + [Record(utxo, op)];
        utxo := utxo[op := entry];
        j := j + 1;
      }
    }

    method Rollback(log: seq<Undo>)
      modifies this`utxo
      ensures utxo == Unwind(old(utxo), log)
    {
      var i := |log|;
      assert log[..i] == log;
      while i > 0
        invariant 0 <= i <= |log|
        invariant Unwind(utxo, log[..i]) == Unwind(old(utxo), log)
      {
        i := i - 1;
        assert log[..i + 1][..i] == log[..i];
        var item := log[i];
        match item.prior {
          case Some(entry) => utxo := utxo[item.op := entry];
          case None => utxo := utxo - {item.op};
        }
      }
    }

    /** Check and apply a block on the live set; on any failure the set is exactly what it was. */
    method ValidateAndApply(b: Block, height: nat) returns (failure: Option<TxError>)
      requires |b.txs| > 0
      modifies this`utxo
      ensures match ApplyBlock(rules.env, rules.p.coinbaseMaturity, old(utxo), b, height)
              case Ok(applied) => failure.None? && utxo == applied
              case Err(e) => failure == Some(e) && utxo == old(utxo)
    {
      var log: seq<Undo>, fees: int;
      failure, log, fees := ApplyTransactions(b.txs, height);
      if failure.Some? {
        return;
      }
      var paid := ScanOutputs(b.txs[0].outs);
      if paid.Err? {
        failure := Some(paid.error);
      } else {
        match CheckedAdd(SubsidyAt(height), fees)
        case None => failure := Some(AllowedRange);
        case Some(allowed) =>
          if paid.value > allowed {
            failure := Some(CoinbaseTooLarge);
          }
      }
      if failure.Some? {
        Rollback(log);
        return;
      }
      log := SpendAndCreateWithUndo(b.txs[0], height, true, log);
    }

    /** The non-coinbase part; a failure part-way unwinds everything already applied. */
    method ApplyTransactions(txs: seq<Tx>, height: nat)
      returns (failure: Option<TxError>, log: seq<Undo>, fees: int)
      requires |txs| > 0
      modifies this`utxo
      ensures match ApplyTxs(rules.env, rules.p.coinbaseMaturity, old(utxo), txs, |txs|, height)
              case Ok(applied) =>
                failure.None? && utxo == applied.utxo && fees == applied.fees && Unwind(utxo, log) == old(utxo)
              case Err(e) => failure == Some(e) && utxo == old(utxo)
    {
      hide Ledger.CheckTx, SpendAndCreate;
      var env, maturity := rules.env, rules.p.coinbaseMaturity;
      failure, log, fees := None, [], 0;
      var i := 1;
      while i < |txs|
        invariant 1 <= i <= |txs| && failure.None?
        invariant ApplyTxs(env, maturity, old(utxo), txs, i, height) == Ok(Applied(utxo, fees))
        invariant Unwind(utxo, log) == old(utxo)
      {
        var checked := CheckTx(txs[i], height);
        if checked.Err? {
          failure := Some(checked.error);
        } else {
          match CheckedAdd(fees, checked.value)
          case Some(total) => fees := total;
          case None => failure := Some(AggregateFeeRange);
        }
        if failure.Some? {
          TxErrorSticks(env, maturity, old(utxo), txs, i + 1, |txs|, height);
          Rollback(log);
          return;
        }
        log := SpendAndCreateWithUndo(txs[i], height, false, log);
        i := i + 1;
      }
    }

    // ---- header-level context ----

    /** Timestamps of up to `n` ancestors, nearest first. */
    method CollectTimes(parent: Indexed, n: nat) returns (timestamps: seq<int>)
      requires Linked(index) && Attached(index, parent) && n > 0
      ensures var times := Times(Branch(index, parent));
              && |timestamps| == |Window(times, n)|
              && forall i :: 0 <= i < |timestamps| ==> timestamps[i] == times[|times| - 1 - i]
    {
      hide Branch, Times;
      ghost var path := Branch(index, parent);
      timestamps := [];
      var current := parent;
      BranchPrefix(index, parent, parent.height);
      while |timestamps| < n
        invariant |timestamps| <= n && |timestamps| <= parent.height
        invariant current.height == parent.height - |timestamps|
        invariant Attached(index, current) && path[current.height] == current
        invariant forall i :: 0 <= i < |timestamps| ==> timestamps[i] == path[parent.height - i].block.header.time
        decreases n - |timestamps|
      {
        timestamps := timestamps + [current.block.header.time];
        if current.height == 0 {
          break;
        }
        BranchPrefix(index, parent, current.height - 1);
        current := index[current.block.header.prevBlock];
      }
    }

    method CheckBlockTimestamp(parent: Indexed, height: nat, time: int, now: int) returns (ok: bool)
      requires UsableParams(rules.p) && Linked(index) && Attached(index, parent) && height == parent.height + 1
      ensures ok == TimestampOk(rules.p, Times(Branch(index, parent)), time, now)
    {
      hide MaxTarget, Median, Branch, Times;
      var p := rules.p;
      if !AsertActive(p, height) {
        if time > now + p.futureDrift {
          return false;
        }
        return time >= parent.block.header.time - p.futureDrift;
      }
      if time > now + p.asertFutureDrift {
        return false;
      }
      var timestamps := CollectTimes(parent, p.asertMedianTimeBlocks);
      MedianOfReversed(timestamps, Times(Branch(index, parent)), p.asertMedianTimeBlocks);
      ok := time > Median(timestamps);
    }

    /** Required bits: straight from the main-chain array on the tip, by walking parents elsewhere. */
    method BitsOnBranch(parent: Indexed, height: nat) returns (bits: U32)
      requires UsableParams(rules.p) && Linked(index) && TipOk(rules, Abs())
      requires MainIndexed(index, mainIds, tip)
      requires parent.id in index && index[parent.id] == parent && height == parent.height + 1
      ensures bits == BranchBits(rules.p, Headers(Branch(index, parent)))
    {
      hide NextBits, UsableParams, BranchBits, TipOk;
      if parent == tip {
        MainAccessors(rules, index, mainIds, tip, height);
        bits := NextBits(rules.p, height, MainBits(index, mainIds), MainTime(index, mainIds));
      } else {
        AncestorAccessors(rules, index, parent, height);
        bits := NextBits(rules.p, height, AncestorBits(index, parent), AncestorTime(index, parent));
      }
    }

    // ---- branch replay ----

    /** Height-to-entry table of the branch ending at `e`. */
    method BranchTo(e: Indexed) returns (table: map<nat, Indexed>)
      requires Linked(index) && Attached(index, e)
      ensures forall h: nat :: h <= e.height ==> h in table && table[h] == Branch(index, e)[h]
    {
      ghost var path := Branch(index, e);
      var current := e;
      BranchPrefix(index, e, e.height);
      table := map[current.height := current];
      while current.height != 0
        invariant current.height <= e.height && Attached(index, current) && path[current.height] == current
        invariant forall h: nat :: current.height <= h <= e.height ==> h in table && table[h] == path[h]
        decreases current.height
      {
        BranchPrefix(index, e, current.height - 1);
        current := index[current.block.header.prevBlock];
        table := table[current.height := current];
      }
    }

    /** Validate the whole branch on a scratch object, leaving this one untouched. */
    method ReplayBranch(e: Indexed) returns (res: Result<(Utxo, seq<Hash>), TxError>)
      requires Linked(index) && Attached(index, e)
      ensures res == match Replay(rules.env, rules.p.coinbaseMaturity, Blocks(Branch(index, e)))
                     case Ok(u) => Ok((u, Ids(Branch(index, e))))
                     case Err(error) => Err(error)
    {
      hide ApplyBlock, SaneTxs, Branch, Blocks, Ids, Replay, Linked, Attached;
      ghost var path := Branch(index, e);
      ghost var blocks := Blocks(path);
      var env, maturity := rules.env, rules.p.coinbaseMaturity;
      var table := BranchTo(e);
      var scratch := new Chain.Scratch(rules);
      assert blocks[..0] == [];
      ReplayNothing(env, maturity);
      var newMain: seq<Hash> := [];
      var h := 0;
      while h <= e.height
        invariant 0 <= h <= e.height + 1
        invariant fresh(scratch) && scratch.rules == rules
        invariant Replay(env, maturity, blocks[..h]) == Ok(scratch.utxo)
        invariant newMain == Ids(path)[..h]
      {
        var entry := table[h];
        ReplayNext(env, maturity, blocks, h);
        var sane := CheckBlockSanity(env, entry.block.txs);
        if !sane {
          ReplayErrorSticks(env, maturity, blocks, h + 1, |blocks|);
          assert blocks[..|blocks|] == blocks;
          return Err(InsaneBlock);
        }
        SaneNonempty(env, entry.block.txs);
        var failure := scratch.ValidateAndApply(entry.block, h);
        if failure.Some? {
          ReplayErrorSticks(env, maturity, blocks, h + 1, |blocks|);
          assert blocks[..|blocks|] == blocks;
          return Err(failure.value);
        }
        newMain := newMain + [entry.id];
        h := h + 1;
      }
      assert blocks[..h] == blocks && Ids(path)[..h] == Ids(path);
      res := Ok((scratch.utxo, newMain));
    }

    method EvictMempool()
      modifies this`mempool
      ensures mempool == Evict(rules, old(mempool), utxo, tip.height + 1)
    {
      hide Ledger.CheckTx;
      var todo := mempool.Keys;
      while todo != {}
        invariant todo <= old(mempool).Keys
        invariant forall id :: id in mempool ==> id in old(mempool) && mempool[id] == old(mempool)[id]
        invariant forall id :: id in old(mempool) ==>
                    (id in mempool <==>
                       id in todo || Ledger.CheckTx(rules.env, rules.p.coinbaseMaturity, utxo, old(mempool)[id], tip.height + 1).Ok?)
        decreases |todo|
      {
        var id :| id in todo;
        var checked := CheckTx(mempool[id], tip.height + 1);
        if checked.Err? {
          mempool := mempool - {id};
        }
        todo := todo - {id};
      }
    }

    // ---- the public operations ----

    /** The fast path: one block on top of the live set. */
    method ConnectTip(e: Indexed) returns (failure: Option<TxError>)
      requires |e.block.txs| > 0
      modifies this`utxo, this`mainIds, this`tip, this`mempool
      ensures match ApplyBlock(rules.env, rules.p.coinbaseMaturity, old(utxo), e.block, e.height)
              case Err(error) => failure == Some(error) && Abs() == old(Abs())
              case Ok(applied) =>
                && failure.None? && index == old(index) && tip == e && utxo == applied
                && mainIds == old(mainIds) + [e.id]
                && mempool == Evict(rules, old(mempool), applied, e.height + 1)
    {
      hide ApplyBlock, Evict;
      failure := ValidateAndApply(e.block, e.height);
      if failure.Some? {
        return;
      }
      mainIds := mainIds + [e.id];
      tip := e;
      EvictMempool();
    }

    /** The slow path: rebuild from genesis along the branch and switch to it. */
    method ConnectBranch(e: Indexed) returns (failure: Option<TxError>)
      requires Linked(index) && Attached(index, e)
      modifies this`utxo, this`mainIds, this`tip, this`mempool
      ensures match Replay(rules.env, rules.p.coinbaseMaturity, Blocks(Branch(index, e)))
              case Err(error) => failure == Some(error) && Abs() == old(Abs())
              case Ok(replayed) =>
                && failure.None? && index == old(index) && tip == e && utxo == replayed
                && mainIds == Ids(Branch(index, e))
                && mempool == Evict(rules, old(mempool), replayed, e.height + 1)
    {
      hide Replay, Evict, Branch, Blocks, Ids;
      var res := ReplayBranch(e);
      if res.Err? {
        return Some(res.error);
      }
      utxo := res.value.0;
      mainIds := res.value.1;
      tip := e;
      EvictMempool();
      failure := None;
    }

    /** Accept, store, reorganise to, or reject a block: the same state and verdict as the simple form,
        whichever of the three paths is taken. */
    method AcceptBlock(b: Block, now: int, checkPow: bool, ghost clock: int) returns (out: Outcome)
      requires UsableParams(rules.p) && Inv(rules, Abs(), clock)
      modifies this
      ensures (Abs(), out) == Consensus.AcceptBlock(rules, old(Abs()), b, now, checkPow)
      ensures now <= clock ==> Inv(rules, Abs(), clock)
    {
      hide HeaderFault, Adopt, Child, Inv, Replay, UsableParams;
      InvParts(rules, Abs(), clock);
      if now <= clock {
        AcceptBlockInv(rules, Abs(), b, now, checkPow, clock);
      }
      var id := rules.env.headerId(b.header);
      if id in index {
        return AlreadyKnown;
      }
      if b.header.prevBlock !in index {
        return Rejected(Orphan);
      }
      var parent := index[b.header.prevBlock];
      var fault := VetHeader(parent, b, now, checkPow, clock);
      if fault.Some? {
        return Rejected(fault.value);
      }
      out := Attach(parent, b, now, checkPow, clock);
    }

    /** Checks made before any UTXO work. */
    method VetHeader(parent: Indexed, b: Block, now: int, checkPow: bool, ghost clock: int) returns (fault: Option<Reject>)
      requires UsableParams(rules.p) && Linked(index) && Inv(rules, Abs(), clock)
      requires b.header.prevBlock in index && index[b.header.prevBlock] == parent
      ensures fault == HeaderFault(rules, Branch(index, parent), b, now, checkPow)
    {
      hide SaneTxs, TimestampOk, BranchBits, TxRoot, PowOk, Inv, UsableParams, Branch, Wire.BlockBytes;
      InvParts(rules, Abs(), clock);
      var sane := CheckBlockSanity(rules.env, b.txs);
      if !sane {
        return Some(Insane);
      }
      if |Wire.BlockBytes(b)| > MAX_BLOCK_BYTES {
        return Some(TooLarge);
      }
      var timely := CheckBlockTimestamp(parent, parent.height + 1, b.header.time, now);
      if !timely {
        return Some(BadTime);
      }
      var required := BitsOnBranch(parent, parent.height + 1);
      if b.header.bits != required {
        return Some(WrongBits);
      }
      if checkPow && !PowOk(rules, b.header) {
        return Some(BadPow);
      }
      var root := ComputeTxRoot(rules.env, b.txs);
      if root != b.header.merkleRoot {
        return Some(BadMerkle);
      }
      fault := None;
    }

    /** Place a vetted block: side branch, tip extension, or reorganisation. */
    method Attach(parent: Indexed, b: Block, now: int, checkPow: bool, ghost clock: int) returns (out: Outcome)
      requires UsableParams(rules.p) && Linked(index) && Inv(rules, Abs(), clock)
      requires b.header.prevBlock in index && index[b.header.prevBlock] == parent
      requires rules.env.headerId(b.header) !in index
      requires HeaderFault(rules, Branch(index, parent), b, now, checkPow).None?
      modifies this
      ensures (Abs(), out) == Consensus.AcceptBlock(rules, old(Abs()), b, now, checkPow)
    {
      hide HeaderFault, Inv, Replay, UsableParams, Branch, Blocks, Ids, ApplyBlock, BlockWork, Evict, SaneTxs;
      InvParts(rules, Abs(), clock);
      VettedSane(rules, Branch(index, parent), b, now, checkPow);
      var e := Child(rules, parent, b);
      ReplayOnTip(rules, Abs(), e, clock);
      if e.cumWork <= tip.cumWork {
        var res := ReplayBranch(e);
        if res.Err? {
          return Rejected(BadBranch(res.error));
        }
        index := index[e.id := e];
        return Stored;
      }
      var failure;
      if parent == tip {
        failure := ConnectTip(e);
      } else {
        failure := ConnectBranch(e);
      }
      if failure.Some? {
        return Rejected(BadBranch(failure.value));
      }
      index := index[e.id := e];
      out := NewTip;
    }

    method AcceptTx(tx: Tx) returns (out: TxOutcome)
      modifies this`mempool
      ensures (Abs(), out) == Consensus.AcceptTx(rules, old(Abs()), tx)
    {
      hide Ledger.CheckTx;
      if tx.IsCoinbase() {
        return TxRefused;
      }
      var id := rules.env.txId(tx);
      if id in mempool {
        return TxKnown;
      }
      var spent := set other, i | other in mempool && 0 <= i < |mempool[other].ins| :: mempool[other].ins[i].prev;
      var k := 0;
      while k < |tx.ins|
        invariant 0 <= k <= |tx.ins|
        invariant forall j :: 0 <= j < k ==> tx.ins[j].prev !in spent
      {
        if tx.ins[k].prev in spent {
          return TxRefused;
        }
        k := k + 1;
      }
      var checked := CheckTx(tx, tip.height + 1);
      if checked.Err? {
        return TxRefused;
      }
      mempool := mempool[id := tx];
      out := Added;
    }

    // ---- runtime self-check ----

    /** `validatedCanonicalSequenceLocked` re-derives identity, linkage, work and Merkle roots along the
        main chain. On a reachable chain it never reports an inconsistency. */
    method ValidatedCanonicalSequence(ghost clock: int) returns (res: Option<seq<Indexed>>)
      requires UsableParams(rules.p) && Inv(rules, Abs(), clock) && Linked(index)
      ensures res == Some(Branch(index, tip))
    {
      hide UsableParams, Inv, BlockWork, TxRoot, GenesisBlock, Branch, EntryOk, Ids, Blocks, Replay;
      InvParts(rules, Abs(), clock);
      SequenceFacts(rules, Abs(), clock);
      ghost var path := Branch(index, tip);
      if tip.cumWork <= 0 || |mainIds| == 0 || |mainIds| != tip.height + 1 || mainIds[|mainIds| - 1] != tip.id {
        return None;
      }
      if tip.id !in index || index[tip.id] != tip {
        return None;
      }
      var sequence: seq<Indexed> := [];
      var expectedWork := 0;
      var h := 0;
      while h < |mainIds|
        invariant 0 <= h <= |mainIds|
        invariant sequence == path[..h]
        invariant h > 0 ==> expectedWork == path[h - 1].cumWork
        invariant h == 0 ==> expectedWork == 0
      {
        assert SoundAt(rules, path, h);
        if mainIds[h] !in index {
          return None;
        }
        var e := index[mainIds[h]];
        if e.id != mainIds[h] || e.height != h || rules.env.headerId(e.block.header) != mainIds[h] {
          return None;
        }
        expectedWork := expectedWork + BlockWork(e.block);
        if e.cumWork <= 0 || e.cumWork != expectedWork {
          return None;
        }
        if h == 0 && e.block != GenesisBlock(rules) {
          return None;
        }
        if h > 0 && e.block.header.prevBlock != mainIds[h - 1] {
          return None;
        }
        if TxRoot(rules.env, e.block.txs) != e.block.header.merkleRoot {
          return None;
        }
        sequence := sequence + [e];
        h := h + 1;
      }
      assert sequence == path;
      if sequence[|sequence| - 1] != tip || expectedWork != tip.cumWork {
        return None;
      }
      res := Some(sequence);
    }
  }
}
