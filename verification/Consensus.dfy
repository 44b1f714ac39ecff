/** The block-acceptance state machine (core/chain.go) in its simple form: a branch is always
    validated by replaying it from genesis, and the state that results is computed from that replay. */
module Consensus {
  import opened Types
  import opened Money
  import opened Ledger
  import opened Compact
  import opened Params
  import opened Difficulty
  import opened MedianTime
  import Merkle
  import Varint
  import Wire

  datatype Rules = Rules(env: Env, p: Params)

  /** A validated block with its position and the work of its whole branch. */
  datatype Indexed = Indexed(block: Block, height: nat, cumWork: nat, id: Hash)

  type Index = map<Hash, Indexed>

  datatype State = State(index: Index, tip: Indexed, mainIds: seq<Hash>, utxo: Utxo, mempool: map<Hash, Tx>)

  // ---- genesis ----

  function NewCoinbase(height: nat, value: int, to: Pkh, tag: seq<Byte>): Tx {
    Tx(1, [TxIn(OutPoint(ZERO_HASH, 0xffff_ffff), Varint.PutUvarint(height), [])], [TxOut(value, to)], tag)
  }

  function TxRoot(env: Env, txs: seq<Tx>): Hash {
    Merkle.Root(env.pair, Merkle.TxIds(env, txs))
  }

  function GenesisBlock(r: Rules): Block {
    var txs := [NewCoinbase(0, SubsidyAt(0), ZERO_PKH, r.p.genesisHeadline)];
    Block(Header(1, ZERO_HASH, TxRoot(r.env, txs), r.p.genesisTime, r.p.maxTargetBits, r.p.genesisNonce), txs)
  }

  function BlockWork(b: Block): nat {
    WorkFromTarget(CompactToTarget(b.header.bits))
  }

  function GenesisEntry(r: Rules): Indexed {
    var g := GenesisBlock(r);
    Indexed(g, 0, BlockWork(g), r.env.headerId(g.header))
  }

  predicate PowOk(r: Rules, h: Header) {
    && 0 < CompactToTarget(h.bits) <= MaxTarget(r.p)
    && r.env.pow(h) <= CompactToTarget(h.bits)
  }

  /** `NewChain`, for parameters whose genesis block carries its proof of work. */
  function Genesis(r: Rules): State {
    var e := GenesisEntry(r);
    State(map[e.id := e], e, [e.id], SpendAndCreate(r.env, map[], e.block.txs[0], 0, true), map[])
  }

  // ---- branches ----

  /** Above genesis, the parent is indexed one height lower. */
  predicate Attached(ix: Index, e: Indexed) {
    e.height > 0 ==> e.block.header.prevBlock in ix && ix[e.block.header.prevBlock].height == e.height - 1
  }

  ghost predicate Linked(ix: Index) {
    forall id :: id in ix ==> Attached(ix, ix[id])
  }

  /** Genesis-to-`e` path of parents. */
  ghost function Branch(ix: Index, e: Indexed): (path: seq<Indexed>)
    requires Linked(ix) && Attached(ix, e)
    ensures |path| == e.height + 1 && path[e.height] == e
    decreases e.height
  {
    if e.height == 0 then [e] else Branch(ix, ix[e.block.header.prevBlock]) + [e]
  }

  function Blocks(path: seq<Indexed>): (r: seq<Block>)
    ensures |r| == |path| && forall i :: 0 <= i < |path| ==> r[i] == path[i].block
  {
    if path == [] then [] else Blocks(path[..|path| - 1]) + [path[|path| - 1].block]
  }

  function Ids(path: seq<Indexed>): (r: seq<Hash>)
    ensures |r| == |path| && forall i :: 0 <= i < |path| ==> r[i] == path[i].id
  {
    if path == [] then [] else Ids(path[..|path| - 1]) + [path[|path| - 1].id]
  }

  function Headers(path: seq<Indexed>): (r: seq<Header>)
    ensures |r| == |path| && forall i :: 0 <= i < |path| ==> r[i] == path[i].block.header
  {
    if path == [] then [] else Headers(path[..|path| - 1]) + [path[|path| - 1].block.header]
  }

  function Times(path: seq<Indexed>): (r: seq<int>)
    ensures |r| == |path| && forall i :: 0 <= i < |path| ==> r[i] == path[i].block.header.time
  {
    if path == [] then [] else Times(path[..|path| - 1]) + [path[|path| - 1].block.header.time]
  }

  // ---- accepting a block ----

  datatype Reject =
    | Orphan | Insane | TooLarge | BadTime | WrongBits | BadPow | BadMerkle | BadBranch(error: TxError)

  datatype Outcome = AlreadyKnown | Stored | NewTip | Rejected(why: Reject)

  /** Everything checked before any UTXO work, given the path to the parent. */
  ghost function HeaderFault(r: Rules, path: seq<Indexed>, b: Block, now: int, checkPow: bool): Option<Reject>
    requires UsableParams(r.p) && |path| > 0
  {
    if !SaneTxs(r.env, b.txs) then Some(Insane)
    else if |Wire.BlockBytes(b)| > MAX_BLOCK_BYTES then Some(TooLarge)
    else if !TimestampOk(r.p, Times(path), b.header.time, now) then Some(BadTime)
    else if b.header.bits != BranchBits(r.p, Headers(path)) then Some(WrongBits)
    else if checkPow && !PowOk(r, b.header) then Some(BadPow)
    else if TxRoot(r.env, b.txs) != b.header.merkleRoot then Some(BadMerkle)
    else None
  }

  function Child(r: Rules, parent: Indexed, b: Block): Indexed {
    Indexed(b, parent.height + 1, parent.cumWork + BlockWork(b), r.env.headerId(b.header))
  }

  /** `evictMempoolLocked`: keep what is still valid for the block after the tip. */
  function Evict(r: Rules, mempool: map<Hash, Tx>, utxo: Utxo, height: int): map<Hash, Tx> {
    map id | id in mempool && CheckTx(r.env, r.p.coinbaseMaturity, utxo, mempool[id], height).Ok? :: mempool[id]
  }

  /** State after a block `e` whose branch replays to `utxo`: the heaviest branch wins, ties keep the tip. */
  ghost function Adopt(r: Rules, s: State, e: Indexed, path: seq<Indexed>, utxo: Utxo): (State, Outcome) {
    if e.cumWork <= s.tip.cumWork then
      (s.(index := s.index[e.id := e]), Stored)
    else
      (State(s.index[e.id := e], e, Ids(path), utxo, Evict(r, s.mempool, utxo, e.height + 1)), NewTip)
  }

  /** `acceptBlockLocked`. */
  ghost function AcceptBlock(r: Rules, s: State, b: Block, now: int, checkPow: bool): (State, Outcome)
    requires UsableParams(r.p) && Linked(s.index)
  {
    if r.env.headerId(b.header) in s.index then (s, AlreadyKnown)
    else if b.header.prevBlock !in s.index then (s, Rejected(Orphan))
    else
      var parent := s.index[b.header.prevBlock];
      match HeaderFault(r, Branch(s.index, parent), b, now, checkPow)
      case Some(why) => (s, Rejected(why))
      case None =>
        var e := Child(r, parent, b);
        var path := Branch(s.index, e);
        match Replay(r.env, r.p.coinbaseMaturity, Blocks(path))
        case Err(error) => (s, Rejected(BadBranch(error)))
        case Ok(utxo) => Adopt(r, s, e, path, utxo)
  }

  // ---- accepting a transaction ----

  datatype TxOutcome = Added | TxKnown | TxRefused

  predicate Conflicts(mempool: map<Hash, Tx>, tx: Tx) {
    exists id, i, j ::
      id in mempool && 0 <= i < |mempool[id].ins| && 0 <= j < |tx.ins| && mempool[id].ins[i].prev == tx.ins[j].prev
  }

  /** `AcceptTxWithResult`. */
  ghost function AcceptTx(r: Rules, s: State, tx: Tx): (State, TxOutcome) {
    if tx.IsCoinbase() then (s, TxRefused)
    else if r.env.txId(tx) in s.mempool then (s, TxKnown)
    else if Conflicts(s.mempool, tx) then (s, TxRefused)
    else if CheckTx(r.env, r.p.coinbaseMaturity, s.utxo, tx, s.tip.height + 1).Err? then (s, TxRefused)
    else (s.(mempool := s.mempool[r.env.txId(tx) := tx]), Added)
  }

  // ---- runs ----

  datatype Event = BlockArrives(block: Block, now: int, checkPow: bool) | TxArrives(tx: Tx)

  ghost function Step(r: Rules, s: State, ev: Event): State
    requires UsableParams(r.p) && Linked(s.index)
  {
    match ev
    case BlockArrives(b, now, checkPow) => AcceptBlock(r, s, b, now, checkPow).0
    case TxArrives(tx) => AcceptTx(r, s, tx).0
  }

  lemma {:induction false} LinkedExtend(ix: Index, e: Indexed)
    requires Linked(ix) && Attached(ix, e) && e.id !in ix
    ensures Linked(ix[e.id := e])
  {
    var ix' := ix[e.id := e];
    forall id | id in ix' ensures Attached(ix', ix'[id]) {
      if id != e.id {
        assert Attached(ix, ix[id]);
      }
    }
  }

  /** A block either changes nothing or adds exactly its own entry to the index. */
  lemma {:induction false} AcceptedIndex(r: Rules, s: State, b: Block, now: int, checkPow: bool)
    requires UsableParams(r.p) && Linked(s.index)
    ensures var s' := AcceptBlock(r, s, b, now, checkPow).0;
            || s' == s
            || (&& b.header.prevBlock in s.index && r.env.headerId(b.header) !in s.index
                && var e := Child(r, s.index[b.header.prevBlock], b);
                   s'.index == s.index[e.id := e])
  {
    hide HeaderFault, Replay, Evict, BlockWork, Ids, Blocks, Branch, UsableParams;
  }

  lemma {:induction false} StepLinked(r: Rules, s: State, ev: Event)
    requires UsableParams(r.p) && Linked(s.index)
    ensures Linked(Step(r, s, ev).index)
  {
    hide AcceptBlock, UsableParams, Linked, CheckTx, Conflicts, BlockWork;
    match ev
    case TxArrives(tx) =>
    case BlockArrives(b, now, checkPow) =>
      AcceptedIndex(r, s, b, now, checkPow);
      if AcceptBlock(r, s, b, now, checkPow).0 != s {
        LinkedExtend(s.index, Child(r, s.index[b.header.prevBlock], b));
      }
  }

  /** The state after any sequence of events, starting from genesis. */
  ghost function Run(r: Rules, events: seq<Event>): (s: State)
    requires UsableParams(r.p)
    ensures Linked(s.index)
  {
    if events == [] then Genesis(r)
    else
      StepLinked(r, Run(r, events[..|events| - 1]), events[|events| - 1]);
      Step(r, Run(r, events[..|events| - 1]), events[|events| - 1])
  }
}
