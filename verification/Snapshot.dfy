/** The durable main-chain file (core/store.go): framing, strict replay, and the save/load round trip. */
module Snapshot {
  import opened Types
  import opened Bits
  import opened Ledger
  import opened Compact
  import opened Params
  import opened Difficulty
  import opened Consensus
  import opened Invariant
  import opened Reachable
  import opened Wire

  // ---- framing: four-byte big-endian length, then the block ----

  function BE4(n: nat): (r: seq<Byte>)
    requires n < 0x1_0000_0000
    ensures |r| == 4
  {
    [n / 0x100_0000, n / 0x1_0000 % 256, n / 0x100 % 256, n % 256]
  }

  function FromBE4(s: seq<Byte>): nat
    requires |s| == 4
  {
    var a: int, b: int, c: int := s[0], s[1], s[2];
    a * 0x100_0000 + b * 0x1_0000 + c * 0x100 + s[3]
  }

  lemma {:induction false} BE4RoundTrip(n: nat)
    requires n < 0x1_0000_0000
    ensures FromBE4(BE4(n)) == n
  {
    var a, b, c := n / 0x100, n / 0x1_0000, n / 0x100_0000;
    Digit(n);
    Digit(a);
    Digit(b);
    DivDiv(n, 256, 256);
    DivDiv(n, 0x1_0000, 256);
    assert a / 256 == b && b / 256 == c;
    assert n == 256 * (256 * (256 * c + b % 256) + a % 256) + n % 256;
  }

  lemma {:induction false} Digit(x: nat)
    ensures x == 256 * (x / 256) + x % 256
  {
  }

  /** Blocks the framing and the wire decoder can carry. */
  predicate Storable(b: Block) {
    BlockFits(b) && |BlockBytes(b)| <= MAX_BLOCK_BYTES
  }

  function Frame(b: Block): seq<Byte>
    requires |BlockBytes(b)| <= MAX_BLOCK_BYTES
  {
    BE4(|BlockBytes(b)|) + BlockBytes(b)
  }

  function Frames(blocks: seq<Block>): seq<Byte>
    requires forall i :: 0 <= i < |blocks| ==> |BlockBytes(blocks[i])| <= MAX_BLOCK_BYTES
  {
    if blocks == [] then [] else Frame(blocks[0]) + Frames(blocks[1..])
  }

  /** Split one frame off the front. */
  function TakeFrame(data: seq<Byte>): (r: Option<(Block, seq<Byte>)>)
    ensures r.Some? ==> |r.value.1| < |data|
  {
    if |data| < 4 then None
    else
      var length := FromBE4(data[..4]);
      if length == 0 || length > MAX_BLOCK_BYTES || length > |data| - 4 then None
      else
        match DecodeBlock(data[4..4 + length])
        case None => None
        case Some(b) => Some((b, data[4 + length..]))
  }

  lemma {:induction false} FrameRoundTrip(b: Block, rest: seq<Byte>)
    requires Storable(b)
    ensures TakeFrame(Frame(b) + rest) == Some((b, rest))
  {
    hide BlockBytes, DecodeBlock, BlockFits, BE4, FromBE4;
    var raw := BlockBytes(b);
    BlockRoundTrip(b);
    BE4RoundTrip(|raw|);
    NonemptyBlock(b);
    var data := Frame(b) + rest;
    assert data[..4] == BE4(|raw|);
    assert data[4..4 + |raw|] == raw;
    assert data[4 + |raw|..] == rest;
  }

  lemma {:induction false} NonemptyBlock(b: Block)
    ensures |BlockBytes(b)| >= 88
  {
    hide HeaderBytes, TxsBytes;
  }

  // ---- strict replay ----

  /** `decodeCanonicalSnapshot`: every stored block must be the next tip of the scratch chain. */
  ghost function LoadFrames(r: Rules, s: State, data: seq<Byte>, now: int): Option<State>
    requires UsableParams(r.p) && Linked(s.index)
    decreases |data|
  {
    if data == [] then Some(s)
    else
      match TakeFrame(data)
      case None => None
      case Some((b, rest)) =>
        var (s', out) := AcceptBlock(r, s, b, now, false);
        StepLinked(r, s, BlockArrives(b, now, false));
        if out.Rejected? then None
        else if s'.tip.height != s.tip.height + 1 || s'.tip.id != r.env.headerId(b.header) then None
        else LoadFrames(r, s', rest, now)
  }

  // ---- the main chain on its own ----

  /** Entries of a path keyed by id. */
  ghost function PathIndex(path: seq<Indexed>): Index {
    if path == [] then map[]
    else PathIndex(path[..|path| - 1])[path[|path| - 1].id := path[|path| - 1]]
  }

  /** The state of a node that has seen exactly this chain and no transactions. */
  ghost function ChainOnly(r: Rules, path: seq<Indexed>): State
    requires |path| > 0 && Replay(r.env, r.p.coinbaseMaturity, Blocks(path)).Ok?
  {
    State(PathIndex(path), path[|path| - 1], Ids(path),
          Replay(r.env, r.p.coinbaseMaturity, Blocks(path)).value, map[])
  }

  /** A genesis-to-tip path every block of which is acceptable to a clock at or before `now`. */
  ghost predicate GoodPath(r: Rules, path: seq<Indexed>, now: int)
    requires UsableParams(r.p)
  {
    && |path| > 0 && path[0] == GenesisEntry(r)
    && (forall h :: 0 <= h < |path| ==> path[h].height == h)
    && (forall h, k :: 0 <= h < k < |path| ==> path[h].id != path[k].id)
    && (forall h :: 0 <= h < |path| ==> PrefixReplays(r, path, h))
    && (forall h :: 0 < h < |path| ==> GoodNext(r, path, h, now))
  }

  ghost predicate PrefixReplays(r: Rules, path: seq<Indexed>, h: nat)
    requires h < |path|
  {
    Replay(r.env, r.p.coinbaseMaturity, Blocks(path[..h + 1])).Ok?
  }

  ghost predicate GoodNext(r: Rules, path: seq<Indexed>, h: nat, now: int)
    requires UsableParams(r.p) && 0 < h < |path|
  {
    && path[h].block.header.prevBlock == path[h - 1].id
    && path[h] == Child(r, path[h - 1], path[h].block)
    && BlockWork(path[h].block) >= 1
    && HeaderFault(r, path[..h], path[h].block, now, false).None?
  }

  /** The main chain of every good state is such a path. */
  lemma {:induction false} MainPathGood(r: Rules, s: State, clock: int, now: int)
    requires UsableParams(r.p) && Inv(r, s, clock) && Linked(s.index) && Attached(s.index, s.tip) && clock <= now
    ensures GoodPath(r, Branch(s.index, s.tip), now)
  {
    hide UsableParams, EntryOk, MempoolOk, Branch, Replay, Ids, Blocks, GenesisEntry, GoodNext;
    var path := Branch(s.index, s.tip);
    BranchFromGenesis(r, s.index, s.tip, clock);
    forall h | 0 <= h < |path|
      ensures path[h].height == h && path[h].id in s.index && s.index[path[h].id] == path[h]
      ensures PrefixReplays(r, path, h)
    {
      BranchPrefix(s.index, s.tip, h);
      BranchMembers(r, s.index, s.tip, h, clock);
      EntryReplays(r, s.index, path[h].id, clock);
    }
    forall h, k | 0 <= h < k < |path| ensures path[h].id != path[k].id {
      assert path[h].height != path[k].height;
    }
    forall h | 0 < h < |path| ensures GoodNext(r, path, h, now) {
      MainStepGood(r, s.index, s.tip, h, clock, now);
    }
  }

  lemma {:induction false} EntryReplays(r: Rules, ix: Index, id: Hash, clock: int)
    requires UsableParams(r.p) && IndexOk(r, ix, clock) && Linked(ix) && id in ix
    ensures Replay(r.env, r.p.coinbaseMaturity, Blocks(Branch(ix, ix[id]))).Ok?
  {
    hide UsableParams, Vetted, Replay, Branch, Blocks, GenesisEntry, BlockWork, CompactToTarget;
  }

  lemma {:induction false} MainStepGood(r: Rules, ix: Index, tip: Indexed, h: nat, clock: int, now: int)
    requires UsableParams(r.p) && IndexOk(r, ix, clock) && Linked(ix) && Attached(ix, tip) && clock <= now
    requires tip.id in ix && ix[tip.id] == tip && 0 < h <= tip.height
    ensures GoodNext(r, Branch(ix, tip), h, now)
  {
    hide UsableParams, Branch, HeaderFault, BlockWork, IndexOk, GenesisEntry;
    var path := Branch(ix, tip);
    BranchMembers(r, ix, tip, h, clock);
    BranchMembers(r, ix, tip, h - 1, clock);
    BranchPrefix(ix, tip, h);
    BranchPrefix(ix, tip, h - 1);
    EntryStep(r, ix, path[h].id, clock, now);
  }

  lemma {:induction false} EntryStep(r: Rules, ix: Index, id: Hash, clock: int, now: int)
    requires UsableParams(r.p) && IndexOk(r, ix, clock) && Linked(ix) && id in ix && ix[id].height > 0 && clock <= now
    ensures var e := ix[id];
            var parent := ix[e.block.header.prevBlock];
            && e == Child(r, parent, e.block)
            && parent.id == e.block.header.prevBlock
            && BlockWork(e.block) >= 1
            && HeaderFault(r, Branch(ix, parent), e.block, now, false).None?
  {
    hide UsableParams, Branch, HeaderFault, WorkFromTarget, CompactToTarget, BranchReplays, GenesisEntry;
    var e := ix[id];
    assert EntryOk(r, ix, e, clock);
    FaultUnderLaterClock(r, Branch(ix, ix[e.block.header.prevBlock]), e.block, clock, now, false);
    RequiredWorkPositive(r.p, e.block.header.bits);
  }

  // ---- replaying a good path ----

  lemma {:induction false} PathIndexMembers(path: seq<Indexed>)
    requires forall h, k :: 0 <= h < k < |path| ==> path[h].id != path[k].id
    ensures forall h :: 0 <= h < |path| ==> path[h].id in PathIndex(path) && PathIndex(path)[path[h].id] == path[h]
    ensures forall id :: id in PathIndex(path) ==> exists h :: 0 <= h < |path| && path[h].id == id
  {
    if path != [] {
      var n := |path| - 1;
      var init, ix := path[..n], PathIndex(path[..n]);
      PathIndexMembers(init);
      assert PathIndex(path) == ix[path[n].id := path[n]];
      hide PathIndex;
      forall h | 0 <= h < |path| ensures path[h].id in PathIndex(path) && PathIndex(path)[path[h].id] == path[h] {
        assert h < n ==> init[h] == path[h];
      }
      forall id | id in PathIndex(path) ensures exists h :: 0 <= h < |path| && path[h].id == id {
        if id != path[n].id {
          var h :| 0 <= h < |init| && init[h].id == id;
          assert path[h] == init[h];
        }
      }
    }
  }

  lemma {:induction false} BranchAlong(ix: Index, path: seq<Indexed>, h: nat)
    requires h < |path| && PathShape(path) && Linked(ix)
    requires forall k :: 0 <= k < |path| ==> path[k].id in ix && ix[path[k].id] == path[k]
    ensures Attached(ix, path[h]) && Branch(ix, path[h]) == path[..h + 1]
  {
    if h > 0 {
      BranchAlong(ix, path, h - 1);
      assert path[h].block.header.prevBlock == path[h - 1].id;
      assert path[..h + 1] == path[..h] + [path[h]];
    } else {
      assert path[..1] == [path[0]];
    }
  }

  /** The index of a path alone is linked, and its branches are the path's prefixes. */
  lemma {:induction false} PathBranch(path: seq<Indexed>, h: nat)
    requires h < |path| && PathShape(path)
    ensures Linked(PathIndex(path)) && Attached(PathIndex(path), path[h])
    ensures Branch(PathIndex(path), path[h]) == path[..h + 1]
  {
    hide PathIndex, Branch, Linked, Attached;
    PathIndexMembers(path);
    PathLinked(path);
    BranchAlong(PathIndex(path), path, h);
  }

  ghost predicate PathShape(path: seq<Indexed>) {
    && (forall h :: 0 <= h < |path| ==> path[h].height == h)
    && (forall h, k :: 0 <= h < k < |path| ==> path[h].id != path[k].id)
    && (forall h :: 0 < h < |path| ==> path[h].block.header.prevBlock == path[h - 1].id)
  }

  lemma {:induction false} PathLinked(path: seq<Indexed>)
    requires PathShape(path)
    ensures Linked(PathIndex(path))
    ensures forall h :: 0 <= h < |path| ==> Attached(PathIndex(path), path[h])
  {
    hide PathIndex;
    PathIndexMembers(path);
    var ix := PathIndex(path);
    forall h | 0 <= h < |path| ensures Attached(ix, path[h]) {
      if h > 0 {
        assert ix[path[h - 1].id] == path[h - 1];
      }
    }
  }

  lemma {:induction false} GoodPathShape(r: Rules, path: seq<Indexed>, now: int)
    requires UsableParams(r.p) && GoodPath(r, path, now)
    ensures PathShape(path)
  {
    hide UsableParams, HeaderFault, PrefixReplays, GenesisEntry, BlockWork;
    forall h | 0 < h < |path| ensures path[h].block.header.prevBlock == path[h - 1].id {
      assert GoodNext(r, path, h, now);
    }
  }

  lemma {:induction false} PrefixShape(path: seq<Indexed>, h: nat)
    requires PathShape(path) && h < |path|
    ensures PathShape(path[..h + 1])
  {
    var p := path[..h + 1];
    assert forall k :: 0 <= k < |p| ==> p[k] == path[k];
  }

  /** Where the next block of a path attaches to the index of the path so far. */
  lemma {:induction false} NextContext(path: seq<Indexed>, h: nat)
    requires PathShape(path) && h + 1 < |path|
    ensures var ix := PathIndex(path[..h + 1]);
            && Linked(ix) && path[h + 1].id !in ix
            && path[h].id in ix && ix[path[h].id] == path[h]
            && Attached(ix, path[h + 1])
            && Branch(ix, path[h]) == path[..h + 1]
            && Branch(ix, path[h + 1]) == path[..h + 2]
            && PathIndex(path[..h + 2]) == ix[path[h + 1].id := path[h + 1]]
  {
    hide PathIndex, Branch;
    var sofar := path[..h + 1];
    PrefixShape(path, h);
    PathBranch(sofar, h);
    PathIndexGrows(path, h);
    assert sofar[..h + 1] == sofar;
    BranchOfNext(PathIndex(sofar), path[h + 1], sofar);
    assert path[..h + 2] == sofar + [path[h + 1]];
  }

  /** Feeding the next block of a good path to a node that has the path so far makes it the new tip. */
  lemma {:induction false} NextBlockAccepted(r: Rules, path: seq<Indexed>, h: nat, now: int)
    requires UsableParams(r.p) && GoodPath(r, path, now) && h + 1 < |path|
    ensures PrefixReplays(r, path, h) && PrefixReplays(r, path, h + 1)
    ensures Linked(ChainOnly(r, path[..h + 1]).index)
    ensures AcceptBlock(r, ChainOnly(r, path[..h + 1]), path[h + 1].block, now, false)
         == (ChainOnly(r, path[..h + 2]), NewTip)
  {
    hide UsableParams, HeaderFault, Replay, Blocks, Ids, GenesisEntry, BlockWork, PathIndex, Branch, Evict, PathShape, Linked;
    assert PrefixReplays(r, path, h) && PrefixReplays(r, path, h + 1) && GoodNext(r, path, h + 1, now);
    GoodPathShape(r, path, now);
    NextContext(path, h);
    EmptyEvict(r, Replay(r.env, r.p.coinbaseMaturity, Blocks(path[..h + 2])).value, path[h + 1].height + 1);
  }

  lemma {:induction false} EmptyEvict(r: Rules, utxo: Utxo, height: int)
    ensures Evict(r, map[], utxo, height) == map[]
  {
  }

  lemma {:induction false} BranchOfNext(ix: Index, e: Indexed, path: seq<Indexed>)
    requires Linked(ix) && Attached(ix, e) && e.height > 0
    requires Branch(ix, ix[e.block.header.prevBlock]) == path
    ensures Branch(ix, e) == path + [e]
  {
  }

  lemma {:induction false} PathIndexGrows(path: seq<Indexed>, h: nat)
    requires PathShape(path) && h + 1 < |path|
    ensures path[h + 1].id !in PathIndex(path[..h + 1])
    ensures PathIndex(path[..h + 2]) == PathIndex(path[..h + 1])[path[h + 1].id := path[h + 1]]
    ensures path[h].id in PathIndex(path[..h + 1]) && PathIndex(path[..h + 1])[path[h].id] == path[h]
  {
    var p, q := path[..h + 1], path[..h + 2];
    assert q[..h + 1] == p;
    PathIndexMembers(p);
    assert p[h] == path[h];
    forall k | 0 <= k < |p| ensures p[k].id != path[h + 1].id {
      assert p[k] == path[k];
    }
  }

  // ---- the round trip ----

  ghost predicate AllStorable(path: seq<Indexed>) {
    forall h :: 0 < h < |path| ==> Storable(path[h].block)
  }

  /** Blocks above genesis that fit a frame. */
  ghost predicate Framable(path: seq<Indexed>) {
    forall h :: 0 < h < |path| ==> |BlockBytes(path[h].block)| <= MAX_BLOCK_BYTES
  }

  lemma {:induction false} StorableFramable(path: seq<Indexed>)
    requires AllStorable(path)
    ensures Framable(path)
  {
    hide BlockBytes, BlockFits;
    forall h | 0 < h < |path| ensures |BlockBytes(path[h].block)| <= MAX_BLOCK_BYTES {
      assert Storable(path[h].block);
    }
  }

  /** The durable bytes of a main chain: one frame per block above genesis. */
  ghost function Saved(path: seq<Indexed>, h: nat): seq<Byte>
    requires 0 < h <= |path| && Framable(path)
  {
    Frames(Blocks(path)[h..])
  }

  lemma {:induction false} SavedStep(path: seq<Indexed>, h: nat)
    requires 0 < h < |path| && Framable(path)
    ensures Saved(path, h) == Frame(path[h].block) + Saved(path, h + 1)
  {
    hide Frame, BlockBytes;
    var blocks := Blocks(path);
    assert blocks[h..][1..] == blocks[h + 1..];
  }

  lemma {:induction false} LoadFrom(r: Rules, path: seq<Indexed>, h: nat, now: int)
    requires UsableParams(r.p) && GoodPath(r, path, now) && AllStorable(path) && Framable(path) && h < |path|
    ensures PrefixReplays(r, path, h) && PrefixReplays(r, path, |path| - 1)
    ensures Linked(ChainOnly(r, path[..h + 1]).index)
    ensures LoadFrames(r, ChainOnly(r, path[..h + 1]), Saved(path, h + 1), now) == Some(ChainOnly(r, path[..|path|]))
    decreases |path| - h
  {
    hide UsableParams, AcceptBlock, Replay, Blocks, Ids, PathIndex, Linked, Frame, Storable, TakeFrame, GoodNext, GenesisEntry, PathShape,
         Framable;
    assert PrefixReplays(r, path, h) && PrefixReplays(r, path, |path| - 1);
    GoodPathShape(r, path, now);
    PrefixShape(path, h);
    PathLinked(path[..h + 1]);
    if h + 1 == |path| {
      assert Saved(path, h + 1) == [] by { assert Blocks(path)[h + 1..] == []; }
    } else {
      NextBlockAccepted(r, path, h, now);
      SavedStep(path, h + 1);
      FrameRoundTrip(path[h + 1].block, Saved(path, h + 2));
      assert GoodNext(r, path, h + 1, now);
      NextTip(r, path, h, now);
      FrameNonempty(path[h + 1].block);
      LoadFrom(r, path, h + 1, now);
    }
  }

  lemma {:induction false} FrameNonempty(b: Block)
    requires Storable(b)
    ensures Frame(b) != []
  {
    hide BlockBytes;
  }

  lemma {:induction false} NextTip(r: Rules, path: seq<Indexed>, h: nat, now: int)
    requires UsableParams(r.p) && GoodPath(r, path, now) && h + 1 < |path|
    ensures path[..h + 2][h + 1] == path[h + 1] && path[..h + 1][h] == path[h]
    ensures path[h + 1].height == path[h].height + 1
    ensures path[h + 1].id == r.env.headerId(path[h + 1].block.header)
  {
    hide UsableParams, HeaderFault, PrefixReplays, GenesisEntry, BlockWork;
    assert GoodNext(r, path, h + 1, now);
  }

  lemma {:induction false} GenesisIsChainOnly(r: Rules)
    ensures Replay(r.env, r.p.coinbaseMaturity, Blocks([GenesisEntry(r)])).Ok?
    ensures ChainOnly(r, [GenesisEntry(r)]) == Genesis(r)
  {
    hide Replay, GenesisBlock, SpendAndCreate, BlockWork;
    var e := GenesisEntry(r);
    assert Blocks([e]) == [e.block] && Ids([e]) == [e.id];
    assert [e][..0] == [];
    assert PathIndex([e]) == map[e.id := e] by { assert PathIndex([]) == map[]; }
    GenesisReplays(r);
  }

  /** Loading what was saved: the same main chain, tip, work and UTXO set, no side branches and an empty
      mempool, for any reachable chain of storable blocks and any clock that has not moved back. */
  lemma {:induction false} SaveLoadRoundTrip(r: Rules, s: State, clock: int, now: int)
    requires UsableParams(r.p) && Inv(r, s, clock) && Linked(s.index) && Attached(s.index, s.tip) && clock <= now
    requires AllStorable(Branch(s.index, s.tip))
    ensures Linked(Genesis(r).index) && Framable(Branch(s.index, s.tip))
    ensures LoadFrames(r, Genesis(r), Saved(Branch(s.index, s.tip), 1), now)
         == Some(State(PathIndex(Branch(s.index, s.tip)), s.tip, s.mainIds, s.utxo, map[]))
  {
    hide UsableParams, LoadFrames, Replay, Blocks, Ids, PathIndex, Storable, Genesis, GenesisEntry, MempoolOk, IndexOk,
         Linked, Branch, Saved;
    var path := Branch(s.index, s.tip);
    StorableFramable(path);
    MainPathGood(r, s, clock, now);
    GenesisIsChainOnly(r);
    LoadFrom(r, path, 0, now);
    assert path[..1] == [GenesisEntry(r)] && path[..|path|] == path;
  }
}
